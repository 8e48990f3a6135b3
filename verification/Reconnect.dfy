/**
 The reconnect policy: which attempt to make after a disconnect and how long to wait. `Step` is one
 call of the policy; the lemmas relate every run of calls to what can be read off the call history
 alone. The mixing function of the random generator is left abstract.
 */
module Reconnect {
  import opened Backoff
  import opened Prelude

  datatype Config = Config(base: Duration, cap: Duration, maxAttempts: Option<u32>, stableAfter: nat)

  datatype Reason =
    | Network | TlsEof | ServerShutdown | Timeout
    | AuthFailed | RdstlsFailed(code: u32) | CertMismatch | ProtocolError(text: string)
    | RedirectLoop | UserClosed | LoggedOffRemotely | LocalNetworkDenied

  predicate Retryable(r: Reason) {
    r.Network? || r.TlsEof? || r.ServerShutdown? || r.Timeout?
  }

  datatype GiveUpReason = NotRetryable | AttemptsExhausted

  datatype Decision =
    | Retry(attempt: u32, delay: nat)
    | WaitForNetwork(next: u32)
    | GiveUp(why: GiveUpReason)

  const GAMMA: nat := 0x9E37_79B9_7F4A_7C15

  datatype State = State(rng: u64, attempts: u32, connectedSince: Option<nat>, reachable: bool)

  datatype Input =
    | Connected(at: nat)
    | Disconnected(reason: Reason, now: nat)
    | SetReachable(reachable: bool)
    | RetryNow
    | Reset

  function Start(seed: u64): State {
    State(seed, 0, None, true)
  }

  function NextRng(rng: u64): u64 {
    (rng + GAMMA) % TWO_64
  }

  function CeilingMillis(config: Config, attempt: u32): u64 {
    Min(Ceiling(config.base, config.cap, attempt) / NANOS_PER_MILLI, U64_MAX)
  }

  function NextDecision(config: Config, mix: u64 -> u64, s: State, jitter: bool): (State, Decision) {
    if !s.reachable then
      (s, WaitForNetwork(SaturatingAdd(s.attempts, 1)))
    else if config.maxAttempts.Some? && s.attempts >= config.maxAttempts.value then
      (s, GiveUp(AttemptsExhausted))
    else
      var attempt := SaturatingAdd(s.attempts, 1);
      if jitter then
        var rng := NextRng(s.rng);
        (s.(attempts := attempt, rng := rng),
         Retry(attempt, Spread(mix(rng), CeilingMillis(config, attempt)) * NANOS_PER_MILLI))
      else
        (s.(attempts := attempt), Retry(attempt, 0))
  }

  /** Whether the connection that just ended had lasted long enough. */
  predicate Stable(config: Config, since: Option<nat>, now: nat) {
    since.Some? && Max(now - since.value, 0) >= config.stableAfter
  }

  function Step(config: Config, mix: u64 -> u64, s: State, i: Input): (State, Option<Decision>) {
    match i
    case Connected(at) => (s.(connectedSince := Some(at)), None)
    case Disconnected(reason, now) =>
      var s' := s.(attempts := if Stable(config, s.connectedSince, now) then 0 else s.attempts,
                   connectedSince := None);
      if !Retryable(reason) then
        (s', Some(GiveUp(NotRetryable)))
      else
        var (s'', d) := NextDecision(config, mix, s', true);
        (s'', Some(d))
    case SetReachable(reachable) => (s.(reachable := reachable), None)
    case RetryNow => var (s', d) := NextDecision(config, mix, s, false); (s', Some(d))
    case Reset => (s.(attempts := 0, connectedSince := None), None)
  }

  function After(config: Config, mix: u64 -> u64, seed: u64, run: seq<Input>): State {
    if run == [] then Start(seed)
    else Step(config, mix, After(config, mix, seed, run[..|run| - 1]), run[|run| - 1]).0
  }

  /** The answer to the last call of a run. */
  function Answer(config: Config, mix: u64 -> u64, seed: u64, run: seq<Input>): Option<Decision>
    requires run != []
  {
    Step(config, mix, After(config, mix, seed, run[..|run| - 1]), run[|run| - 1]).1
  }

  // ----- what the history says --------------------------------------------------------------

  /** When the connection now up was made: no disconnect and no reset since. */
  function UpSince(run: seq<Input>): Option<nat> {
    if run == [] then None
    else
      match run[|run| - 1]
      case Connected(at) => Some(at)
      case Disconnected(_, _) => None
      case Reset => None
      case _ => UpSince(run[..|run| - 1])
  }

  /** The connection had been up for the configured time, or none is asked for. */
  predicate Lasted(config: Config, since: Option<nat>, now: nat) {
    since.Some? && (since.value + config.stableAfter <= now || config.stableAfter == 0)
  }

  /** A call that starts a new epoch: a reset, or a disconnect after a connection that lasted. */
  predicate StartsEpoch(config: Config, before: seq<Input>, i: Input) {
    i.Reset? || (i.Disconnected? && Lasted(config, UpSince(before), i.now))
  }

  /** The reasons after which another attempt makes sense. */
  predicate Passing(reason: Reason) {
    reason in {Network, TlsEof, ServerShutdown, Timeout}
  }

  /** Retries answered since the epoch began. */
  function Retries(config: Config, mix: u64 -> u64, seed: u64, run: seq<Input>): nat {
    if run == [] then 0
    else
      var init, i := run[..|run| - 1], run[|run| - 1];
      var kept := if StartsEpoch(config, init, i) then 0 else Retries(config, mix, seed, init);
      var answer := Answer(config, mix, seed, run);
      kept + if answer.Some? && answer.value.Retry? then 1 else 0
  }

  function Reachable(run: seq<Input>): bool {
    if run == [] then true
    else if run[|run| - 1].SetReachable? then run[|run| - 1].reachable
    else Reachable(run[..|run| - 1])
  }

  lemma {:induction false} FlagsAreHistory(config: Config, mix: u64 -> u64, seed: u64, run: seq<Input>)
    ensures var s := After(config, mix, seed, run); s.connectedSince == UpSince(run) && s.reachable == Reachable(run)
  {
    if run == [] {
    } else {
      FlagsAreHistory(config, mix, seed, run[..|run| - 1]);
    }
  }

  /** One call counts its own retry, from zero if it starts an epoch. */
  lemma StepCounts(config: Config, mix: u64 -> u64, s: State, i: Input)
    ensures var (s', answer) := Step(config, mix, s, i);
      var kept := if i.Reset? || (i.Disconnected? && Lasted(config, s.connectedSince, i.now)) then 0 else s.attempts;
      && s'.attempts == (if answer.Some? && answer.value.Retry? then SaturatingAdd(kept, 1) else kept)
      && (answer.Some? && answer.value.Retry? && config.maxAttempts.Some? ==> kept < config.maxAttempts.value)
  {
  }

  lemma {:induction false} AttemptsAreRetries(config: Config, mix: u64 -> u64, seed: u64, run: seq<Input>)
    ensures var s := After(config, mix, seed, run);
      && s.attempts == Min(Retries(config, mix, seed, run), U32_MAX)
      && (config.maxAttempts.Some? ==> s.attempts == Retries(config, mix, seed, run) <= config.maxAttempts.value)
  {
    if run == [] {
    } else {
      var init := run[..|run| - 1];
      AttemptsAreRetries(config, mix, seed, init);
      FlagsAreHistory(config, mix, seed, init);
      StepCounts(config, mix, After(config, mix, seed, init), run[|run| - 1]);
    }
  }

  /** The policy's fields are what the history says; a budget is never overrun. */
  lemma StateIsHistory(config: Config, mix: u64 -> u64, seed: u64, run: seq<Input>)
    ensures var s := After(config, mix, seed, run);
      && s.connectedSince == UpSince(run) && s.reachable == Reachable(run)
      && s.attempts == Min(Retries(config, mix, seed, run), U32_MAX)
      && (config.maxAttempts.Some? ==> s.attempts == Retries(config, mix, seed, run) <= config.maxAttempts.value)
  {
    FlagsAreHistory(config, mix, seed, run);
    AttemptsAreRetries(config, mix, seed, run);
  }

  /** Retries already spent when call `i` decides: none if it starts an epoch itself. */
  function Spent(config: Config, mix: u64 -> u64, seed: u64, run: seq<Input>, i: Input): nat {
    if StartsEpoch(config, run, i) then 0 else Retries(config, mix, seed, run)
  }

  ghost predicate Decides(i: Input) {
    i.RetryNow? || (i.Disconnected? && Passing(i.reason))
  }

  /**
   Every decision of every run with a bounded budget, from the history alone: while the network is
   down it waits, with the budget spent it gives up, and otherwise it is the next attempt of its
   epoch. Attempts are therefore numbered 1, 2, 3, ... within an epoch and never exceed the budget.
   */
  lemma Decisions(config: Config, mix: u64 -> u64, seed: u64, run: seq<Input>, i: Input)
    requires config.maxAttempts.Some?
    ensures var answer := Answer(config, mix, seed, run + [i]);
            var spent := Spent(config, mix, seed, run, i);
      && (answer.Some? <==> i.RetryNow? || i.Disconnected?)
      && (i.Disconnected? && !Passing(i.reason) ==> answer == Some(GiveUp(NotRetryable)))
      && (Decides(i) && !Reachable(run) ==> answer == Some(WaitForNetwork(Min(spent + 1, U32_MAX))))
      && (Decides(i) && Reachable(run) && spent >= config.maxAttempts.value ==>
            answer == Some(GiveUp(AttemptsExhausted)))
      && (Decides(i) && Reachable(run) && spent < config.maxAttempts.value ==>
            answer.value.Retry? && answer.value.attempt == spent + 1 <= config.maxAttempts.value
                && Retries(config, mix, seed, run + [i]) == spent + 1)
  {
    assert (run + [i])[..|run|] == run;
    StateIsHistory(config, mix, seed, run);
  }

  /** Without a budget the policy never gives up on a retryable reason; the numbers saturate. */
  lemma UnlimitedDecisions(config: Config, mix: u64 -> u64, seed: u64, run: seq<Input>, i: Input)
    requires config.maxAttempts.None? && Decides(i) && Reachable(run)
    ensures var answer := Answer(config, mix, seed, run + [i]);
      answer.Some? && answer.value.Retry?
      && answer.value.attempt == Min(Spent(config, mix, seed, run, i) + 1, U32_MAX)
  {
    assert (run + [i])[..|run|] == run;
    StateIsHistory(config, mix, seed, run);
  }

  /** Waiting for the network consumes nothing: neither an attempt nor a random draw. */
  lemma WaitingIsFree(config: Config, mix: u64 -> u64, seed: u64, run: seq<Input>, i: Input)
    requires Decides(i) && !Reachable(run)
    ensures Retries(config, mix, seed, run + [i]) == Spent(config, mix, seed, run, i)
    ensures After(config, mix, seed, run + [i]).rng == After(config, mix, seed, run).rng
  {
    assert (run + [i])[..|run|] == run;
    StateIsHistory(config, mix, seed, run);
  }

  /**
   The number announced while waiting is the number the attempt gets once the network is back,
   unless the budget was spent already.
   */
  lemma AnnouncedAttemptIsMade(config: Config, mix: u64 -> u64, seed: u64, run: seq<Input>, i: Input)
    requires Decides(i) && !Reachable(run)
    ensures var waiting := run + [i];
            var back := waiting + [SetReachable(true), RetryNow];
            var announced := Answer(config, mix, seed, waiting);
            var made := Answer(config, mix, seed, back);
      && announced.Some? && announced.value.WaitForNetwork? && made.Some?
      && (made.value == Retry(announced.value.next, 0) <==>
            !(config.maxAttempts.Some? && Spent(config, mix, seed, run, i) >= config.maxAttempts.value))
  {
    var waiting := run + [i];
    var up := waiting + [SetReachable(true)];
    var back := waiting + [SetReachable(true), RetryNow];
    assert waiting[..|run|] == run;
    assert up[..|waiting|] == waiting;
    assert back[..|up|] == up;
    StateIsHistory(config, mix, seed, run);
    StateIsHistory(config, mix, seed, waiting);
    WaitingIsFree(config, mix, seed, run, i);
    StateIsHistory(config, mix, seed, up);
  }

  // ----- delays -----------------------------------------------------------------------------

  /** Random draws made so far: one for each retry after a disconnect. */
  function Draws(config: Config, mix: u64 -> u64, seed: u64, run: seq<Input>): nat {
    if run == [] then 0
    else
      var answer := Answer(config, mix, seed, run);
      Draws(config, mix, seed, run[..|run| - 1])
        + if run[|run| - 1].Disconnected? && answer.Some? && answer.value.Retry? then 1 else 0
  }

  /** The state of the generator after `n` draws. */
  function Advanced(seed: u64, n: nat): u64 {
    (seed + n * 0x9E37_79B9_7F4A_7C15) % TWO_64
  }

  lemma WrapAdd(a: nat, b: nat)
    ensures (a % TWO_64 + b) % TWO_64 == (a + b) % TWO_64
  {
  }

  lemma AdvancedNext(seed: u64, n: nat)
    ensures NextRng(Advanced(seed, n)) == Advanced(seed, n + 1)
  {
    WrapAdd(seed + n * GAMMA, GAMMA);
  }

  lemma StepDraws(config: Config, mix: u64 -> u64, s: State, i: Input)
    ensures var (s', answer) := Step(config, mix, s, i);
      s'.rng == if i.Disconnected? && answer.Some? && answer.value.Retry? then NextRng(s.rng) else s.rng
  {
  }

  /** The generator has advanced by its increment once for each draw, and for nothing else. */
  lemma {:induction false} DrawsAreHistory(config: Config, mix: u64 -> u64, seed: u64, run: seq<Input>)
    ensures After(config, mix, seed, run).rng == Advanced(seed, Draws(config, mix, seed, run))
  {
    if run == [] {
    } else {
      var init := run[..|run| - 1];
      DrawsAreHistory(config, mix, seed, init);
      StepDraws(config, mix, After(config, mix, seed, init), run[|run| - 1]);
      AdvancedNext(seed, Draws(config, mix, seed, init));
    }
  }

  /** The longest delay of an attempt in whole milliseconds, as far as 64 bits hold it. */
  function LongestMillis(config: Config, attempt: u32): u64 {
    var millis := Ceiling(config.base, config.cap, attempt) / 1_000_000;
    if millis > 0xFFFF_FFFF_FFFF_FFFF then 0xFFFF_FFFF_FFFF_FFFF else millis
  }

  /**
   A retry the user asks for is made at once; one after a disconnect waits the fraction of the longest
   delay, in whole milliseconds, that the mixed next state of the generator is of 2^64.
   */
  lemma DelayIsDrawn(config: Config, mix: u64 -> u64, seed: u64, run: seq<Input>, i: Input)
    ensures var answer := Answer(config, mix, seed, run + [i]);
      answer.Some? && answer.value.Retry? ==>
        && (i.RetryNow? ==> answer.value.delay == 0)
        && (i.Disconnected? ==>
              var draw := mix(Advanced(seed, Draws(config, mix, seed, run) + 1));
              answer.value.delay == draw * (LongestMillis(config, answer.value.attempt) + 1) / 0x1_0000_0000_0000_0000 * 1_000_000)
  {
    assert (run + [i])[..|run|] == run;
    DrawsAreHistory(config, mix, seed, run);
    AdvancedNext(seed, Draws(config, mix, seed, run));
  }

  /** No delay is above the ceiling of its attempt, hence none above the closed form or the cap. */
  lemma DelayWithinCeiling(config: Config, mix: u64 -> u64, seed: u64, run: seq<Input>)
    requires run != []
    ensures var answer := Answer(config, mix, seed, run);
      answer.Some? && answer.value.Retry? ==>
        && answer.value.attempt >= 1
        && answer.value.delay <= Ceiling(config.base, config.cap, answer.value.attempt)
        && answer.value.delay <= ClosedForm(config.base, config.cap, answer.value.attempt)
  {
    var answer := Answer(config, mix, seed, run);
    if answer.Some? && answer.value.Retry? {
      var attempt := answer.value.attempt;
      CeilingAgainstClosedForm(config.base, config.cap, attempt);
      var rng := NextRng(After(config, mix, seed, run[..|run| - 1]).rng);
      SpreadWithin(mix(rng), CeilingMillis(config, attempt));
    }
  }

  /** Every whole millisecond up to the ceiling is the delay of some draw. */
  lemma EveryDelayHappens(config: Config, s: State, millis: nat) returns (draw: u64)
    requires s.reachable && (config.maxAttempts.Some? ==> s.attempts < config.maxAttempts.value)
    requires millis <= CeilingMillis(config, SaturatingAdd(s.attempts, 1))
    ensures NextDecision(config, (rng: u64) => draw, s, true).1
         == Retry(SaturatingAdd(s.attempts, 1), millis * NANOS_PER_MILLI)
  {
    draw := EveryValueIsDrawn(millis, CeilingMillis(config, SaturatingAdd(s.attempts, 1)));
  }

  // ----- the object -------------------------------------------------------------------------

  class ReconnectPolicy {
    const config: Config
    const mix: u64 -> u64
    var rng: u64
    var attempts: u32
    var connectedSince: Option<nat>
    var networkReachable: bool

    constructor (config: Config, mix: u64 -> u64, seed: u64)
      ensures Value() == Start(seed) && this.config == config && this.mix == mix
    {
      this.config, this.mix := config, mix;
      rng, attempts, connectedSince, networkReachable := seed, 0, None, true;
    }

    ghost function Value(): State
      reads this
    {
      State(rng, attempts, connectedSince, networkReachable)
    }

    method OnConnected(now: nat)
      modifies this
      ensures Value() == Step(config, mix, old(Value()), Connected(now)).0
    {
      connectedSince := Some(now);
    }

    method OnDisconnect(reason: Reason, now: nat) returns (d: Decision)
      modifies this
      ensures (Value(), Some(d)) == Step(config, mix, old(Value()), Disconnected(reason, now))
    {
      var since := connectedSince;
      connectedSince := None;
      if since.Some? && Max(now - since.value, 0) >= config.stableAfter {
        attempts := 0;
      }
      if !Retryable(reason) {
        return GiveUp(NotRetryable);
      }
      d := Decide(true);
    }

    method SetNetworkReachable(reachable: bool)
      modifies this
      ensures Value() == Step(config, mix, old(Value()), SetReachable(reachable)).0
    {
      networkReachable := reachable;
    }

    method TryNow() returns (d: Decision)
      modifies this
      ensures (Value(), Some(d)) == Step(config, mix, old(Value()), RetryNow)
    {
      d := Decide(false);
    }

    method Forget()
      modifies this
      ensures Value() == Step(config, mix, old(Value()), Reset).0
    {
      attempts := 0;
      connectedSince := None;
    }

    method BelowOrEq(limit: u64) returns (v: nat)
      modifies this`rng
      ensures rng == NextRng(old(rng)) && v == Spread(mix(rng), limit) <= limit
    {
      rng := NextRng(rng);
      v := Spread(mix(rng), limit);
      SpreadWithin(mix(rng), limit);
    }

    method Decide(jitter: bool) returns (d: Decision)
      modifies this
      ensures (Value(), d) == NextDecision(config, mix, old(Value()), jitter)
    {
      if !networkReachable {
        return WaitForNetwork(SaturatingAdd(attempts, 1));
      }
      if config.maxAttempts.Some? && attempts >= config.maxAttempts.value {
        return GiveUp(AttemptsExhausted);
      }
      attempts := SaturatingAdd(attempts, 1);
      var delay := 0;
      if jitter {
        var millis := BelowOrEq(CeilingMillis(config, attempts));
        delay := millis * NANOS_PER_MILLI;
      }
      d := Retry(attempts, delay);
    }
  }
}
