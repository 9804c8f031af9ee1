/**
 The pairing PIN (crates/ss-network/src/pairing/server.rs): rotation, the failure
 counter, and the lockout that bounds guessing.  Time and fresh PINs are inputs.
 */
module PinManager {
  import opened Wrappers

  /** A PIN is one of the million six-digit strings, represented by its number. */
  type Pin = p: nat | p < 1_000_000

  const PIN_TTL := 180
  const MAX_FAILURES := 5
  const LOCKOUT := 60

  datatype Params = Params(ttl: nat, maxFailures: nat, lockout: nat)

  /** What the application runs with, in seconds. */
  const DEFAULTS := Params(PIN_TTL, MAX_FAILURES, LOCKOUT)

  datatype PinState = PinState(pin: Pin, generatedAt: nat, failures: nat, lockedUntil: Option<nat>)

  function Fresh(pin: Pin, now: nat): PinState {
    PinState(pin, now, 0, None)
  }

  predicate Expired(p: Params, s: PinState, now: nat) {
    now - s.generatedAt >= p.ttl
  }

  /** current_pin and pin_for_attempt: rotate first if the PIN's time is up. */
  function Rotated(p: Params, s: PinState, freshPin: Pin, now: nat): PinState {
    if Expired(p, s, now) then s.(pin := freshPin, generatedAt := now) else s
  }

  predicate Locked(s: PinState, now: nat) {
    s.lockedUntil.Some? && now < s.lockedUntil.value
  }

  /** is_locked clears an expired lockout as it looks. */
  function LockChecked(s: PinState, now: nat): PinState {
    if s.lockedUntil.Some? && now >= s.lockedUntil.value then s.(lockedUntil := None, failures := 0) else s
  }

  function FailureRecorded(p: Params, s: PinState, now: nat): PinState {
    var t := s.(failures := s.failures + 1);
    if t.failures >= p.maxFailures then t.(lockedUntil := Some(now + p.lockout)) else t
  }

  class PinManager {
    const ttl: nat
    const maxFailures: nat
    const lockout: nat
    var pin: Pin
    var generatedAt: nat
    var failures: nat
    var lockedUntil: Option<nat>

    function View(): PinState
      reads this
    {
      PinState(pin, generatedAt, failures, lockedUntil)
    }

    function Limits(): Params {
      Params(ttl, maxFailures, lockout)
    }

    constructor (freshPin: Pin, now: nat)
      ensures Limits() == DEFAULTS == Params(180, 5, 60) && View() == Fresh(freshPin, now)
    {
      ttl, maxFailures, lockout := PIN_TTL, MAX_FAILURES, LOCKOUT;
      pin, generatedAt, failures, lockedUntil := freshPin, now, 0, None;
    }

    constructor WithParams(p: Params, freshPin: Pin, now: nat)
      ensures Limits() == p && View() == Fresh(freshPin, now)
    {
      ttl, maxFailures, lockout := p.ttl, p.maxFailures, p.lockout;
      pin, generatedAt, failures, lockedUntil := freshPin, now, 0, None;
    }

    method CurrentPin(freshPin: Pin, now: nat) returns (r: Pin)
      modifies this
      ensures View() == Rotated(Limits(), old(View()), freshPin, now)
      ensures r == pin
    {
      if now - generatedAt >= ttl {
        pin := freshPin;
        generatedAt := now;
      }
      r := pin;
    }

    method IsLocked(now: nat) returns (r: bool)
      modifies this
      ensures r == Locked(old(View()), now)
      ensures View() == LockChecked(old(View()), now)
    {
      match lockedUntil {
        case Some(t) =>
          if now < t {
            return true;
          }
          lockedUntil := None;
          failures := 0;
          return false;
        case None =>
          return false;
      }
    }

    method RecordSuccess(freshPin: Pin, now: nat)
      modifies this
      ensures View() == Fresh(freshPin, now)
    {
      pin := freshPin;
      generatedAt := now;
      failures := 0;
      lockedUntil := None;
    }

    method RecordFailure(now: nat)
      modifies this
      ensures View() == FailureRecorded(Limits(), old(View()), now)
    {
      failures := failures + 1;
      if failures >= maxFailures {
        lockedUntil := Some(now + lockout);
      }
    }
  }

  // ------------------------------------------------------------------
  // Runs with concurrent attempts
  // ------------------------------------------------------------------

  /** What a connection does to the manager, and when. */
  datatype PinAction =
    | CheckLock(at: nat)                   // a new connection; admitted unless locked
    | TakePin(freshPin: Pin, at: nat)      // an admitted attempt, or the display, reads the PIN
    | Fail(at: nat)                        // an admitted attempt fails PIN verification
    | Succeed(freshPin: Pin, at: nat)      // an admitted attempt completes
    | Abandon(at: nat)                     // an admitted attempt ends without either

  /** The manager, the attempts in flight, and tallies over the run; `issue` numbers the PINs it has had. */
  datatype Guard = Guard(
    state: PinState, now: nat, inFlight: nat,
    recorded: nat, successes: nat, resets: nat, epochStart: nat, issue: nat)

  function Idle(pin: Pin): Guard {
    Guard(Fresh(pin, 0), 0, 0, 0, 0, 0, 0, 0)
  }

  /** Time does not run backwards, and only an attempt in flight can end. */
  predicate Enabled(g: Guard, a: PinAction) {
    && g.now <= a.at
    && (a.Fail? || a.Succeed? || a.Abandon? ==> g.inFlight > 0)
  }

  function Step(p: Params, g: Guard, a: PinAction): Guard
    requires Enabled(g, a)
  {
    var h := g.(now := a.at);
    match a
    case CheckLock(t) =>
      if Locked(g.state, t) then h
      else
        var reset := g.state.lockedUntil.Some?;
        h.(state := LockChecked(g.state, t), inFlight := g.inFlight + 1,
           resets := g.resets + (if reset then 1 else 0), epochStart := if reset then t else g.epochStart)
    case TakePin(f, t) =>
      h.(state := Rotated(p, g.state, f, t), issue := g.issue + if Expired(p, g.state, t) then 1 else 0)
    case Fail(t) =>
      h.(state := FailureRecorded(p, g.state, t), inFlight := g.inFlight - 1, recorded := g.recorded + 1)
    case Succeed(f, t) =>
      h.(state := Fresh(f, t), inFlight := g.inFlight - 1, successes := g.successes + 1, epochStart := t,
         issue := g.issue + 1)
    case Abandon(t) => h.(inFlight := g.inFlight - 1)
  }

  /** The failures one epoch can hold: up to the limit, and the others in flight when it is reached. */
  function EpochLimit(p: Params, c: nat): nat {
    (if p.maxFailures == 0 then 1 else p.maxFailures) + c
  }

  function Times(a: nat, b: nat): nat {
    a * b
  }

  lemma OneMore(a: nat, b: nat)
    ensures Times(a + 1, b) == Times(a, b) + b
  {
  }

  /** Kept by every step while at most c attempts are in flight; c excludes the one being judged. */
  predicate Bounded(p: Params, c: nat, g: Guard) {
    && g.epochStart <= g.now
    && g.inFlight <= c + 1
    && (match g.state.lockedUntil
        case None => g.state.failures == 0 || g.state.failures < p.maxFailures
        case Some(t) => g.state.failures + g.inFlight <= EpochLimit(p, c) && t >= g.epochStart + p.lockout)
    && g.recorded <= Times(g.resets + g.successes, EpochLimit(p, c)) + g.state.failures
    && Times(g.resets, p.lockout) <= g.epochStart
  }

  lemma StepKeepsBound(p: Params, c: nat, g: Guard, a: PinAction)
    requires Enabled(g, a) && Bounded(p, c, g)
    requires Step(p, g, a).inFlight <= c + 1
    ensures Bounded(p, c, Step(p, g, a))
  {
    hide Times;
    OneMore(g.resets + g.successes, EpochLimit(p, c));
    OneMore(g.resets, p.lockout);
    var h := Step(p, g, a);
    match a {
      case CheckLock(t) =>
        assert h.resets + h.successes == g.resets + g.successes || h.resets + h.successes == g.resets + g.successes + 1;
      case Succeed(f, t) =>
        assert h.resets + h.successes == g.resets + g.successes + 1;
      case _ =>
    }
  }

  /** A run whose every step is enabled and keeps at most c + 1 attempts in flight. */
  predicate Feasible(p: Params, c: nat, g: Guard, acts: seq<PinAction>)
    decreases acts
  {
    acts == [] || (Enabled(g, acts[0]) && Step(p, g, acts[0]).inFlight <= c + 1
                   && Feasible(p, c, Step(p, g, acts[0]), acts[1..]))
  }

  function Run(p: Params, c: nat, g: Guard, acts: seq<PinAction>): Guard
    requires Feasible(p, c, g, acts)
    decreases acts
  {
    if acts == [] then g else Run(p, c, Step(p, g, acts[0]), acts[1..])
  }

  lemma {:induction false} RunKeepsBound(p: Params, c: nat, g: Guard, acts: seq<PinAction>)
    requires Feasible(p, c, g, acts) && Bounded(p, c, g)
    ensures Bounded(p, c, Run(p, c, g, acts))
    ensures Run(p, c, g, acts).now >= g.now
    decreases acts
  {
    hide Step, Bounded;
    if acts != [] {
      StepKeepsBound(p, c, g, acts[0]);
      StepKeepsTime(p, g, acts[0]);
      RunKeepsBound(p, c, Step(p, g, acts[0]), acts[1..]);
    }
  }

  lemma StepKeepsTime(p: Params, g: Guard, a: PinAction)
    requires Enabled(g, a)
    ensures Step(p, g, a).now == a.at >= g.now
  {
  }

  lemma DivideTime(resets: nat, lockout: nat, now: nat)
    requires lockout > 0 && resets * lockout <= now
    ensures resets <= now / lockout
  {
    if resets > now / lockout {
      WidenEpochs(now / lockout + 1, resets, lockout);
      assert false;
    }
  }

  lemma WidenEpochs(a: nat, b: nat, limit: nat)
    requires a <= b
    ensures a * limit <= b * limit
  {
  }

  /** What a bounded guard says about failures and elapsed time. */
  lemma BoundedGuess(p: Params, c: nat, g: Guard)
    requires Bounded(p, c, g) && p.lockout > 0
    ensures g.recorded <= (g.now / p.lockout + g.successes + 1) * EpochLimit(p, c)
  {
    var done := g.resets + g.successes;
    OneMore(done, EpochLimit(p, c));
    DivideTime(g.resets, p.lockout, g.now);
    WidenEpochs(done + 1, g.now / p.lockout + g.successes + 1, EpochLimit(p, c));
  }

  /**
   Brute-force bound.  In any run of length T from a fresh manager with at most
   `attempts` in flight at once, the recorded failures are at most
   (max_failures + attempts - 1) * (floor(T / lockout) + successes + 1), where a
   max_failures of 0 counts as 1.  In a success-free run the last factor is
   floor(T / lockout) + 1.
   */
  lemma BruteForceBound(p: Params, attempts: nat, pin: Pin, acts: seq<PinAction>)
    requires attempts > 0 && p.lockout > 0
    requires Feasible(p, attempts - 1, Idle(pin), acts)
    ensures var end := Run(p, attempts - 1, Idle(pin), acts);
            end.recorded <= (end.now / p.lockout + end.successes + 1) * EpochLimit(p, attempts - 1)
  {
    RunKeepsBound(p, attempts - 1, Idle(pin), acts);
    BoundedGuess(p, attempts - 1, Run(p, attempts - 1, Idle(pin), acts));
  }

  // ------------------------------------------------------------------
  // Which PIN is in force
  // ------------------------------------------------------------------

  /** A PIN that was drawn, and when. */
  datatype Draw = Draw(pin: Pin, at: nat)

  /** A success draws a PIN, and so does a reading of one that is a time to live old. */
  function Drawn(p: Params, log: seq<Draw>, a: PinAction): (r: seq<Draw>)
    requires log != []
    ensures r != []
  {
    match a
    case Succeed(next, t) => log + [Draw(next, t)]
    case TakePin(next, t) => if t >= log[|log| - 1].at + p.ttl then log + [Draw(next, t)] else log
    case _ => log
  }

  /** The PINs of a run, from its actions alone. */
  function Draws(p: Params, log: seq<Draw>, acts: seq<PinAction>): (r: seq<Draw>)
    requires log != []
    ensures r != []
    decreases acts
  {
    if acts == [] then log else Draws(p, Drawn(p, log, acts[0]), acts[1..])
  }

  /** The PIN in force is the last one drawn, and the number of issues before it is right. */
  predicate InForce(g: Guard, log: seq<Draw>) {
    && log != [] && |log| == g.issue + 1
    && g.state.pin == log[g.issue].pin && g.state.generatedAt == log[g.issue].at
  }

  lemma StepInForce(p: Params, g: Guard, a: PinAction, log: seq<Draw>)
    requires Enabled(g, a) && InForce(g, log)
    ensures InForce(Step(p, g, a), Drawn(p, log, a))
  {
  }

  lemma {:induction false} RunInForce(p: Params, c: nat, g: Guard, acts: seq<PinAction>, log: seq<Draw>)
    requires Feasible(p, c, g, acts) && log != [] && InForce(g, log)
    ensures InForce(Run(p, c, g, acts), Draws(p, log, acts))
    decreases acts
  {
    hide Step, InForce, Drawn;
    if acts != [] {
      StepInForce(p, g, acts[0], log);
      RunInForce(p, c, Step(p, g, acts[0]), acts[1..], Drawn(p, log, acts[0]));
    }
  }

  /** In every run the PIN in force is the last that the run drew. */
  lemma PinInForce(p: Params, c: nat, first: Pin, acts: seq<PinAction>)
    requires Feasible(p, c, Idle(first), acts)
    ensures InForce(Run(p, c, Idle(first), acts), Draws(p, [Draw(first, 0)], acts))
  {
    RunInForce(p, c, Idle(first), acts, [Draw(first, 0)]);
  }

  /** With the limits the application runs with, in figures. */
  lemma DefaultBound(attempts: nat, pin: Pin, acts: seq<PinAction>)
    requires attempts > 0 && Feasible(DEFAULTS, attempts - 1, Idle(pin), acts)
    ensures var end := Run(DEFAULTS, attempts - 1, Idle(pin), acts);
            end.recorded <= (end.now / 60 + end.successes + 1) * (5 + attempts - 1)
  {
    BruteForceBound(DEFAULTS, attempts, pin, acts);
  }

  // ------------------------------------------------------------------
  // The bound is attained
  // ------------------------------------------------------------------

  lemma {:induction false} RunConcat(p: Params, c: nat, g: Guard, a: seq<PinAction>, b: seq<PinAction>)
    requires Feasible(p, c, g, a) && Feasible(p, c, Run(p, c, g, a), b)
    ensures Feasible(p, c, g, a + b) && Run(p, c, g, a + b) == Run(p, c, Run(p, c, g, a), b)
    decreases a
  {
    hide Step, Enabled;
    if a == [] {
      assert a + b == b;
    } else {
      assert (a + b)[1..] == a[1..] + b;
      RunConcat(p, c, Step(p, g, a[0]), a[1..], b);
    }
  }

  lemma RunSingle(p: Params, c: nat, g: Guard, a: PinAction)
    requires Enabled(g, a) && Step(p, g, a).inFlight <= c + 1
    ensures Feasible(p, c, g, [a]) && Run(p, c, g, [a]) == Step(p, g, a)
  {
    hide Step, Enabled;
    assert [a][1..] == [];
    RunNothing(p, c, Step(p, g, a));
  }

  lemma RunNothing(p: Params, c: nat, g: Guard)
    ensures Feasible(p, c, g, []) && Run(p, c, g, []) == g
  {
  }

  /** The failures that lock: a limit of 0 locks at the first one too. */
  function LockLimit(p: Params): nat {
    if p.maxFailures == 0 then 1 else p.maxFailures
  }

  /** Unlocked at time t, with this many failures and attempts in flight. */
  predicate Open(g: Guard, t: nat, failures: nat, inFlight: nat) {
    g.now == t && g.state.lockedUntil == None && g.state.failures == failures && g.inFlight == inFlight
  }

  /** One attempt after another fails, short of the limit. */
  lemma {:induction false} FailInTurn(p: Params, c: nat, g: Guard, t: nat, k: nat) returns (acts: seq<PinAction>)
    requires Open(g, t, 0, 0) && k < LockLimit(p)
    ensures Feasible(p, c, g, acts)
    ensures var h := Run(p, c, g, acts);
            Open(h, t, k, 0) && h.recorded == g.recorded + k && h.successes == g.successes
  {
    hide Feasible, Run;
    if k == 0 {
      acts := [];
      RunNothing(p, c, g);
    } else {
      var before := FailInTurn(p, c, g, t, k - 1);
      var h := Run(p, c, g, before);
      var admitted := Step(p, h, CheckLock(t));
      RunSingle(p, c, h, CheckLock(t));
      RunSingle(p, c, admitted, Fail(t));
      RunConcat(p, c, h, [CheckLock(t)], [Fail(t)]);
      RunConcat(p, c, g, before, [CheckLock(t)] + [Fail(t)]);
      acts := before + ([CheckLock(t)] + [Fail(t)]);
    }
  }

  /** Attempts are admitted together. */
  lemma {:induction false} AdmitTogether(p: Params, c: nat, g: Guard, t: nat, failures: nat, k: nat)
    returns (acts: seq<PinAction>)
    requires Open(g, t, failures, 0) && k <= c + 1
    ensures Feasible(p, c, g, acts)
    ensures var h := Run(p, c, g, acts);
            Open(h, t, failures, k) && h.recorded == g.recorded && h.successes == g.successes
  {
    hide Feasible, Run;
    if k == 0 {
      acts := [];
      RunNothing(p, c, g);
    } else {
      var before := AdmitTogether(p, c, g, t, failures, k - 1);
      var h := Run(p, c, g, before);
      RunSingle(p, c, h, CheckLock(t));
      RunConcat(p, c, g, before, [CheckLock(t)]);
      acts := before + [CheckLock(t)];
    }
  }

  /** Attempts already admitted all fail, lockout or not; the last leaves the manager locked. */
  lemma {:induction false} FailTogether(p: Params, c: nat, g: Guard, t: nat, k: nat) returns (acts: seq<PinAction>)
    requires g.now == t && g.inFlight == k <= c + 1 && g.state.failures >= LockLimit(p) - 1
    requires k > 0 || g.state.lockedUntil == Some(t + p.lockout)
    ensures Feasible(p, c, g, acts)
    ensures var h := Run(p, c, g, acts);
            && h.now == t && h.inFlight == 0 && h.state.lockedUntil == Some(t + p.lockout)
            && h.recorded == g.recorded + k && h.successes == g.successes
    decreases k
  {
    hide Feasible, Run;
    if k == 0 {
      acts := [];
      RunNothing(p, c, g);
    } else {
      RunSingle(p, c, g, Fail(t));
      var more := FailTogether(p, c, Step(p, g, Fail(t)), t, k - 1);
      RunConcat(p, c, g, [Fail(t)], more);
      acts := [Fail(t)] + more;
    }
  }

  /** The most failures one epoch can hold, all at one time. */
  lemma FullEpoch(p: Params, c: nat, g: Guard, t: nat) returns (acts: seq<PinAction>)
    requires Open(g, t, 0, 0)
    ensures Feasible(p, c, g, acts)
    ensures var h := Run(p, c, g, acts);
            && h.now == t && h.inFlight == 0 && h.state.lockedUntil == Some(t + p.lockout)
            && h.recorded == g.recorded + EpochLimit(p, c) && h.successes == g.successes
  {
    hide Feasible, Run, Step;
    var a := FailInTurn(p, c, g, t, LockLimit(p) - 1);
    var g1 := Run(p, c, g, a);
    var b := AdmitTogether(p, c, g1, t, LockLimit(p) - 1, c + 1);
    var g2 := Run(p, c, g1, b);
    var d := FailTogether(p, c, g2, t, c + 1);
    RunConcat(p, c, g1, b, d);
    RunConcat(p, c, g, a, b + d);
    acts := a + (b + d);
  }

  /** The first look after a lockout opens the next epoch. */
  lemma Reopen(p: Params, c: nat, g: Guard, t: nat)
    requires g.now <= t && g.inFlight == 0 && g.state.lockedUntil == Some(t)
    ensures var acts := [CheckLock(t)] + [Abandon(t)];
            Feasible(p, c, g, acts) &&
            var h := Run(p, c, g, acts);
            Open(h, t, 0, 0) && h.recorded == g.recorded && h.successes == g.successes
  {
    hide Feasible, Run;
    RunSingle(p, c, g, CheckLock(t));
    RunSingle(p, c, Step(p, g, CheckLock(t)), Abandon(t));
    RunConcat(p, c, g, [CheckLock(t)], [Abandon(t)]);
  }

  lemma {:induction false} FullEpochs(p: Params, c: nat, pin: Pin, n: nat) returns (acts: seq<PinAction>)
    ensures Feasible(p, c, Idle(pin), acts)
    ensures var h := Run(p, c, Idle(pin), acts);
            && h.now == Times(n, p.lockout) && h.inFlight == 0 && h.successes == 0
            && h.state.lockedUntil == Some(Times(n + 1, p.lockout))
            && h.recorded == Times(n + 1, EpochLimit(p, c))
  {
    hide Feasible, Run, Times;
    OneMore(n, p.lockout);
    OneMore(n, EpochLimit(p, c));
    if n == 0 {
      TimesZero(p.lockout);
      TimesZero(EpochLimit(p, c));
      acts := FullEpoch(p, c, Idle(pin), 0);
    } else {
      var before := FullEpochs(p, c, pin, n - 1);
      var g := Run(p, c, Idle(pin), before);
      var t := Times(n, p.lockout);
      OneMore(n - 1, p.lockout);
      var open := [CheckLock(t)] + [Abandon(t)];
      Reopen(p, c, g, t);
      var epoch := FullEpoch(p, c, Run(p, c, g, open), t);
      RunConcat(p, c, g, open, epoch);
      RunConcat(p, c, Idle(pin), before, open + epoch);
      acts := before + (open + epoch);
    }
  }

  lemma TimesZero(b: nat)
    ensures Times(0, b) == 0
  {
  }

  lemma WholeLockouts(n: nat, lockout: nat)
    requires lockout > 0
    ensures Times(n, lockout) / lockout == n
  {
    DivideTime(n, lockout, Times(n, lockout));
    if Times(n, lockout) / lockout > n {
      WidenEpochs(n + 1, Times(n, lockout) / lockout, lockout);
      OneMore(n, lockout);
      assert false;
    }
  }

  /** The brute-force bound is the best there is: for every number of lockouts, a run attains it. */
  lemma BoundAttained(p: Params, attempts: nat, pin: Pin, n: nat) returns (acts: seq<PinAction>)
    requires attempts > 0 && p.lockout > 0
    ensures Feasible(p, attempts - 1, Idle(pin), acts)
    ensures var end := Run(p, attempts - 1, Idle(pin), acts);
            && end.now / p.lockout == n && end.successes == 0
            && end.recorded == (end.now / p.lockout + end.successes + 1) * EpochLimit(p, attempts - 1)
  {
    hide Feasible, Run;
    acts := FullEpochs(p, attempts - 1, pin, n);
    WholeLockouts(n, p.lockout);
  }
}
