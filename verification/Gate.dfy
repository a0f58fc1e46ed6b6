/** The one-position gate shared by detect threads and the tracker (`PositionGate`, `track` in `position.rs`). */
module Gate {
  import opened Prelude

  const QUEUE_CAPACITY: nat := 64

  /** The two atomics and the hand-over channel. Positions are numbered in the order they are claimed. */
  datatype GateState = GateState(armed: bool, busy: bool, queue: seq<nat>)

  function MayClaim(sync: bool, g: GateState): bool { !sync || !g.busy }

  /** The compare-and-exchange of `claim`. */
  function ClaimOf(sync: bool, g: GateState): GateState {
    if sync then g.(busy := true) else g
  }

  function OpenedOf(g: GateState, position: nat): GateState {
    if |g.queue| < QUEUE_CAPACITY then g.(queue := g.queue + [position]) else g.(busy := false)
  }

  class PositionGate {
    const sync: bool
    var armed: bool
    var busy: bool
    var queue: seq<nat>

    function Value(): GateState
      reads this
    {
      GateState(armed, busy, queue)
    }

    constructor (syncMode: bool)
      ensures sync == syncMode && Value() == GateState(true, false, [])
    {
      sync, armed, busy, queue := syncMode, true, false, [];
    }

    method MayFire() returns (ok: bool)
      ensures ok <==> armed && MayClaim(sync, Value())
    {
      if !armed {
        return false;
      }
      if sync && busy {
        return false;
      }
      return true;
    }

    method Claim() returns (won: bool)
      modifies this`busy
      ensures won <==> MayClaim(sync, old(Value()))
      ensures Value() == if won then ClaimOf(sync, old(Value())) else old(Value())
    {
      if !sync {
        return true;
      }
      won := !busy;
      busy := true;
    }

    method Opened(position: nat)
      modifies this`busy, this`queue
      ensures Value() == OpenedOf(old(Value()), position)
    {
      if |queue| < QUEUE_CAPACITY {
        queue := queue + [position];
      } else {
        busy := false;
      }
    }
  }

  // ---------------------------------------------------------------- interleavings

  datatype Config = Config(sync: bool, ghostMode: bool, providers: nat, testMode: bool, testTrips: nat)

  /** Where a detect thread stands inside `fire_launch`. */
  datatype Phase = Idle | SawArmed | SawFree | Holding(position: nat)

  datatype TrackerPhase = Waiting | Tracking(open: nat) | Closing(over: nat)

  datatype State = State(
    gate: GateState,
    threads: seq<Phase>,
    tracker: TrackerPhase,
    claims: nat,
    closed: nat,
    trips: nat)

  /** One atomic action. `broke` tells whether the wallet is found under the bankroll floor. */
  datatype Step =
    | LoadArmed(thread: nat)
    | LoadBusy(thread: nat)
    | Abandon(thread: nat)
    | TryClaim(thread: nat)
    | HandOver(thread: nat)
    | Receive
    | Close(landed: bool, broke: bool)
    | Release

  /** Somebody will carry a claimed position to the tracker. */
  predicate Delivers(cfg: Config) { cfg.ghostMode || cfg.providers > 0 }

  function TripLimit(cfg: Config): nat { Max(cfg.testTrips, 1) }

  function At(s: State, thread: nat): Phase {
    if thread < |s.threads| then s.threads[thread] else Idle
  }

  function Goto(s: State, thread: nat, phase: Phase): State {
    if thread < |s.threads| then s.(threads := s.threads[thread := phase]) else s
  }

  /** The successful compare-and-exchange: a new position, held by the thread. */
  predicate Claims(cfg: Config, s: State, step: Step) {
    step.TryClaim? && At(s, step.thread) == SawFree && MayClaim(cfg.sync, s.gate)
  }

  /** The effect of one action; an action whose turn it is not changes nothing. */
  function Next(cfg: Config, s: State, step: Step): State {
    match step
    case LoadArmed(i) =>
      if At(s, i) == Idle && s.gate.armed then Goto(s, i, SawArmed) else s
    case LoadBusy(i) =>
      if At(s, i) == SawArmed then Goto(s, i, if MayClaim(cfg.sync, s.gate) then SawFree else Idle) else s
    case Abandon(i) =>
      if At(s, i) == SawFree then Goto(s, i, Idle) else s
    case TryClaim(i) =>
      if At(s, i) != SawFree then s
      else if MayClaim(cfg.sync, s.gate) then
        Goto(s.(gate := ClaimOf(cfg.sync, s.gate), claims := s.claims + 1), i, Holding(s.claims))
      else Goto(s, i, Idle)
    case HandOver(i) =>
      if !At(s, i).Holding? then s
      else if Delivers(cfg) then Goto(s.(gate := OpenedOf(s.gate, At(s, i).position)), i, Idle)
      else Goto(s, i, Idle)
    case Receive =>
      if s.tracker.Waiting? && s.gate.queue != [] then
        s.(tracker := Tracking(s.gate.queue[0]), gate := s.gate.(queue := s.gate.queue[1..]))
      else s
    case Close(landed, broke) =>
      if !s.tracker.Tracking? then s
      else
        var trips := if cfg.testMode && landed then s.trips + 1 else s.trips;
        var disarm := landed && ((broke && !cfg.ghostMode) || (cfg.testMode && trips >= TripLimit(cfg)));
        s.(tracker := Closing(s.tracker.open), closed := s.closed + 1, trips := trips,
           gate := s.gate.(armed := s.gate.armed && !disarm))
    case Release =>
      if s.tracker.Closing? then s.(tracker := Waiting, gate := s.gate.(busy := false)) else s
  }

  function Start(n: nat): State {
    State(GateState(true, false, []), seq(n, _ => Idle), Waiting, 0, 0, 0)
  }

  /** The state after a schedule of actions. */
  function Run(cfg: Config, s: State, steps: seq<Step>): State {
    if steps == [] then s else Next(cfg, Run(cfg, s, steps[..|steps| - 1]), steps[|steps| - 1])
  }

  // ---------------------------------------------------------------- counting positions in flight

  function HeldBy(phase: Phase): nat { if phase.Holding? then 1 else 0 }

  /** A thread that loaded `armed` and has not yet tried its claim. */
  function PastArmed(phase: Phase): nat { if phase.SawArmed? || phase.SawFree? then 1 else 0 }

  function Held(threads: seq<Phase>): nat {
    if threads == [] then 0 else Held(threads[..|threads| - 1]) + HeldBy(threads[|threads| - 1])
  }

  function Past(threads: seq<Phase>): (r: nat)
    ensures r <= |threads|
  {
    if threads == [] then 0 else Past(threads[..|threads| - 1]) + PastArmed(threads[|threads| - 1])
  }

  /** Claimed positions not yet released, wherever they are. */
  function InFlight(s: State): nat {
    Held(s.threads) + |s.gate.queue| + if s.tracker.Waiting? then 0 else 1
  }

  lemma {:induction false} CountsAfterGoto(threads: seq<Phase>, i: nat, phase: Phase)
    requires i < |threads|
    ensures Held(threads[i := phase]) == Held(threads) - HeldBy(threads[i]) + HeldBy(phase)
    ensures Past(threads[i := phase]) == Past(threads) - PastArmed(threads[i]) + PastArmed(phase)
    ensures Held(threads) >= HeldBy(threads[i]) && Past(threads) >= PastArmed(threads[i])
  {
    var n := |threads| - 1;
    if i < n {
      CountsAfterGoto(threads[..n], i, phase);
      assert threads[i := phase][..n] == threads[..n][i := phase];
    } else {
      assert threads[i := phase][..n] == threads[..n];
    }
  }

  lemma GotoCounts(s: State, i: nat, phase: Phase)
    ensures At(s, i) != phase && i < |s.threads| ==>
              && Held(Goto(s, i, phase).threads) == Held(s.threads) - HeldBy(At(s, i)) + HeldBy(phase)
              && Past(Goto(s, i, phase).threads) == Past(s.threads) - PastArmed(At(s, i)) + PastArmed(phase)
              && Held(s.threads) >= HeldBy(At(s, i))
              && Past(s.threads) >= PastArmed(At(s, i))
  {
    if i < |s.threads| {
      CountsAfterGoto(s.threads, i, phase);
    }
  }

  lemma {:induction false} IdleCounts(n: nat)
    ensures Held(Start(n).threads) == 0 && Past(Start(n).threads) == 0
  {
    if n > 0 {
      IdleCounts(n - 1);
      assert Start(n).threads[..n - 1] == Start(n - 1).threads;
    }
  }

  /** The position numbers wherever a position is carried. */
  predicate Carries(s: State, position: nat) {
    && (forall i :: 0 <= i < |s.threads| && s.threads[i].Holding? ==> s.threads[i].position == position)
    && (forall j :: 0 <= j < |s.gate.queue| ==> s.gate.queue[j] == position)
    && (s.tracker.Tracking? ==> s.tracker.open == position)
    && (s.tracker.Closing? ==> s.tracker.over == position)
  }

  /**
   `busy` is up exactly while one position is in flight, and that position is the latest claimed; every
   position before it has been closed.
   */
  predicate Exclusive(s: State) {
    && InFlight(s) == (if s.gate.busy then 1 else 0)
    && (s.claims > 0 ==> Carries(s, s.claims - 1))
    && (s.gate.busy ==> s.claims > 0)
    && s.closed + (if s.gate.busy && !s.tracker.Closing? then 1 else 0) == s.claims
  }

  lemma NobodyHolds(threads: seq<Phase>)
    ensures Held(threads) == 0 ==> forall i :: 0 <= i < |threads| ==> !threads[i].Holding?
  {
    forall i | 0 <= i < |threads| ensures Held(threads) >= HeldBy(threads[i]) {
      CountsAfterGoto(threads, i, Idle);
    }
  }

  lemma ExclusiveClaim(cfg: Config, s: State, i: nat)
    requires cfg.sync && Exclusive(s)
    ensures Exclusive(Next(cfg, s, TryClaim(i)))
  {
    hide Held;
    GotoCounts(s, i, Idle);
    GotoCounts(s, i, Holding(s.claims));
    NobodyHolds(s.threads);
  }

  lemma ExclusiveHandOver(cfg: Config, s: State, i: nat)
    requires cfg.sync && Delivers(cfg) && Exclusive(s)
    ensures Exclusive(Next(cfg, s, HandOver(i)))
  {
    hide Held;
    GotoCounts(s, i, Idle);
  }

  lemma ExclusiveStep(cfg: Config, s: State, step: Step)
    requires cfg.sync && Delivers(cfg) && Exclusive(s)
    ensures Exclusive(Next(cfg, s, step))
  {
    hide Held;
    match step {
      case LoadArmed(i) => GotoCounts(s, i, SawArmed);
      case LoadBusy(i) => GotoCounts(s, i, SawFree); GotoCounts(s, i, Idle);
      case Abandon(i) => GotoCounts(s, i, Idle);
      case TryClaim(i) => ExclusiveClaim(cfg, s, i);
      case HandOver(i) => ExclusiveHandOver(cfg, s, i);
      case Receive =>
      case Close(_, _) =>
      case Release =>
    }
  }

  /** Under every interleaving, positions follow one another: one in flight while busy, none otherwise. */
  lemma {:induction false} OnePositionAtATime(cfg: Config, n: nat, steps: seq<Step>)
    requires cfg.sync && Delivers(cfg)
    ensures Exclusive(Run(cfg, Start(n), steps))
  {
    hide Next, Exclusive;
    if steps == [] {
      assert Exclusive(Start(n)) by { StartIsExclusive(n); }
    } else {
      OnePositionAtATime(cfg, n, steps[..|steps| - 1]);
      ExclusiveStep(cfg, Run(cfg, Start(n), steps[..|steps| - 1]), steps[|steps| - 1]);
    }
  }

  lemma StartIsExclusive(n: nat)
    ensures Exclusive(Start(n))
  {
    IdleCounts(n);
  }

  /** The hand-over never meets a full queue, so it never drops `busy` on a position still open. */
  lemma HandOverAlwaysFits(cfg: Config, n: nat, steps: seq<Step>)
    requires cfg.sync && Delivers(cfg)
    ensures var s := Run(cfg, Start(n), steps);
            && |s.gate.queue| <= 1 < QUEUE_CAPACITY
            && forall i :: 0 <= i < n && At(s, i).Holding? ==> s.gate.queue == [] && s.tracker.Waiting?
  {
    hide Next, Run, Held;
    OnePositionAtATime(cfg, n, steps);
    var s := Run(cfg, Start(n), steps);
    forall i | 0 <= i < n && At(s, i).Holding? ensures Held(s.threads) >= 1 {
      CountsAfterGoto(s.threads, i, Idle);
    }
  }

  // ---------------------------------------------------------------- after disarming

  /** How many claims one thread completes along a schedule. */
  function ClaimsBy(cfg: Config, s: State, steps: seq<Step>, thread: nat): nat {
    if steps == [] then 0
    else
      var before, step := Run(cfg, s, steps[..|steps| - 1]), steps[|steps| - 1];
      ClaimsBy(cfg, s, steps[..|steps| - 1], thread)
      + if Claims(cfg, before, step) && step.thread == thread then 1 else 0
  }

  /** Once disarmed, a thread completes at most one claim more, and only one whose `armed` load came before. */
  lemma {:induction false} DisarmedThreadsClaimOnce(cfg: Config, s: State, steps: seq<Step>, thread: nat)
    requires !s.gate.armed
    ensures !Run(cfg, s, steps).gate.armed
    ensures ClaimsBy(cfg, s, steps, thread) + PastArmed(At(Run(cfg, s, steps), thread)) <= PastArmed(At(s, thread)) <= 1
  {
    if steps != [] {
      DisarmedThreadsClaimOnce(cfg, s, steps[..|steps| - 1], thread);
    }
  }

  /** The bound is reached: a claim may still follow the disarming. */
  lemma ClaimMayFollowDisarm()
    ensures exists cfg: Config, steps: seq<Step>, more: seq<Step> ::
              var s := Run(cfg, Start(1), steps);
              !s.gate.armed && ClaimsBy(cfg, s, more, 0) == 1
  {
    var cfg := Config(true, false, 1, true, 1);
    var tripped: seq<Step> := [TryClaim(0), HandOver(0), Receive, LoadArmed(0), Close(true, false), Release];
    var steps := [LoadArmed(0), LoadBusy(0)] + tripped;
    var more := [LoadBusy(0), TryClaim(0)];
    var free := State(GateState(true, false, []), [SawFree], Waiting, 0, 0, 0);
    var s := State(GateState(false, false, []), [SawArmed], Waiting, 1, 1, 1);
    assert Run(cfg, Start(1), [LoadArmed(0), LoadBusy(0)]) == free by {
      RunPair(cfg, Start(1), LoadArmed(0), LoadBusy(0));
    }
    assert Run(cfg, free, tripped) == s by {
      hide Run, Next;
      assert tripped == [TryClaim(0), HandOver(0)] + ([Receive, LoadArmed(0)] + [Close(true, false), Release]);
      TripInPairs(cfg, free);
    }
    RunConcat(cfg, Start(1), [LoadArmed(0), LoadBusy(0)], tripped);
    assert more[..1] == [LoadBusy(0)] && more[..1][..0] == [];
    assert ClaimsBy(cfg, s, more, 0) == 1;
  }

  lemma RunPair(cfg: Config, s: State, a: Step, b: Step)
    ensures Run(cfg, s, [a, b]) == Next(cfg, Next(cfg, s, a), b)
  {
    hide Next;
    assert [a, b][..1] == [a];
    RunOne(cfg, s, a);
  }

  lemma TripInPairs(cfg: Config, free: State)
    requires cfg == Config(true, false, 1, true, 1)
    requires free == State(GateState(true, false, []), [SawFree], Waiting, 0, 0, 0)
    ensures Run(cfg, free, [TryClaim(0), HandOver(0)] + ([Receive, LoadArmed(0)] + [Close(true, false), Release]))
         == State(GateState(false, false, []), [SawArmed], Waiting, 1, 1, 1)
  {
    hide Run;
    var queued := Next(cfg, Next(cfg, free, TryClaim(0)), HandOver(0));
    var tracked := Next(cfg, Next(cfg, queued, Receive), LoadArmed(0));
    RunPair(cfg, free, TryClaim(0), HandOver(0));
    RunPair(cfg, queued, Receive, LoadArmed(0));
    RunPair(cfg, tracked, Close(true, false), Release);
    RunConcat(cfg, queued, [Receive, LoadArmed(0)], [Close(true, false), Release]);
    RunConcat(cfg, free, [TryClaim(0), HandOver(0)], [Receive, LoadArmed(0)] + [Close(true, false), Release]);
    assert queued == State(GateState(true, true, [0]), [Idle], Waiting, 1, 0, 0);
    assert tracked == State(GateState(true, true, []), [SawArmed], Tracking(0), 1, 0, 0);
  }

  // ---------------------------------------------------------------- a bounded test session

  /** Trips made, positions that may still become trips, and threads that may still claim. */
  function TripsAtMost(s: State): nat {
    s.trips + Held(s.threads) + |s.gate.queue| + (if s.tracker.Tracking? then 1 else 0) + Past(s.threads)
  }

  predicate SessionBound(cfg: Config, s: State) {
    if s.gate.armed then s.trips < TripLimit(cfg) else TripsAtMost(s) <= TripLimit(cfg) + |s.threads|
  }

  lemma SessionStep(cfg: Config, s: State, step: Step)
    requires cfg.sync && Delivers(cfg) && cfg.testMode && Exclusive(s) && SessionBound(cfg, s)
    ensures SessionBound(cfg, Next(cfg, s, step))
  {
    hide Held, Past, Carries;
    match step {
      case LoadArmed(i) => GotoCounts(s, i, SawArmed);
      case LoadBusy(i) => GotoCounts(s, i, SawFree); GotoCounts(s, i, Idle);
      case Abandon(i) => GotoCounts(s, i, Idle);
      case TryClaim(i) => GotoCounts(s, i, Idle); GotoCounts(s, i, Holding(s.claims));
      case HandOver(i) => GotoCounts(s, i, Idle);
      case Receive =>
      case Close(_, _) => assert Past(s.threads) <= |s.threads|;
      case Release =>
    }
  }

  /** A test session of so many trips never completes more than that plus one per detect thread. */
  lemma {:induction false} TestSessionIsBounded(cfg: Config, n: nat, steps: seq<Step>)
    requires cfg.sync && Delivers(cfg) && cfg.testMode
    ensures var s := Run(cfg, Start(n), steps);
            SessionBound(cfg, s) && |s.threads| == n && s.trips <= TripLimit(cfg) + n
  {
    hide Held, Past, Exclusive;
    if steps != [] {
      var before := Run(cfg, Start(n), steps[..|steps| - 1]);
      TestSessionIsBounded(cfg, n, steps[..|steps| - 1]);
      OnePositionAtATime(cfg, n, steps[..|steps| - 1]);
      SessionStep(cfg, before, steps[|steps| - 1]);
    }
  }

  // ---------------------------------------------------------------- a sole detect thread

  /** With one detect thread nobody can take the slot between its check and its claim. */
  lemma {:induction false} SoleThreadNeverLosesItsClaim(cfg: Config, steps: seq<Step>)
    requires cfg.sync
    ensures var s := Run(cfg, Start(1), steps);
            |s.threads| == 1 && (s.threads[0].SawFree? ==> !s.gate.busy)
  {
    if steps != [] {
      SoleThreadNeverLosesItsClaim(cfg, steps[..|steps| - 1]);
    }
  }

  // ---------------------------------------------------------------- when the gate can wedge

  /** Nobody carries the position that `busy` stands for, and nobody else can claim. */
  predicate Wedged(s: State) {
    s.gate.busy && s.gate.queue == [] && s.tracker.Waiting?
  }

  /** Without a provider, outside ghost mode, a claim is never handed over: the gate stays busy for good. */
  lemma {:induction false} WedgedForGood(cfg: Config, s: State, steps: seq<Step>)
    requires cfg.sync && !Delivers(cfg) && Wedged(s)
    ensures Wedged(Run(cfg, s, steps)) && Run(cfg, s, steps).claims == s.claims
  {
    if steps != [] {
      WedgedForGood(cfg, s, steps[..|steps| - 1]);
    }
  }

  /** A position somewhere between its claim and its release, as the next few actions see it. */
  function WayOut(s: State): seq<Step> {
    match s.tracker
    case Closing(_) => [Release]
    case Tracking(_) => [Close(false, false), Release]
    case Waiting => [Receive, Close(false, false), Release]
  }

  lemma WayOutReleases(cfg: Config, s: State)
    requires s.tracker.Waiting? ==> s.gate.queue != []
    ensures !Run(cfg, s, WayOut(s)).gate.busy
  {
    hide Run;
    match s.tracker
    case Closing(_) => assert WayOut(s) == [Release]; RunOne(cfg, s, Release);
    case Tracking(_) => RunPair(cfg, s, Close(false, false), Release);
    case Waiting =>
      assert WayOut(s) == [Receive] + [Close(false, false), Release];
      RunOne(cfg, s, Receive);
      RunPair(cfg, Next(cfg, s, Receive), Close(false, false), Release);
      RunConcat(cfg, s, [Receive], [Close(false, false), Release]);
  }

  lemma RunOne(cfg: Config, s: State, a: Step)
    ensures Run(cfg, s, [a]) == Next(cfg, s, a)
  {
    assert [a][..0] == [];
  }

  lemma {:induction false} RunConcat(cfg: Config, s: State, a: seq<Step>, b: seq<Step>)
    ensures Run(cfg, s, a + b) == Run(cfg, Run(cfg, s, a), b)
  {
    hide Next;
    if b == [] {
      assert a + b == a;
    } else {
      RunConcat(cfg, s, a, b[..|b| - 1]);
      assert (a + b)[..|a + b| - 1] == a + b[..|b| - 1];
    }
  }

  lemma {:induction false} SomebodyHolds(threads: seq<Phase>) returns (i: nat)
    requires Held(threads) > 0
    ensures i < |threads| && threads[i].Holding?
  {
    var n := |threads| - 1;
    if threads[n].Holding? {
      i := n;
    } else {
      i := SomebodyHolds(threads[..n]);
    }
  }

  /** Some continuation of the schedule lowers `busy`. */
  ghost predicate Freeable(cfg: Config, n: nat, steps: seq<Step>) {
    exists more :: !Run(cfg, Start(n), steps + more).gate.busy
  }

  lemma ReleaseIsInReach(cfg: Config, n: nat, steps: seq<Step>)
    requires cfg.sync && Delivers(cfg)
    ensures Freeable(cfg, n, steps)
  {
    hide Run, Next, Held;
    var s := Run(cfg, Start(n), steps);
    OnePositionAtATime(cfg, n, steps);
    var handOver: seq<Step> := [];
    if s.gate.busy && s.tracker.Waiting? && s.gate.queue == [] {
      var i := SomebodyHolds(s.threads);
      handOver := [HandOver(i)];
      HandOverQueues(cfg, s, i);
    }
    var t := Run(cfg, s, handOver);
    assert handOver == [] ==> t == s by { NoSteps(cfg, s); }
    if s.gate.busy {
      WayOutReleases(cfg, t);
      RunConcat(cfg, s, handOver, WayOut(t));
      RunConcat(cfg, Start(n), steps, handOver + WayOut(t));
      assert !Run(cfg, Start(n), steps + (handOver + WayOut(t))).gate.busy;
    } else {
      assert steps + [] == steps;
      assert !Run(cfg, Start(n), steps + []).gate.busy;
    }
  }

  lemma NoSteps(cfg: Config, s: State)
    ensures Run(cfg, s, []) == s
  {
  }

  lemma HandOverQueues(cfg: Config, s: State, i: nat)
    requires Delivers(cfg) && i < |s.threads| && s.threads[i].Holding? && s.gate.queue == []
    ensures Run(cfg, s, [HandOver(i)]).gate.queue != []
  {
    RunOne(cfg, s, HandOver(i));
  }

  /** The gate can always be freed again exactly when claimed positions reach the tracker. */
  lemma AlwaysFreedIffDelivered(cfg: Config)
    requires cfg.sync
    ensures (forall n: nat, steps: seq<Step> :: Freeable(cfg, n, steps)) <==> Delivers(cfg)
  {
    hide Run, Next;
    if Delivers(cfg) {
      forall n: nat, steps: seq<Step> ensures Freeable(cfg, n, steps) {
        ReleaseIsInReach(cfg, n, steps);
      }
    } else {
      var steps := [LoadArmed(0), LoadBusy(0)] + [TryClaim(0)];
      assert Wedged(Run(cfg, Start(1), steps)) by { FirstClaimWedges(cfg); }
      forall more ensures Run(cfg, Start(1), steps + more).gate.busy {
        RunConcat(cfg, Start(1), steps, more);
        WedgedForGood(cfg, Run(cfg, Start(1), steps), more);
      }
      assert !Freeable(cfg, 1, steps);
    }
  }

  lemma FirstClaimWedges(cfg: Config)
    requires cfg.sync && !Delivers(cfg)
    ensures Wedged(Run(cfg, Start(1), [LoadArmed(0), LoadBusy(0)] + [TryClaim(0)]))
  {
    hide Run;
    var checked := Next(cfg, Next(cfg, Start(1), LoadArmed(0)), LoadBusy(0));
    RunPair(cfg, Start(1), LoadArmed(0), LoadBusy(0));
    RunOne(cfg, checked, TryClaim(0));
    RunConcat(cfg, Start(1), [LoadArmed(0), LoadBusy(0)], [TryClaim(0)]);
  }

  // ---------------------------------------------------------------- when the gate disarms

  /** The tracker closes a landed position in this step. */
  predicate ClosesLanded(s: State, step: Step) {
    step.Close? && step.landed && s.tracker.Tracking?
  }

  /** Landed positions closed along the schedule. */
  function LandedCloses(cfg: Config, n: nat, steps: seq<Step>): nat {
    if steps == [] then 0
    else
      var before, step := Run(cfg, Start(n), steps[..|steps| - 1]), steps[|steps| - 1];
      LandedCloses(cfg, n, steps[..|steps| - 1]) + if ClosesLanded(before, step) then 1 else 0
  }

  /** Some landed live position closed with the wallet under its floor. */
  predicate WentBroke(cfg: Config, n: nat, steps: seq<Step>) {
    steps != []
    && (WentBroke(cfg, n, steps[..|steps| - 1])
        || (!cfg.ghostMode && steps[|steps| - 1].Close? && steps[|steps| - 1].broke
            && ClosesLanded(Run(cfg, Start(n), steps[..|steps| - 1]), steps[|steps| - 1])))
  }

  lemma LandedIsClose(s: State, step: Step)
    ensures ClosesLanded(s, step) ==> step.Close?
  {
  }

  /** What one action does to the arming and to the count of trips. */
  lemma ArmingStep(cfg: Config, s: State, step: Step)
    ensures var t := Next(cfg, s, step);
            && t.trips == s.trips + (if cfg.testMode && ClosesLanded(s, step) then 1 else 0)
            && (t.gate.armed <==> s.gate.armed && !(ClosesLanded(s, step)
                                    && ((step.broke && !cfg.ghostMode) || (cfg.testMode && t.trips >= Max(cfg.testTrips, 1)))))
  {
  }

  /**
   The gate is armed exactly as long as no landed live position closed under the bankroll floor and, in a test
   session, fewer trips landed than were configured; a lost buy counts as no trip.
   */
  lemma {:induction false} ArmedExactly(cfg: Config, n: nat, steps: seq<Step>)
    ensures var s := Run(cfg, Start(n), steps);
            && s.trips == (if cfg.testMode then LandedCloses(cfg, n, steps) else 0)
            && (s.gate.armed <==> !WentBroke(cfg, n, steps) && (cfg.testMode ==> LandedCloses(cfg, n, steps) < Max(cfg.testTrips, 1)))
  {
    hide Next;
    if steps != [] {
      var before, step := Run(cfg, Start(n), steps[..|steps| - 1]), steps[|steps| - 1];
      ArmedExactly(cfg, n, steps[..|steps| - 1]);
      ArmingStep(cfg, before, step);
      hide ClosesLanded;
      assert ClosesLanded(before, step) ==> step.Close? by { LandedIsClose(before, step); }
    }
  }
}
