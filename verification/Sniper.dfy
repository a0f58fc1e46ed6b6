/** The confirm-mode fire protocol over redelivered events (`HotSniper` in `lib.rs`, `Session` in `confirm.rs`). */
module Sniper {
  import opened Prelude
  import opened Watch
  import Curve

  const SEEN_LIMIT: nat := 50_000
  const BUYS_LIMIT: nat := 4096
  const PENDING_LIMIT: nat := 4096

  datatype Create = Create(mint: Pubkey, creator: Pubkey, devBuy: U64, mayhem: bool, botlauncher: bool)
  datatype BuyTx = BuyTx(mint: Pubkey, sig8: nat, buy: Buy)
  datatype Pending = Pending(info: Create, slot: nat, watch: Launch)

  /** How a buy is priced: the curve, which instruction is used, and the margins. */
  datatype Pricing = Pricing(
    curve: Curve.CurveParams,
    exactSolIn: bool,
    buyLamports: U64,
    haircutBps: nat,
    slippageBps: nat)

  /** Tables and switches, fixed for a run. Rug coefficients are in thousandths; unknown creators have none. */
  datatype Config = Config(
    params: Params,
    table: WatchTable,
    devs: Option<set<Pubkey>>,
    rug: map<Pubkey, nat>,
    maxRug: real,
    skipMayhem: bool,
    minDevBuy: nat,
    maxDevBuy: nat,
    requireBotlauncher: bool,
    skipBotlauncher: bool,
    fireOnCreate: bool,
    pricing: Pricing)

  datatype State = State(
    seen: set<Pubkey>,
    pending: map<Pubkey, Pending>,
    curSlot: nat,
    seenBuys: set<nat>,
    seenDevs: set<Pubkey>,
    day: nat)

  /**
   What the decoder hands over. `day` is the UTC day the clock shows; `allowed` tells whether seller,
   nonce and position gate let a fire through.
   */
  datatype Event =
    | CreateSeen(info: Create, slot: nat, day: nat, allowed: bool)
    | BuySeen(tx: BuyTx, slot: nat, allowed: bool)

  datatype Effect =
    | Nothing
    | Registered(info: Create)
    | FiredOnCreate(info: Create, plan: Curve.BuyPlan, sent: bool)
    | FiredOnBuy(info: Create, fire: Outcome, plan: Curve.BuyPlan, sent: bool)

  // ---------------------------------------------------------------- the steps

  function Retain(pending: map<Pubkey, Pending>, oldest: int): map<Pubkey, Pending> {
    map m | m in pending && pending[m].slot >= oldest :: pending[m]
  }

  function Sealed(s: State, slot: nat): State {
    if slot > s.curSlot then
      s.(pending := Retain(s.pending, slot - 1),
         seenBuys := if |s.seenBuys| > BUYS_LIMIT then {} else s.seenBuys,
         curSlot := slot)
    else s
  }

  function Clock(s: State, day: nat): State {
    if day != s.day then s.(seenDevs := {}, day := day) else s
  }

  /** A creator not seen today and not in the historical table; without a table nobody is fresh. */
  predicate Fresh(cfg: Config, s: State, creator: Pubkey, day: nat) {
    creator !in Clock(s, day).seenDevs && cfg.devs.Some? && creator !in cfg.devs.value
  }

  function RugOf(cfg: Config, creator: Pubkey): real {
    if creator in cfg.rug then cfg.rug[creator] as real / 1000.0 else 0.0
  }

  /** The plan for a budget on top of so much flow; a plan for nothing is not sent. */
  function PlanFor(pricing: Pricing, flow: nat, budget: nat): Curve.BuyPlan {
    if pricing.exactSolIn then Curve.PlanExactSolIn(pricing.curve, flow, budget, pricing.slippageBps)
    else Curve.PlanBuy(pricing.curve, flow, budget, pricing.haircutBps, pricing.slippageBps)
  }

  /** A fire on the create is priced on top of the developer's buy alone. */
  function FireOnCreate(cfg: Config, info: Create, allowed: bool): (effect: Effect)
    ensures effect.FiredOnCreate? && effect.info == info
  {
    var plan := PlanFor(cfg.pricing, info.devBuy, cfg.pricing.buyLamports);
    FiredOnCreate(info, plan, allowed && plan.amount > 0)
  }

  /** A fire on a buy is priced on top of all the flow that the watcher counted. */
  function FireOnBuy(cfg: Config, info: Create, fire: Outcome, allowed: bool): (effect: Effect)
    requires fire.Fired?
    ensures effect.FiredOnBuy? && effect.info == info && effect.fire == fire
    ensures effect.plan == PlanFor(cfg.pricing, fire.priorFlow, fire.budget)
    ensures effect.sent <==> allowed && effect.plan.amount > 0
  {
    var plan := PlanFor(cfg.pricing, fire.priorFlow, fire.budget);
    FiredOnBuy(info, fire, plan, allowed && plan.amount > 0)
  }

  predicate Selected(cfg: Config, info: Create) {
    && !(info.mayhem && cfg.skipMayhem)
    && !(cfg.maxRug < 1.0 && RugOf(cfg, info.creator) >= cfg.maxRug)
    && info.devBuy >= cfg.minDevBuy
    && !(cfg.maxDevBuy > 0 && info.devBuy >= cfg.maxDevBuy)
    && !(cfg.requireBotlauncher && !info.botlauncher)
    && !(cfg.skipBotlauncher && info.botlauncher)
  }

  function Remember(seen: set<Pubkey>, mint: Pubkey): set<Pubkey> {
    if |seen + {mint}| > SEEN_LIMIT then {} else seen + {mint}
  }

  /** A launch not delivered before, once old slots are sealed. */
  function Admit(cfg: Config, s: State, info: Create, slot: nat, day: nat, allowed: bool): (State, Effect) {
    var accepted := Fresh(cfg, s, info.creator, day) && Selected(cfg, info);
    var clocked := Clock(s, day);
    var s1 := clocked.(seen := Remember(s.seen, info.mint), seenDevs := clocked.seenDevs + {info.creator});
    if !accepted then (s1, Nothing)
    else if cfg.fireOnCreate then (s1, FireOnCreate(cfg, info, allowed))
    else
      var kept := if |s1.pending| > PENDING_LIMIT then Retain(s1.pending, slot) else s1.pending;
      (s1.(pending := kept[info.mint := Pending(info, slot, Opened(info.devBuy))]), Registered(info))
  }

  /** The buy meets a launch of its own slot that is still waiting. */
  predicate Awaited(s: State, tx: BuyTx, slot: nat) {
    tx.mint in s.pending && s.pending[tx.mint].slot == slot
  }

  /** A buy met by a waiting launch of its slot and not counted before. */
  function Count(cfg: Config, s: State, tx: BuyTx, allowed: bool): (State, Effect)
    requires tx.mint in s.pending
  {
    var p := s.pending[tx.mint];
    var (watch, out) := Watch.Step(p.watch, cfg.table, tx.buy, cfg.params);
    var s1 := s.(seenBuys := s.seenBuys + {tx.sig8});
    if out == Passed(Watching) then (s1.(pending := s.pending[tx.mint := p.(watch := watch)]), Nothing)
    else (s1.(pending := s.pending - {tx.mint}), if out.Fired? then FireOnBuy(cfg, p.info, out, allowed) else Nothing)
  }

  function Next(cfg: Config, s: State, e: Event): (State, Effect) {
    var sealed := Sealed(s, e.slot);
    match e
    case CreateSeen(info, slot, day, allowed) =>
      if info.mint in sealed.seen then (sealed, Nothing) else Admit(cfg, sealed, info, slot, day, allowed)
    case BuySeen(tx, slot, allowed) =>
      if Awaited(sealed, tx, slot) && tx.sig8 !in sealed.seenBuys then Count(cfg, sealed, tx, allowed)
      else (sealed, Nothing)
  }

  function Start(day: nat): State { State({}, map[], 0, {}, {}, day) }

  /** The state that a run of events leaves, from a start on day `day0`. */
  function After(cfg: Config, day0: nat, events: seq<Event>): State {
    if events == [] then Start(day0) else Next(cfg, After(cfg, day0, events[..|events| - 1]), events[|events| - 1]).0
  }

  /** What the event at `k` does in its run. */
  function EffectAt(cfg: Config, day0: nat, events: seq<Event>, k: nat): Effect
    requires k < |events|
  {
    Next(cfg, After(cfg, day0, events[..k]), events[k]).1
  }

  lemma AfterStep(cfg: Config, day0: nat, events: seq<Event>, k: nat)
    requires k < |events|
    ensures After(cfg, day0, events[..k + 1]) == Next(cfg, After(cfg, day0, events[..k]), events[k]).0
  {
    assert events[..k + 1][..k] == events[..k];
  }

  // ---------------------------------------------------------------- the objects that take the steps

  class Session {
    var seenDevs: set<Pubkey>
    var day: nat

    constructor (today: nat)
      ensures seenDevs == {} && day == today
    {
      seenDevs, day := {}, today;
    }

    method DevIsFresh(devs: Option<set<Pubkey>>, dev: Pubkey, today: nat) returns (fresh0: bool)
      modifies this
      ensures day == today
      ensures seenDevs == (if today == old(day) then old(seenDevs) else {}) + {dev}
      ensures fresh0 <==> !(today == old(day) && dev in old(seenDevs)) && devs.Some? && dev !in devs.value
    {
      if today != day {
        seenDevs := {};
        day := today;
      }
      if dev in seenDevs {
        return false;
      }
      seenDevs := seenDevs + {dev};
      return devs.Some? && dev !in devs.value;
    }
  }

  class HotSniper {
    const session: Session
    var seen: set<Pubkey>
    var pending: map<Pubkey, Pending>
    var curSlot: nat
    var seenBuys: set<nat>

    function Value(): State
      reads this, session
    {
      State(seen, pending, curSlot, seenBuys, session.seenDevs, session.day)
    }

    constructor (today: nat)
      ensures fresh(session) && Value() == Start(today)
    {
      session := new Session(today);
      seen, pending, curSlot, seenBuys := {}, map[], 0, {};
    }

    method SealOldSlots(slot: nat)
      modifies this
      ensures Value() == Sealed(old(Value()), slot)
    {
      if slot > curSlot {
        pending := Retain(pending, slot - 1);
        if |seenBuys| > BUYS_LIMIT {
          seenBuys := {};
        }
        curSlot := slot;
      }
    }

    method ConfirmRegister(cfg: Config, info: Create, slot: nat, today: nat, allowed: bool) returns (effect: Effect)
      modifies this, session
      ensures (Value(), effect) == Next(cfg, old(Value()), CreateSeen(info, slot, today, allowed))
    {
      hide Selected, Retain, Sealed, Opened, PlanFor;
      SealOldSlots(slot);
      ghost var sealed := Value();
      if info.mint in seen {
        return Nothing;
      }
      seen := seen + {info.mint};
      if |seen| > SEEN_LIMIT {
        seen := {};
      }
      var fresh0 := session.DevIsFresh(cfg.devs, info.creator, today);
      assert fresh0 == Fresh(cfg, sealed, info.creator, today);
      assert Value() == Clock(sealed, today).(seen := Remember(sealed.seen, info.mint),
                                              seenDevs := Clock(sealed, today).seenDevs + {info.creator});
      hide Fresh, Clock, Remember;
      if !fresh0 || !Selected(cfg, info) {
        return Nothing;
      }
      if cfg.fireOnCreate {
        var plan := PlanFor(cfg.pricing, info.devBuy, cfg.pricing.buyLamports);
        return FiredOnCreate(info, plan, allowed && plan.amount > 0);
      }
      if |pending| > PENDING_LIMIT {
        pending := Retain(pending, slot);
      }
      pending := pending[info.mint := Pending(info, slot, Opened(info.devBuy))];
      return Registered(info);
    }

    /** The watcher's `clamp` demands that the size bounds be ordered. */
    method TakeBuy(cfg: Config, tx: BuyTx, slot: nat, allowed: bool) returns (effect: Effect)
      requires cfg.params.sizeLo <= cfg.params.sizeHi
      modifies this
      ensures (Value(), effect) == Next(cfg, old(Value()), BuySeen(tx, slot, allowed))
    {
      hide Watch.Step, Sealed, PlanFor;
      SealOldSlots(slot);
      if tx.mint !in pending || pending[tx.mint].slot != slot {
        return Nothing;
      }
      if tx.sig8 in seenBuys {
        return Nothing;
      }
      seenBuys := seenBuys + {tx.sig8};
      var p := pending[tx.mint];
      var (watch, out) := Watch.Step(p.watch, cfg.table, tx.buy, cfg.params);
      if out == Passed(Watching) {
        pending := pending[tx.mint := p.(watch := watch)];
        return Nothing;
      }
      pending := pending - {tx.mint};
      if !out.Fired? {
        return Nothing;
      }
      var plan := PlanFor(cfg.pricing, out.priorFlow, out.budget);
      return FiredOnBuy(p.info, out, plan, allowed && plan.amount > 0);
    }
  }

  // ---------------------------------------------------------------- runs within the two clearing limits

  function Mints(events: seq<Event>): set<Pubkey> {
    set e | e in events && e.CreateSeen? :: e.info.mint
  }

  function Sigs(events: seq<Event>): set<nat> {
    set e | e in events && e.BuySeen? :: e.tx.sig8
  }

  /** Too few launches and buys for either dedup set to be cleared. */
  predicate Bounded(events: seq<Event>) {
    |Mints(events)| <= SEEN_LIMIT && |Sigs(events)| <= BUYS_LIMIT
  }

  lemma SubsetSize<T>(a: set<T>, b: set<T>)
    requires a <= b
    ensures |a| <= |b|
  {
    assert b == a + (b - a);
  }

  lemma BoundedFront(events: seq<Event>, n: nat)
    requires n <= |events|
    ensures Mints(events[..n]) <= Mints(events) && Sigs(events[..n]) <= Sigs(events)
    ensures |Mints(events)| <= SEEN_LIMIT ==> |Mints(events[..n])| <= SEEN_LIMIT
    ensures Bounded(events) ==> Bounded(events[..n])
  {
    SubsetSize(Mints(events[..n]), Mints(events));
    SubsetSize(Sigs(events[..n]), Sigs(events));
  }

  lemma MarksOfLast(events: seq<Event>)
    requires events != []
    ensures var front, e := events[..|events| - 1], events[|events| - 1];
            && Mints(events) == (if e.CreateSeen? then Mints(front) + {e.info.mint} else Mints(front))
            && Sigs(events) == (if e.BuySeen? then Sigs(front) + {e.tx.sig8} else Sigs(front))
  {
    var front, e := events[..|events| - 1], events[|events| - 1];
    assert events == front + [e];
    assert forall f :: f in events <==> f in front || f == e;
  }

  /** Within the limit, `seen` is exactly the launches delivered so far. */
  lemma {:induction false} SeenIsMints(cfg: Config, day0: nat, events: seq<Event>)
    requires |Mints(events)| <= SEEN_LIMIT
    ensures After(cfg, day0, events).seen == Mints(events)
    ensures After(cfg, day0, events).seenBuys <= Sigs(events)
  {
    hide Mints, Sigs, Watch.Step, Selected, Retain, Fresh;
    if events == [] {
      assert Mints(events) == {} by { NoMints(); }
    } else {
      BoundedFront(events, |events| - 1);
      SeenIsMints(cfg, day0, events[..|events| - 1]);
      MarksOfLast(events);
      StepMarks(cfg, After(cfg, day0, events[..|events| - 1]), events[|events| - 1]);
    }
  }

  lemma NoMints()
    ensures Mints([]) == {}
  {
  }

  lemma SealedMarks(s: State, slot: nat)
    ensures var t := Sealed(s, slot);
            && t == s.(pending := t.pending, seenBuys := t.seenBuys, curSlot := t.curSlot)
            && t.seenBuys <= s.seenBuys
            && (|s.seenBuys| <= BUYS_LIMIT ==> t.seenBuys == s.seenBuys)
            && t.curSlot == Max(s.curSlot, slot)
            && (slot <= s.curSlot ==> t == s)
            && (forall m :: m in t.pending ==> m in s.pending && t.pending[m] == s.pending[m])
  {
  }

  /** What a step adds to the two dedup sets, clearing aside. */
  lemma StepMarks(cfg: Config, s: State, e: Event)
    ensures var t := Next(cfg, s, e).0;
            && t.seen == (if e.CreateSeen? && e.info.mint !in s.seen then Remember(s.seen, e.info.mint) else s.seen)
            && t.seenBuys <= s.seenBuys + (if e.BuySeen? then {e.tx.sig8} else {})
            && (|s.seenBuys| <= BUYS_LIMIT ==> s.seenBuys <= t.seenBuys)
            && t.curSlot == Max(s.curSlot, e.slot)
  {
    hide Watch.Step, Selected, Retain, Fresh, Remember, Sealed, Opened, FireOnCreate, FireOnBuy;
    SealedMarks(s, e.slot);
  }

  // ---------------------------------------------------------------- redelivery

  /** The same transaction delivered again; the clock and the gate may have moved. */
  predicate Same(e: Event, again: Event) {
    match e
    case CreateSeen(info, slot, _, _) => again.CreateSeen? && again.info == info && again.slot == slot
    case BuySeen(tx, slot, _) => again.BuySeen? && again.tx == tx && again.slot == slot
  }

  /** The event left its mark: any create does, a buy only while its launch is waiting. */
  predicate Handled(s: State, e: Event) {
    e.BuySeen? ==> Awaited(Sealed(s, e.slot), e.tx, e.slot)
  }

  /** The event at `k` repeats one that an earlier step of its run handled. */
  predicate Redelivered(cfg: Config, day0: nat, events: seq<Event>, k: nat)
    requires k < |events|
  {
    exists i :: 0 <= i < k && Same(events[i], events[k]) && Handled(After(cfg, day0, events[..i]), events[i])
  }

  predicate Marked(s: State, e: Event) {
    && e.slot <= s.curSlot
    && match e
       case CreateSeen(info, _, _, _) => info.mint in s.seen
       case BuySeen(tx, _, _) => tx.sig8 in s.seenBuys
  }

  lemma MarkedIsNoOp(cfg: Config, s: State, e: Event)
    requires Marked(s, e)
    ensures Next(cfg, s, e) == (s, Nothing)
  {
  }

  lemma HandledMarks(cfg: Config, s: State, e: Event, again: Event)
    requires Handled(s, e) && Same(e, again)
    requires |s.seenBuys| <= BUYS_LIMIT && (e.CreateSeen? ==> |s.seen + {e.info.mint}| <= SEEN_LIMIT)
    ensures Marked(Next(cfg, s, e).0, again)
  {
    hide Watch.Step, Selected, Retain, Fresh, Opened;
    StepMarks(cfg, s, e);
  }

  lemma {:induction false} MarkedStays(cfg: Config, day0: nat, events: seq<Event>, i: nat, k: nat, e: Event)
    requires i <= k <= |events| && Bounded(events) && Marked(After(cfg, day0, events[..i]), e)
    ensures Marked(After(cfg, day0, events[..k]), e)
    decreases k
  {
    hide Next, After, Mints, Sigs;
    if i < k {
      MarkedStays(cfg, day0, events, i, k - 1, e);
      Limits(cfg, day0, events, k - 1);
      AfterStep(cfg, day0, events, k - 1);
      StepMarks(cfg, After(cfg, day0, events[..k - 1]), events[k - 1]);
    }
  }

  /** In a bounded run no step comes near clearing either set. */
  lemma Limits(cfg: Config, day0: nat, events: seq<Event>, k: nat)
    requires k < |events| && |Mints(events)| <= SEEN_LIMIT
    ensures var s := After(cfg, day0, events[..k]);
            && s.seen == Mints(events[..k])
            && (events[k].CreateSeen? ==> |s.seen + {events[k].info.mint}| <= SEEN_LIMIT)
            && (Bounded(events) ==> |s.seenBuys| <= BUYS_LIMIT)
  {
    hide After, Mints, Sigs;
    BoundedFront(events, k);
    BoundedFront(events, k + 1);
    SeenIsMints(cfg, day0, events[..k]);
    assert events[..k + 1][..k] == events[..k];
    MarksOfLast(events[..k + 1]);
    SubsetSize(After(cfg, day0, events[..k]).seenBuys, Sigs(events[..k]));
  }

  /** Redelivering what a run has handled changes nothing and fires nothing. */
  lemma RedeliveryIsNoOp(cfg: Config, day0: nat, events: seq<Event>, k: nat)
    requires k < |events| && Bounded(events) && Redelivered(cfg, day0, events, k)
    ensures After(cfg, day0, events[..k + 1]) == After(cfg, day0, events[..k])
    ensures EffectAt(cfg, day0, events, k) == Nothing
  {
    hide Next, After, Mints, Sigs, Handled, Marked, Same, Bounded;
    var i :| 0 <= i < k && Same(events[i], events[k]) && Handled(After(cfg, day0, events[..i]), events[i]);
    assert Bounded(events) ==> |Mints(events)| <= SEEN_LIMIT by { BoundedMints(events); }
    Limits(cfg, day0, events, i);
    HandledMarks(cfg, After(cfg, day0, events[..i]), events[i], events[k]);
    AfterStep(cfg, day0, events, i);
    MarkedStays(cfg, day0, events, i + 1, k, events[k]);
    MarkedIsNoOp(cfg, After(cfg, day0, events[..k]), events[k]);
    AfterStep(cfg, day0, events, k);
  }

  lemma BoundedMints(events: seq<Event>)
    ensures Bounded(events) ==> |Mints(events)| <= SEEN_LIMIT
  {
  }

  /** The run with every redelivery left out. */
  ghost function Pruned(cfg: Config, day0: nat, events: seq<Event>): seq<Event> {
    if events == [] then []
    else
      var rest := Pruned(cfg, day0, events[..|events| - 1]);
      if Redelivered(cfg, day0, events, |events| - 1) then rest else rest + [events[|events| - 1]]
  }

  /** Everything a run did, in order. */
  function Log(cfg: Config, day0: nat, events: seq<Event>): seq<Effect> {
    if events == [] then []
    else
      var front := events[..|events| - 1];
      var effect := Next(cfg, After(cfg, day0, front), events[|events| - 1]).1;
      Log(cfg, day0, front) + if effect == Nothing then [] else [effect]
  }

  /** However often events are redelivered, the watchers, the registrations and the fires are those of one delivery. */
  lemma {:induction false} RedeliveriesAreInvisible(cfg: Config, day0: nat, events: seq<Event>)
    requires Bounded(events)
    ensures After(cfg, day0, Pruned(cfg, day0, events)) == After(cfg, day0, events)
    ensures Log(cfg, day0, Pruned(cfg, day0, events)) == Log(cfg, day0, events)
  {
    hide Next, Mints, Sigs, Redelivered, Bounded;
    if events != [] {
      var n := |events| - 1;
      var front := events[..n];
      BoundedFront(events, n);
      RedeliveriesAreInvisible(cfg, day0, front);
      var rest := Pruned(cfg, day0, front);
      assert events[..n + 1] == events;
      if Redelivered(cfg, day0, events, n) {
        RedeliveryIsNoOp(cfg, day0, events, n);
      } else {
        assert (rest + [events[n]])[..|rest|] == rest;
      }
    }
  }

  // ---------------------------------------------------------------- once per creator and day

  /** The clock readings of a run: a create reads the day, a buy does not. */
  function Readings(events: seq<Event>): (r: seq<Option<nat>>)
    ensures |r| == |events|
    ensures forall i :: 0 <= i < |r| ==> r[i] == if events[i].CreateSeen? then Some(events[i].day) else None
  {
    seq(|events|, i requires 0 <= i < |events| => if events[i].CreateSeen? then Some(events[i].day) else None)
  }

  /** No day comes back once another day stood between; a clock that never steps back is one example. */
  predicate NoDayReturns(readings: seq<Option<nat>>) {
    forall i, j, k :: 0 <= i < j < k < |readings| && readings[i].Some? && readings[i] == readings[k]
                      ==> readings[j] == readings[i] || readings[j] == None
  }

  predicate Accepts(effect: Effect) {
    effect.Registered? || effect.FiredOnCreate?
  }

  lemma StepDevs(cfg: Config, s: State, e: Event)
    ensures var (t, effect) := Next(cfg, s, e);
            && (e.BuySeen? || e.day == s.day ==> s.seenDevs <= t.seenDevs && t.day == s.day)
            && (Accepts(effect) ==> e.CreateSeen? && effect.info == e.info
                                    && t.day == e.day && e.info.creator in t.seenDevs
                                    && (e.day == s.day ==> e.info.creator !in s.seenDevs))
  {
    hide Sealed, Admit, Count;
    SealedMarks(s, e.slot);
    var sealed := Sealed(s, e.slot);
    match e {
      case CreateSeen(info, slot, day, allowed) => AdmitDevs(cfg, sealed, info, slot, day, allowed);
      case BuySeen(tx, slot, allowed) =>
        if Awaited(sealed, tx, slot) {
          CountDevs(cfg, sealed, tx, allowed);
        }
    }
  }

  lemma AdmitDevs(cfg: Config, s: State, info: Create, slot: nat, day: nat, allowed: bool)
    ensures var (t, effect) := Admit(cfg, s, info, slot, day, allowed);
            && (day == s.day ==> s.seenDevs <= t.seenDevs)
            && t.day == day && info.creator in t.seenDevs
            && (Accepts(effect) ==> effect.info == info && (day == s.day ==> info.creator !in s.seenDevs))
  {
    hide Selected, Retain, Opened, Remember, FireOnCreate;
  }

  lemma CountDevs(cfg: Config, s: State, tx: BuyTx, allowed: bool)
    requires tx.mint in s.pending
    ensures var (t, effect) := Count(cfg, s, tx, allowed);
            t.seenDevs == s.seenDevs && t.day == s.day && !Accepts(effect)
  {
    hide Watch.Step;
  }

  lemma {:induction false} DevStaysSeen(cfg: Config, day0: nat, events: seq<Event>, i: nat, k: nat, dev: Pubkey, day: nat)
    requires i <= k <= |events|
    requires forall j :: i <= j < k && events[j].CreateSeen? ==> events[j].day == day
    requires dev in After(cfg, day0, events[..i]).seenDevs && After(cfg, day0, events[..i]).day == day
    ensures dev in After(cfg, day0, events[..k]).seenDevs && After(cfg, day0, events[..k]).day == day
    decreases k
  {
    hide Next, After;
    if i < k {
      DevStaysSeen(cfg, day0, events, i, k - 1, dev, day);
      AfterStep(cfg, day0, events, k - 1);
      StepDevs(cfg, After(cfg, day0, events[..k - 1]), events[k - 1]);
    }
  }

  /** While no day returns, a creator has at most one launch registered or fired on its create per UTC day, whatever is cleared. */
  lemma OneLaunchPerCreatorAndDay(cfg: Config, day0: nat, events: seq<Event>, i: nat, k: nat)
    requires NoDayReturns(Readings(events)) && i < k < |events|
    requires Accepts(EffectAt(cfg, day0, events, i)) && Accepts(EffectAt(cfg, day0, events, k))
    requires EffectAt(cfg, day0, events, i).info.creator == EffectAt(cfg, day0, events, k).info.creator
    ensures events[i].CreateSeen? && events[k].CreateSeen? && events[i].day != events[k].day
  {
    hide Next, After;
    AfterStep(cfg, day0, events, i);
    StepDevs(cfg, After(cfg, day0, events[..i]), events[i]);
    StepDevs(cfg, After(cfg, day0, events[..k]), events[k]);
    if events[i].day == events[k].day {
      SameDayBetween(events, i, k);
      DevStaysSeen(cfg, day0, events, i + 1, k, events[i].info.creator, events[i].day);
    }
  }

  lemma SameDayBetween(events: seq<Event>, i: nat, k: nat)
    requires NoDayReturns(Readings(events)) && i < k < |events|
    requires events[i].CreateSeen? && events[k].CreateSeen? && events[i].day == events[k].day
    ensures forall j :: i < j < k && events[j].CreateSeen? ==> events[j].day == events[i].day
  {
    hide NoDayReturns;
    forall j | i < j < k && events[j].CreateSeen? ensures events[j].day == events[i].day {
      NoOtherDayBetween(Readings(events), i, j, k);
    }
  }

  lemma NoOtherDayBetween(readings: seq<Option<nat>>, i: nat, j: nat, k: nat)
    requires NoDayReturns(readings) && i < j < k < |readings| && readings[i].Some? && readings[i] == readings[k]
    ensures readings[j] == readings[i] || readings[j] == None
  {
  }

  /** The daily limit holds in a run: two launches accepted for one creator are on different days. */
  predicate KeepsDailyLimit(cfg: Config, day0: nat, events: seq<Event>) {
    forall i, k :: 0 <= i < k < |events|
      && Accepts(EffectAt(cfg, day0, events, i)) && Accepts(EffectAt(cfg, day0, events, k))
      && EffectAt(cfg, day0, events, i).info.creator == EffectAt(cfg, day0, events, k).info.creator
      ==> Readings(events)[i] != Readings(events)[k]
  }

  /** Every run with given clock readings keeps the daily limit if and only if no day returns in them. */
  lemma DailyLimitIffNoDayReturns(readings: seq<Option<nat>>)
    ensures (forall cfg, day0, events :: Readings(events) == readings ==> KeepsDailyLimit(cfg, day0, events))
       <==> NoDayReturns(readings)
  {
    hide EffectAt, NoDayReturns;
    if NoDayReturns(readings) {
      forall cfg, day0, events | Readings(events) == readings ensures KeepsDailyLimit(cfg, day0, events) {
        forall i, k | 0 <= i < k < |events|
          && Accepts(EffectAt(cfg, day0, events, i)) && Accepts(EffectAt(cfg, day0, events, k))
          && EffectAt(cfg, day0, events, i).info.creator == EffectAt(cfg, day0, events, k).info.creator
          ensures Readings(events)[i] != Readings(events)[k]
        {
          OneLaunchPerCreatorAndDay(cfg, day0, events, i, k);
        }
      }
    } else {
      var i, j, k := ReturningDay(readings);
      var events := Rivals(readings, i, k);
      RivalsBothAccepted(readings, i, j, k);
      assert Readings(events) == readings;
      assert !KeepsDailyLimit(Unguarded(), 0, events);
    }
  }

  lemma ReturningDay(readings: seq<Option<nat>>) returns (i: nat, j: nat, k: nat)
    requires !NoDayReturns(readings)
    ensures i < j < k < |readings| && readings[i].Some? && readings[j].Some?
    ensures readings[i] == readings[k] && readings[j] != readings[i]
  {
    i, j, k :| 0 <= i < j < k < |readings| && readings[i].Some? && readings[i] == readings[k]
               && readings[j] != readings[i] && readings[j] != None;
  }

  /** Every gate open, firing on the create. */
  function Unguarded(): Config {
    Config(Params(3, 0, 0, 0, 0, 0, 0, 0), map[], Some({}), map[], 1.0, false, 0, 0, false, false, true,
           Pricing(Curve.LIVE, false, 0, 0, 0))
  }

  /** Launches with those clock readings, every creator new but for the one shared by `i` and `k`. */
  function Rivals(readings: seq<Option<nat>>, i: nat, k: nat): (events: seq<Event>)
    ensures |events| == |readings|
    ensures forall n :: 0 <= n < |events| ==> events[n] == Rival(readings[n], n, i, k)
  {
    seq(|readings|, n requires 0 <= n < |readings| => Rival(readings[n], n, i, k))
  }

  function Rival(reading: Option<nat>, n: nat, i: nat, k: nat): Event {
    match reading
    case Some(day) => CreateSeen(Create(n, if n == k then i else n, 0, false, false), 0, day, true)
    case None => BuySeen(BuyTx(0, 0, Buy(0, 0, 0, false)), 0, true)
  }

  lemma RivalStep(s: State, e: Event)
    requires s.pending == map[] && s.curSlot == 0 && e.slot == 0
    requires e.CreateSeen? ==> !e.info.mayhem && !e.info.botlauncher && e.info.mint !in s.seen
    ensures var (t, effect) := Next(Unguarded(), s, e);
            && t.pending == map[] && t.curSlot == 0
            && if e.BuySeen? then t == s
               else && t.seen <= s.seen + {e.info.mint} && t.day == e.day
                    && t.seenDevs == (if e.day == s.day then s.seenDevs else {}) + {e.info.creator}
                    && (e.info.creator !in Clock(s, e.day).seenDevs ==> effect.FiredOnCreate? && effect.info == e.info)
  {
  }

  /** Up to `n`, the session has seen only creators of earlier launches, and none from before the day last changed. */
  lemma {:induction false} RivalsSoFar(readings: seq<Option<nat>>, i: nat, j: nat, k: nat, n: nat)
    requires i < j < k < |readings| && readings[i].Some? && readings[j].Some? && readings[j] != readings[i] && n <= k
    ensures var s := After(Unguarded(), 0, Rivals(readings, i, k)[..n]);
            && s.pending == map[] && s.curSlot == 0
            && (forall m :: m in s.seen ==> m < n)
            && (forall c :: c in s.seenDevs ==> c < n)
            && (n > j && i in s.seenDevs ==> Some(s.day) != readings[i])
            && (i < n <= j && i in s.seenDevs ==> Some(s.day) == readings[i])
  {
    hide After, Next;
    var events := Rivals(readings, i, k);
    if n == 0 {
      assert events[..0] == [];
      NoEvents(Unguarded(), 0);
    } else {
      RivalsSoFar(readings, i, j, k, n - 1);
      AfterStep(Unguarded(), 0, events, n - 1);
      RivalStep(After(Unguarded(), 0, events[..n - 1]), events[n - 1]);
    }
  }

  lemma RivalsBothAccepted(readings: seq<Option<nat>>, i: nat, j: nat, k: nat)
    requires i < j < k < |readings| && readings[i].Some? && readings[j].Some?
    requires readings[i] == readings[k] && readings[j] != readings[i]
    ensures var events := Rivals(readings, i, k);
            && Accepts(EffectAt(Unguarded(), 0, events, i)) && Accepts(EffectAt(Unguarded(), 0, events, k))
            && EffectAt(Unguarded(), 0, events, i).info.creator == EffectAt(Unguarded(), 0, events, k).info.creator
  {
    hide After, Next;
    var events := Rivals(readings, i, k);
    RivalsSoFar(readings, i, j, k, i);
    RivalsSoFar(readings, i, j, k, k);
    RivalStep(After(Unguarded(), 0, events[..i]), events[i]);
    RivalStep(After(Unguarded(), 0, events[..k]), events[k]);
  }

  lemma NoEvents(cfg: Config, day0: nat)
    ensures After(cfg, day0, []) == Start(day0)
  {
  }

  // ---------------------------------------------------------------- once per launch

  predicate Fires(effect: Effect) {
    effect.FiredOnCreate? || effect.FiredOnBuy?
  }

  /** A launch that was delivered and is no longer waiting. */
  predicate Gone(s: State, mint: Pubkey) {
    mint in s.seen && mint !in s.pending
  }

  predicate Tidy(s: State) {
    forall m :: m in s.pending ==> m in s.seen && s.pending[m].info.mint == m
  }

  /** From `s`, whose launches are `Tidy`, to `t`: delivered stays delivered, gone stays gone. */
  ghost predicate Onward(s: State, t: State) {
    Tidy(t) && s.seen <= t.seen && forall m :: Gone(s, m) ==> Gone(t, m)
  }

  lemma SealLaunches(s: State, slot: nat)
    requires Tidy(s)
    ensures Onward(s, Sealed(s, slot)) && Sealed(s, slot).seen == s.seen
  {
    hide Sealed;
    SealedMarks(s, slot);
  }

  lemma AdmitLaunches(cfg: Config, s: State, info: Create, slot: nat, day: nat, allowed: bool)
    requires Tidy(s) && |s.seen + {info.mint}| <= SEEN_LIMIT && info.mint !in s.seen
    ensures var (t, effect) := Admit(cfg, s, info, slot, day, allowed);
            && Onward(s, t)
            && (effect != Nothing ==> effect.info == info && info.mint in t.seen)
            && (Fires(effect) ==> Gone(t, info.mint))
  {
    hide Admit;
    AdmitShape(cfg, s, info, slot, day, allowed);
  }

  lemma AdmitShape(cfg: Config, s: State, info: Create, slot: nat, day: nat, allowed: bool)
    requires |s.seen + {info.mint}| <= SEEN_LIMIT
    ensures var (t, effect) := Admit(cfg, s, info, slot, day, allowed);
            && t.seen == s.seen + {info.mint}
            && (effect == Nothing || (effect.info == info && (effect.Registered? || effect.FiredOnCreate?)))
            && (forall m :: m in t.pending ==>
                  if m == info.mint && effect.Registered? then t.pending[m].info == info else m in s.pending && t.pending[m] == s.pending[m])
  {
    hide Selected, Fresh, Opened, FireOnCreate, Retain;
    RetainKeeps(s.pending, slot);
  }

  lemma RetainKeeps(pending: map<Pubkey, Pending>, oldest: int)
    ensures forall m :: m in Retain(pending, oldest) ==> m in pending && Retain(pending, oldest)[m] == pending[m]
  {
  }

  lemma CountLaunches(cfg: Config, s: State, tx: BuyTx, allowed: bool)
    requires Tidy(s) && tx.mint in s.pending
    ensures var (t, effect) := Count(cfg, s, tx, allowed);
            && Onward(s, t) && !Accepts(effect)
            && (effect != Nothing ==> effect.info.mint == tx.mint && Gone(t, tx.mint))
  {
    hide Watch.Step;
  }

  lemma StepLaunches(cfg: Config, s: State, e: Event)
    requires Tidy(s) && (e.CreateSeen? ==> |s.seen + {e.info.mint}| <= SEEN_LIMIT)
    ensures var (t, effect) := Next(cfg, s, e);
            && Onward(s, t)
            && (effect != Nothing ==> !Gone(s, effect.info.mint) && effect.info.mint in t.seen)
            && (Accepts(effect) ==> effect.info.mint !in s.seen)
            && (Fires(effect) ==> Gone(t, effect.info.mint))
  {
    hide Sealed, Admit, Count, Tidy;
    SealLaunches(s, e.slot);
    var sealed := Sealed(s, e.slot);
    match e {
      case CreateSeen(info, slot, day, allowed) =>
        if info.mint !in sealed.seen {
          AdmitLaunches(cfg, sealed, info, slot, day, allowed);
        }
      case BuySeen(tx, slot, allowed) =>
        if Awaited(sealed, tx, slot) && tx.sig8 !in sealed.seenBuys {
          CountLaunches(cfg, sealed, tx, allowed);
        }
    }
  }

  lemma {:induction false} LaunchesStay(cfg: Config, day0: nat, events: seq<Event>, i: nat, k: nat)
    requires i <= k <= |events| && |Mints(events)| <= SEEN_LIMIT
    ensures Tidy(After(cfg, day0, events[..k]))
    ensures After(cfg, day0, events[..i]).seen <= After(cfg, day0, events[..k]).seen
    ensures forall m :: Gone(After(cfg, day0, events[..i]), m) ==> Gone(After(cfg, day0, events[..k]), m)
    decreases k, i
  {
    hide Next, Mints;
    if k == 0 {
      assert events[..k] == [];
    } else if i == k {
      LaunchesStay(cfg, day0, events, i - 1, k);
    } else {
      hide After;
      LaunchesStay(cfg, day0, events, i, k - 1);
      Limits(cfg, day0, events, k - 1);
      AfterStep(cfg, day0, events, k - 1);
      StepLaunches(cfg, After(cfg, day0, events[..k - 1]), events[k - 1]);
    }
  }

  /** Until 50,000 launches were delivered, each is accepted at most once and fires at most once. */
  lemma EachLaunchFiresOnce(cfg: Config, day0: nat, events: seq<Event>, i: nat, k: nat)
    requires |Mints(events)| <= SEEN_LIMIT && i < |events| && k < |events|
    requires EffectAt(cfg, day0, events, i) != Nothing && EffectAt(cfg, day0, events, k) != Nothing
    requires EffectAt(cfg, day0, events, i).info.mint == EffectAt(cfg, day0, events, k).info.mint
    ensures Fires(EffectAt(cfg, day0, events, i)) && Fires(EffectAt(cfg, day0, events, k)) ==> i == k
    ensures Accepts(EffectAt(cfg, day0, events, i)) && Accepts(EffectAt(cfg, day0, events, k)) ==> i == k
  {
    FiresThenGone(cfg, day0, events, i, k);
    FiresThenGone(cfg, day0, events, k, i);
  }

  lemma FiresThenGone(cfg: Config, day0: nat, events: seq<Event>, i: nat, k: nat)
    requires |Mints(events)| <= SEEN_LIMIT && i < |events| && k < |events|
    requires EffectAt(cfg, day0, events, i) != Nothing && EffectAt(cfg, day0, events, k) != Nothing
    requires EffectAt(cfg, day0, events, i).info.mint == EffectAt(cfg, day0, events, k).info.mint
    ensures i < k ==> !Fires(EffectAt(cfg, day0, events, i)) && !Accepts(EffectAt(cfg, day0, events, k))
  {
    hide Next, After, Mints, Tidy;
    if i < k {
      LaunchesStay(cfg, day0, events, i + 1, k);
      LaunchesStay(cfg, day0, events, i, i);
      AfterStep(cfg, day0, events, i);
      Limits(cfg, day0, events, i);
      Limits(cfg, day0, events, k);
      StepLaunches(cfg, After(cfg, day0, events[..i]), events[i]);
      StepLaunches(cfg, After(cfg, day0, events[..k]), events[k]);
    }
  }

  // ---------------------------------------------------------------- a fire rests on distinct buys

  /** The buys that a run counted towards a launch, in order. */
  function Counted(cfg: Config, day0: nat, events: seq<Event>, mint: Pubkey): (counted: seq<Event>)
    ensures forall e :: e in counted ==> e.BuySeen? && e.tx.mint == mint
  {
    if events == [] then []
    else
      var front, e := events[..|events| - 1], events[|events| - 1];
      var before := Counted(cfg, day0, front, mint);
      if CountsNow(After(cfg, day0, front), e, mint) then before + [e] else before
  }

  predicate CountsNow(s: State, e: Event, mint: Pubkey) {
    && e.BuySeen? && e.tx.mint == mint
    && Awaited(Sealed(s, e.slot), e.tx, e.slot) && e.tx.sig8 !in Sealed(s, e.slot).seenBuys
  }

  function BuysOf(counted: seq<Event>): seq<Buy>
    requires forall e :: e in counted ==> e.BuySeen?
  {
    if counted == [] then [] else BuysOf(counted[..|counted| - 1]) + [counted[|counted| - 1].tx.buy]
  }

  predicate DistinctSigs(counted: seq<Event>)
    requires forall e :: e in counted ==> e.BuySeen?
  {
    forall a, b :: 0 <= a < b < |counted| ==> counted[a].tx.sig8 != counted[b].tx.sig8
  }

  predicate Delivered(events: seq<Event>, info: Create, slot: nat) {
    exists e :: e in events && e.CreateSeen? && e.info == info && e.slot == slot
  }

  /** The buys counted for `mint` in a state: all marked and distinct. */
  predicate Tally(s: State, mint: Pubkey, counted: seq<Event>) {
    && (forall e :: e in counted ==> e.BuySeen? && e.tx.mint == mint && e.tx.sig8 in s.seenBuys)
    && DistinctSigs(counted)
    && (mint !in s.seen ==> counted == [])
  }

  /** A waiting launch is exactly what its counted buys make of it. */
  predicate Ledger(cfg: Config, s: State, mint: Pubkey, counted: seq<Event>, events: seq<Event>) {
    && Tally(s, mint, counted)
    && (mint in s.pending ==>
          var p := s.pending[mint];
          && p.watch == Watched(p.info.devBuy, cfg.table, BuysOf(counted), cfg.params).0
          && (forall e :: e in counted ==> e.slot == p.slot)
          && Delivered(events, p.info, p.slot))
  }

  lemma TallyStep(cfg: Config, s: State, e: Event, mint: Pubkey, counted: seq<Event>)
    requires Tally(s, mint, counted) && Tidy(s)
    requires |s.seenBuys| <= BUYS_LIMIT && (e.CreateSeen? ==> |s.seen + {e.info.mint}| <= SEEN_LIMIT)
    ensures Tally(Next(cfg, s, e).0, mint, if CountsNow(s, e, mint) then counted + [e] else counted)
  {
    hide Admit, Sealed, Watch.Step;
    StepMarks(cfg, s, e);
    SealedMarks(s, e.slot);
    StepLaunches(cfg, s, e);
  }

  /** What a step does to the launch waiting under `mint`. */
  lemma PendingStep(cfg: Config, s: State, e: Event, mint: Pubkey)
    ensures var t := Next(cfg, s, e).0;
            mint in t.pending ==>
              || (!CountsNow(s, e, mint) && mint in s.pending && t.pending[mint] == s.pending[mint])
              || (e.CreateSeen? && mint !in s.seen && t.pending[mint] == Pending(e.info, e.slot, Opened(e.info.devBuy)))
              || (CountsNow(s, e, mint) && mint in s.pending && e.slot == s.pending[mint].slot
                  && t.pending[mint] == s.pending[mint].(watch := Watch.Step(s.pending[mint].watch, cfg.table, e.tx.buy, cfg.params).0))
  {
    hide Sealed, Watch.Step, Opened, Fresh, Selected, Remember;
    SealedMarks(s, e.slot);
  }

  lemma WatchedOneMore(cfg: Config, devBuy: U64, counted: seq<Event>, e: Event)
    requires e.BuySeen? && forall c :: c in counted ==> c.BuySeen?
    ensures var w := Watched(devBuy, cfg.table, BuysOf(counted), cfg.params);
            var step := Watch.Step(w.0, cfg.table, e.tx.buy, cfg.params);
            Watched(devBuy, cfg.table, BuysOf(counted + [e]), cfg.params) == (step.0, w.1 + [step.1])
  {
    hide Watch.Step;
    assert (counted + [e])[..|counted|] == counted;
    var buys := BuysOf(counted);
    assert (buys + [e.tx.buy])[..|buys|] == buys;
  }

  lemma {:induction false} LedgersOfRuns(cfg: Config, day0: nat, events: seq<Event>, mint: Pubkey)
    requires Bounded(events)
    ensures Ledger(cfg, After(cfg, day0, events), mint, Counted(cfg, day0, events, mint), events)
    ensures Tidy(After(cfg, day0, events))
  {
    hide Next, Watched, Mints, Sigs, CountsNow, Bounded;
    if events != [] {
      var n := |events| - 1;
      var front, e := events[..n], events[n];
      var s, t, counted := After(cfg, day0, front), After(cfg, day0, events), Counted(cfg, day0, front, mint);
      BoundedFront(events, n);
      BoundedMints(events);
      LedgersOfRuns(cfg, day0, front, mint);
      Limits(cfg, day0, events, n);
      StepLaunches(cfg, s, e);
      TallyStep(cfg, s, e, mint, counted);
      LedgerStep(cfg, s, e, mint, counted, front);
      assert front + [e] == events;
    }
  }

  lemma LedgerStep(cfg: Config, s: State, e: Event, mint: Pubkey, counted: seq<Event>, events: seq<Event>)
    requires Ledger(cfg, s, mint, counted, events)
    requires Tally(Next(cfg, s, e).0, mint, if CountsNow(s, e, mint) then counted + [e] else counted)
    ensures Ledger(cfg, Next(cfg, s, e).0, mint, if CountsNow(s, e, mint) then counted + [e] else counted, events + [e])
  {
    hide Next, Watched, Tally, Watch.Step;
    var t := Next(cfg, s, e).0;
    PendingStep(cfg, s, e, mint);
    assert Tally(s, mint, counted) ==> forall c :: c in counted ==> c.BuySeen? by { TallyBuys(s, mint, counted); }
    if mint in t.pending && CountsNow(s, e, mint) {
      WatchedOneMore(cfg, s.pending[mint].info.devBuy, counted, e);
    }
    if mint in t.pending && e.CreateSeen? {
      OpenedIsWatched(cfg, e.info.devBuy);
      assert mint !in s.seen ==> counted == [] by { TallyBuys(s, mint, counted); }
    }
    DeliveredMore(events, e, t.pending, mint);
  }

  lemma DeliveredMore(events: seq<Event>, e: Event, pending: map<Pubkey, Pending>, mint: Pubkey)
    ensures mint in pending ==>
              var p := pending[mint];
              && (Delivered(events, p.info, p.slot) ==> Delivered(events + [e], p.info, p.slot))
              && (e.CreateSeen? && e.info == p.info && e.slot == p.slot ==> Delivered(events + [e], p.info, p.slot))
  {
    assert e in events + [e];
  }

  lemma OpenedIsWatched(cfg: Config, devBuy: U64)
    ensures Watched(devBuy, cfg.table, BuysOf([]), cfg.params).0 == Opened(devBuy)
  {
  }

  lemma TallyBuys(s: State, mint: Pubkey, counted: seq<Event>)
    ensures Tally(s, mint, counted) ==> (forall c :: c in counted ==> c.BuySeen?) && (mint !in s.seen ==> counted == [])
  {
  }

  lemma FireOnBuyStep(cfg: Config, s: State, e: Event)
    requires Tidy(s) && Next(cfg, s, e).1.FiredOnBuy?
    ensures var effect := Next(cfg, s, e).1;
            && CountsNow(s, e, e.tx.mint) && e.tx.mint in s.pending && effect.info.mint == e.tx.mint
            && effect.info == s.pending[e.tx.mint].info && e.slot == s.pending[e.tx.mint].slot
            && effect.fire == Watch.Step(s.pending[e.tx.mint].watch, cfg.table, e.tx.buy, cfg.params).1
            && effect.fire.Fired?
            && effect.plan == PlanFor(cfg.pricing, effect.fire.priorFlow, effect.fire.budget)
  {
    hide Sealed, Watch.Step, PlanFor;
    SealedMarks(s, e.slot);
  }

  /**
   A launch fired by a buy was created in that buy's slot, and the fire is the watcher's answer to
   distinct buys of the launch in that very slot: no redelivery ever counts twice.
   */
  lemma FireRestsOnDistinctBuys(cfg: Config, day0: nat, events: seq<Event>, k: nat)
    requires Bounded(events) && k < |events| && EffectAt(cfg, day0, events, k).FiredOnBuy?
    ensures var effect, upTo := EffectAt(cfg, day0, events, k), events[..k + 1];
            var counted := Counted(cfg, day0, upTo, effect.info.mint);
            && Delivered(events[..k], effect.info, events[k].slot)
            && (forall e :: e in counted ==> e.BuySeen? && e in upTo && e.tx.mint == effect.info.mint && e.slot == events[k].slot)
            && DistinctSigs(counted)
            && counted != []
            && (effect.fire.Fired? ==> effect.plan == PlanFor(cfg.pricing, effect.fire.priorFlow, effect.fire.budget))
            && var answers := Watched(effect.info.devBuy, cfg.table, BuysOf(counted), cfg.params).1;
               |answers| == |counted| == |BuysOf(counted)| && answers[|counted| - 1] == effect.fire && effect.fire.Fired?
  {
    hide PlanFor, Next, After, Watched, Mints, Sigs, CountsNow, Bounded, Watch.Step;
    var s, e, upTo := After(cfg, day0, events[..k]), events[k], events[..k + 1];
    var effect := EffectAt(cfg, day0, events, k);
    BoundedFront(events, k);
    LedgersOfRuns(cfg, day0, events[..k], e.tx.mint) by { FireOnBuyStepIsBuy(cfg, s, e); }
    FireOnBuyStep(cfg, s, e);
    var before := Counted(cfg, day0, events[..k], e.tx.mint);
    assert upTo[..k] == events[..k];
    assert Counted(cfg, day0, upTo, e.tx.mint) == before + [e];
    BoundedFront(events, k + 1);
    BoundedMints(events);
    Limits(cfg, day0, events, k);
    TallyStep(cfg, s, e, e.tx.mint, before);
    CountedWereDelivered(cfg, day0, upTo, e.tx.mint);
    WatchedOneMore(cfg, effect.info.devBuy, before, e);
    OneAnswerEach(effect.info.devBuy, cfg.table, BuysOf(before), cfg.params);
    OneBuyEach(before + [e]);
    OneBuyEach(before);
  }

  lemma FireOnBuyStepIsBuy(cfg: Config, s: State, e: Event)
    ensures Next(cfg, s, e).1.FiredOnBuy? ==> e.BuySeen?
  {
    hide Sealed, Watch.Step;
  }

  lemma {:induction false} OneBuyEach(counted: seq<Event>)
    requires forall e :: e in counted ==> e.BuySeen?
    ensures |BuysOf(counted)| == |counted|
  {
    if counted != [] {
      OneBuyEach(counted[..|counted| - 1]);
    }
  }

  lemma {:induction false} CountedWereDelivered(cfg: Config, day0: nat, events: seq<Event>, mint: Pubkey)
    ensures forall e :: e in Counted(cfg, day0, events, mint) ==> e in events
  {
    hide After, CountsNow;
    if events != [] {
      CountedWereDelivered(cfg, day0, events[..|events| - 1], mint);
    }
  }

  /** A main-book fire has the required number of distinct confirming buys, and their sum, behind it. */
  lemma MainFireIsConfirmed(cfg: Config, day0: nat, events: seq<Event>, k: nat)
    requires Bounded(events) && k < |events| && EffectAt(cfg, day0, events, k).FiredOnBuy?
    requires EffectAt(cfg, day0, events, k).fire.Fired? && EffectAt(cfg, day0, events, k).fire.book == Main
    requires cfg.params.sizeLo <= cfg.params.sizeHi
    ensures var effect := EffectAt(cfg, day0, events, k);
            var counted := Counted(cfg, day0, events[..k + 1], effect.info.mint);
            && (forall e :: e in counted ==> e.BuySeen? && e.tx.buy.buyer !in cfg.table && e.slot == events[k].slot)
            && DistinctSigs(counted)
            && cfg.params.nConf <= |counted|
            && var inflow := Inflow(effect.info.devBuy, BuysOf(counted), cfg.params);
               && cfg.params.minConf <= inflow <= Pledged(BuysOf(counted), cfg.params)
               && effect.fire.priorFlow == NetOfFee(effect.info.devBuy) + inflow
               && cfg.params.sizeLo <= effect.fire.budget <= cfg.params.sizeHi
               && effect.plan == PlanFor(cfg.pricing, NetOfFee(effect.info.devBuy) + inflow, effect.fire.budget)
  {
    hide PlanFor, Next, After, Watched, Mints, Sigs, CountsNow, Bounded, Inflow, Pledged, NetOfFee;
    FireRestsOnDistinctBuys(cfg, day0, events, k);
    var effect := EffectAt(cfg, day0, events, k);
    var counted := Counted(cfg, day0, events[..k + 1], effect.info.mint);
    var buys := BuysOf(counted);
    MainFireIsEarned(effect.info.devBuy, cfg.table, buys, cfg.params, |buys| - 1);
    assert buys[..|buys|] == buys;
    forall e | e in counted ensures e.tx.buy.buyer !in cfg.table {
      var a :| 0 <= a < |counted| && counted[a] == e;
      BuysInOrder(counted, a);
      assert ActionOf(cfg.table, buys[a]) == None;
    }
  }

  /**
   What a main-book fire sends asks, at the depth of all the flow counted ahead of it, for no more tokens than
   its budget pays for with fees, and the budget is within the size bounds.
   */
  lemma MainFirePaysWithinBounds(cfg: Config, day0: nat, events: seq<Event>, k: nat, x: nat)
    requires Bounded(events) && k < |events| && EffectAt(cfg, day0, events, k).FiredOnBuy?
    requires EffectAt(cfg, day0, events, k).fire.Fired? && EffectAt(cfg, day0, events, k).fire.book == Main
    requires cfg.params.sizeLo <= cfg.params.sizeHi && !cfg.pricing.exactSolIn
    requires var effect := EffectAt(cfg, day0, events, k);
             Curve.LeastInflow(cfg.pricing.curve, effect.fire.priorFlow, effect.plan.amount, x)
    ensures Curve.WithFee(cfg.pricing.curve, x) <= cfg.params.sizeHi
  {
    hide EffectAt, Curve.LeastInflow, Curve.WithFee, Curve.PlanBuy, Counted, Inflow, Pledged, NetOfFee;
    var effect := EffectAt(cfg, day0, events, k);
    MainFireIsConfirmed(cfg, day0, events, k);
    Curve.PlanBuyFitsBudget(cfg.pricing.curve, effect.fire.priorFlow, effect.fire.budget,
                            cfg.pricing.haircutBps, cfg.pricing.slippageBps, x);
  }

  lemma {:induction false} BuysInOrder(counted: seq<Event>, a: nat)
    requires (forall e :: e in counted ==> e.BuySeen?) && a < |counted|
    ensures |BuysOf(counted)| == |counted| && BuysOf(counted)[a] == counted[a].tx.buy
  {
    OneBuyEach(counted);
    OneBuyEach(counted[..|counted| - 1]);
    if a < |counted| - 1 {
      BuysInOrder(counted[..|counted| - 1], a);
    }
  }

  /** A followed buyer in the create's slot fires a selected launch exactly when the depth reached stays below the cap. */
  lemma FollowedBuyFires(cfg: Config, day0: nat, info: Create, tx: BuyTx, slot: nat, allowed: bool)
    requires cfg.devs.Some? && info.creator !in cfg.devs.value && Selected(cfg, info) && !cfg.fireOnCreate
    requires tx.mint == info.mint && Followed(cfg.table, tx.buy)
    ensures EffectAt(cfg, day0, [CreateSeen(info, slot, day0, allowed), BuySeen(tx, slot, allowed)], 1).FiredOnBuy?
       <==> Depth(info.devBuy, NetOf(Depth(info.devBuy, 0), tx.buy, cfg.params)) < cfg.params.vqCap
  {
    var create, buy := CreateSeen(info, slot, day0, allowed), BuySeen(tx, slot, allowed);
    var events := [create, buy];
    assert events[..1] == [create] && [create][..0] == [];
    hide Watch.Step, Opened, Selected;
    FirstCreateWaits(cfg, day0, info, slot, allowed);
    AfterStep(cfg, day0, events, 0);
    NoEvents(cfg, day0);
    hide After, NetOf;
    FirstFollowedBuy(cfg, info.devBuy, tx.buy);
  }

  lemma FirstCreateWaits(cfg: Config, day0: nat, info: Create, slot: nat, allowed: bool)
    requires cfg.devs.Some? && info.creator !in cfg.devs.value && Selected(cfg, info) && !cfg.fireOnCreate
    ensures Next(cfg, Start(day0), CreateSeen(info, slot, day0, allowed)).0
         == State({info.mint}, map[info.mint := Pending(info, slot, Opened(info.devBuy))], slot, {}, {info.creator}, day0)
  {
    hide Selected, Opened;
  }

  lemma FirstFollowedBuy(cfg: Config, devBuy: U64, buy: Buy)
    requires Followed(cfg.table, buy)
    ensures var out := Watch.Step(Opened(devBuy), cfg.table, buy, cfg.params).1;
            && out != Passed(Watching)
            && (out.Fired? <==> Depth(devBuy, NetOf(Depth(devBuy, 0), buy, cfg.params)) < cfg.params.vqCap)
  {
    hide NetOf, NetOfFee;
  }

  // ---------------------------------------------------------------- what a fire is priced at

  /**
   A plan is priced right for so much flow and such a budget. An exact-sol buy puts the whole budget in and
   asks for the best buy less the slippage; a classic buy asks for the best buy less the haircut and caps the
   spend at the budget plus the slippage.
   */
  ghost predicate Priced(pricing: Pricing, flow: nat, budget: nat, plan: Curve.BuyPlan) {
    var c := pricing.curve;
    && plan.budget == budget && plan.priorFlow == flow
    && if pricing.exactSolIn then
         && plan.amount == budget && Curve.BestBuy(c, flow, budget, plan.expectedTokens)
         && Curve.Shaved(plan.maxSolCost, plan.expectedTokens, pricing.slippageBps)
       else
         && (exists tokens :: Curve.BestBuy(c, flow, budget, tokens) && Curve.Shaved(plan.amount, tokens, pricing.haircutBps))
         && (budget * (10_000 + pricing.slippageBps) < 10_000 * U64_SPAN ==>
               10_000 * plan.maxSolCost <= budget * (10_000 + pricing.slippageBps) < 10_000 * (plan.maxSolCost + 1))
         && (forall x :: Curve.LeastInflow(c, flow, plan.amount, x) ==> Curve.WithFee(c, x) <= budget)
  }

  lemma PlansArePriced(pricing: Pricing, flow: nat, budget: U64)
    requires pricing.curve.realToken <= U64_MAX
    ensures Priced(pricing, flow, budget, PlanFor(pricing, flow, budget))
  {
    hide Curve.PlanBuy, Curve.PlanExactSolIn, Curve.BestBuy, Curve.Shaved, Curve.LeastInflow, Curve.WithFee;
    if pricing.exactSolIn {
      Curve.PlanExactSolInIsExact(pricing.curve, flow, budget, pricing.slippageBps);
    } else {
      Curve.PlanBuyIsExact(pricing.curve, flow, budget, pricing.haircutBps, pricing.slippageBps);
      forall x | Curve.LeastInflow(pricing.curve, flow, PlanFor(pricing, flow, budget).amount, x)
        ensures Curve.WithFee(pricing.curve, x) <= budget
      {
        Curve.PlanBuyFitsBudget(pricing.curve, flow, budget, pricing.haircutBps, pricing.slippageBps, x);
      }
    }
  }

  lemma CreateFireStep(cfg: Config, s: State, e: Event)
    requires Next(cfg, s, e).1.FiredOnCreate?
    ensures e.CreateSeen? && Next(cfg, s, e).1.info == e.info
    ensures Next(cfg, s, e).1.plan == PlanFor(cfg.pricing, e.info.devBuy, cfg.pricing.buyLamports)
    ensures Next(cfg, s, e).1.sent <==> e.allowed && Next(cfg, s, e).1.plan.amount > 0
  {
    hide Sealed, Watch.Step, Selected, Fresh, PlanFor, Retain, Remember;
  }

  /** Firing on the create spends the configured amount behind the developer's buy, and is sent when allowed and not empty. */
  lemma CreateFireIsPriced(cfg: Config, day0: nat, events: seq<Event>, k: nat)
    requires k < |events| && EffectAt(cfg, day0, events, k).FiredOnCreate? && cfg.pricing.curve.realToken <= U64_MAX
    ensures events[k].CreateSeen?
    ensures var effect := EffectAt(cfg, day0, events, k);
            && effect.info == events[k].info
            && Priced(cfg.pricing, events[k].info.devBuy, cfg.pricing.buyLamports, effect.plan)
            && (effect.sent <==> events[k].allowed && effect.plan.amount > 0)
  {
    hide Next, After, PlanFor, Priced;
    CreateFireStep(cfg, After(cfg, day0, events[..k]), events[k]);
    PlansArePriced(cfg.pricing, events[k].info.devBuy, cfg.pricing.buyLamports);
  }

  lemma BuyFireStep(cfg: Config, s: State, e: Event)
    requires Next(cfg, s, e).1.FiredOnBuy?
    ensures e.BuySeen? && Next(cfg, s, e).1.fire.Fired? && Next(cfg, s, e).1.fire.budget <= U64_MAX
    ensures var effect := Next(cfg, s, e).1; effect.plan == PlanFor(cfg.pricing, effect.fire.priorFlow, effect.fire.budget)
    ensures Next(cfg, s, e).1.sent <==> e.allowed && Next(cfg, s, e).1.plan.amount > 0
  {
    hide Sealed, PlanFor, NetOf, MainBudget;
    if e.BuySeen? && e.tx.mint in Sealed(s, e.slot).pending {
      FiredBudgetFits(Sealed(s, e.slot).pending[e.tx.mint].watch, cfg, e.tx.buy);
    }
  }

  lemma FiredBudgetFits(w: Launch, cfg: Config, buy: Buy)
    ensures var out := Watch.Step(w, cfg.table, buy, cfg.params).1; out.Fired? ==> out.budget <= U64_MAX
  {
    hide NetOf;
  }

  /** Firing on a buy spends the watcher's budget behind all the flow it counted, and is sent when allowed and not empty. */
  lemma BuyFireIsPriced(cfg: Config, day0: nat, events: seq<Event>, k: nat)
    requires k < |events| && EffectAt(cfg, day0, events, k).FiredOnBuy? && cfg.pricing.curve.realToken <= U64_MAX
    ensures events[k].BuySeen?
    ensures var effect := EffectAt(cfg, day0, events, k);
            && effect.fire.Fired?
            && Priced(cfg.pricing, effect.fire.priorFlow, effect.fire.budget, effect.plan)
            && (effect.sent <==> events[k].allowed && effect.plan.amount > 0)
  {
    hide Next, After, PlanFor, Priced;
    BuyFireStep(cfg, After(cfg, day0, events[..k]), events[k]);
    var fire := EffectAt(cfg, day0, events, k).fire;
    PlansArePriced(cfg.pricing, fire.priorFlow, fire.budget);
  }

  // ---------------------------------------------------------------- the end of the grace

  /** Moving on to a later slot leaves no launch waiting from two or more slots back. */
  lemma GraceEnds(cfg: Config, s: State, e: Event, mint: Pubkey)
    requires e.slot > s.curSlot && mint in Next(cfg, s, e).0.pending
    ensures Next(cfg, s, e).0.pending[mint].slot + 1 >= e.slot
  {
    hide Sealed, Admit, Count;
    var sealed := Sealed(s, e.slot);
    SealedRetains(s, e.slot);
    match e {
      case CreateSeen(info, slot, day, allowed) => AdmitKeepsSlots(cfg, sealed, info, slot, day, allowed, mint);
      case BuySeen(tx, slot, allowed) =>
        if tx.mint in sealed.pending {
          CountKeepsSlots(cfg, sealed, tx, allowed, mint);
        }
    }
  }

  lemma SealedRetains(s: State, slot: nat)
    ensures slot > s.curSlot ==> forall m :: m in Sealed(s, slot).pending ==> Sealed(s, slot).pending[m].slot + 1 >= slot
  {
  }

  lemma AdmitKeepsSlots(cfg: Config, s: State, info: Create, slot: nat, day: nat, allowed: bool, mint: Pubkey)
    ensures var t := Admit(cfg, s, info, slot, day, allowed).0;
            mint in t.pending ==> t.pending[mint].slot == slot || (mint in s.pending && t.pending[mint] == s.pending[mint])
  {
    hide Selected, Fresh, Remember, Opened, FireOnCreate, Retain;
    RetainKeeps(s.pending, slot);
  }

  lemma CountKeepsSlots(cfg: Config, s: State, tx: BuyTx, allowed: bool, mint: Pubkey)
    requires tx.mint in s.pending
    ensures var t := Count(cfg, s, tx, allowed).0;
            mint in t.pending ==> mint in s.pending && t.pending[mint].slot == s.pending[mint].slot
  {
    hide Watch.Step, FireOnBuy;
  }

  // ---------------------------------------------------------------- bounded memory

  /** The launches remembered never exceed 50,000, and moving on to a later slot leaves at most 4,097 buys marked. */
  lemma {:induction false} MemoryIsBounded(cfg: Config, day0: nat, events: seq<Event>)
    ensures |After(cfg, day0, events).seen| <= 50_000
    ensures (events != [] && events[|events| - 1].slot > After(cfg, day0, events[..|events| - 1]).curSlot) ==>
              |After(cfg, day0, events).seenBuys| <= 4097
  {
    hide Next;
    if events != [] {
      MemoryIsBounded(cfg, day0, events[..|events| - 1]);
      StepMemory(cfg, After(cfg, day0, events[..|events| - 1]), events[|events| - 1]);
    }
  }

  lemma StepMemory(cfg: Config, s: State, e: Event)
    ensures |s.seen| <= 50_000 ==> |Next(cfg, s, e).0.seen| <= 50_000
    ensures e.slot > s.curSlot ==> |Next(cfg, s, e).0.seenBuys| <= 4097
  {
    hide Watch.Step, Selected, Fresh, Retain, Opened, FireOnCreate, FireOnBuy;
    StepMarks(cfg, s, e);
    if e.BuySeen? {
      SubsetSize(Next(cfg, s, e).0.seenBuys, Sealed(s, e.slot).seenBuys + {e.tx.sig8});
    }
  }

  /** Registering a launch keeps all others, except that past 4,096 those of older slots go. */
  lemma RegistrationThins(cfg: Config, s: State, e: Event, mint: Pubkey)
    requires Next(cfg, s, e).1.Registered? && e.CreateSeen? && mint != e.info.mint
    ensures var sealed, t := Sealed(s, e.slot), Next(cfg, s, e).0;
            && (mint in t.pending <==> mint in sealed.pending && (|sealed.pending| <= 4096 || sealed.pending[mint].slot >= e.slot))
            && (mint in t.pending ==> t.pending[mint] == sealed.pending[mint])
  {
    hide Sealed, Watch.Step, Selected, Fresh, Opened, FireOnCreate, Remember;
  }
}
