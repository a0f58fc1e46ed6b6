/** What the confirm-mode protocol accepts and counts, read off the events alone. */
module History {
  import opened Prelude
  import opened Watch
  import opened Sniper

  // ---------------------------------------------------------------- which launches are accepted

  predicate FirstDelivery(events: seq<Event>, i: nat)
    requires i < |events|
  {
    events[i].CreateSeen? && events[i].info.mint !in Mints(events[..i])
  }

  lemma FirstIsCreate(events: seq<Event>, i: nat)
    requires i < |events|
    ensures FirstDelivery(events, i) ==> events[i].CreateSeen?
  {
  }

  /** Before `k`, the creator had a launch delivered on that day, and no other day was read since. */
  predicate UsedUp(events: seq<Event>, k: nat, creator: Pubkey, day: nat)
    requires k <= |events|
  {
    exists i :: 0 <= i < k && UsedBy(events, i, k, creator, day)
  }

  predicate UsedBy(events: seq<Event>, i: nat, k: nat, creator: Pubkey, day: nat)
    requires i < k <= |events|
  {
    FirstDelivery(events, i) && events[i].info.creator == creator && SameDaySince(events, i, k, day)
  }

  /** The first deliveries from `i` to `k` were all on that day. */
  predicate SameDaySince(events: seq<Event>, i: nat, k: nat, day: nat)
    requires k <= |events|
  {
    forall j :: i <= j < k && FirstDelivery(events, j) ==> events[j].day == day
  }

  lemma UsedByNext(events: seq<Event>, i: nat, k: nat, creator: Pubkey, day: nat)
    requires i <= k < |events|
    ensures UsedBy(events, i, k + 1, creator, day)
       <==> if i == k then FirstDelivery(events, k) && events[k].info.creator == creator && events[k].day == day
            else UsedBy(events, i, k, creator, day) && (FirstDelivery(events, k) ==> events[k].day == day)
  {
  }

  lemma UsedUpNext(events: seq<Event>, k: nat, creator: Pubkey, day: nat)
    requires k < |events|
    ensures UsedUp(events, k + 1, creator, day)
       <==> if FirstDelivery(events, k) then events[k].day == day && (events[k].info.creator == creator || UsedUp(events, k, creator, day))
            else UsedUp(events, k, creator, day)
  {
    FirstIsCreate(events, k);
    hide UsedBy, FirstDelivery;
    var n := k + 1;
    forall i | 0 <= i < n
      ensures UsedBy(events, i, n, creator, day)
         <==> if i == k then FirstDelivery(events, k) && events[k].info.creator == creator && events[k].day == day
              else UsedBy(events, i, k, creator, day) && (FirstDelivery(events, k) ==> events[k].day == day)
    {
      UsedByNext(events, i, k, creator, day);
    }
    assert UsedBy(events, k, n, creator, day) <==> FirstDelivery(events, k) && events[k].info.creator == creator && events[k].day == day;
  }

  /** Where no day returns, that is any earlier launch of the creator on that day. */
  lemma UsedUpOnUnbrokenDays(events: seq<Event>, k: nat)
    requires NoDayReturns(Readings(events)) && k < |events| && events[k].CreateSeen?
    ensures UsedUp(events, k, events[k].info.creator, events[k].day)
       <==> exists i :: 0 <= i < k && FirstDelivery(events, i) && events[i].info.creator == events[k].info.creator && events[i].day == events[k].day
  {
    forall i | 0 <= i < k && FirstDelivery(events, i) && events[i].day == events[k].day
      ensures UsedBy(events, i, k, events[i].info.creator, events[k].day)
    {
      SameDayBetween(events, i, k);
    }
  }

  lemma StepSession(cfg: Config, s: State, e: Event)
    ensures var t := Next(cfg, s, e).0;
            if e.CreateSeen? && e.info.mint !in s.seen
            then t.day == e.day && t.seenDevs == (if e.day == s.day then s.seenDevs else {}) + {e.info.creator}
            else t.day == s.day && t.seenDevs == s.seenDevs
  {
    hide Sealed, Watch.Step, Selected, Retain, Opened, Remember;
    SealedMarks(s, e.slot);
  }

  /** The session's creators, from the events alone. */
  ghost predicate SessionIs(s: State, events: seq<Event>, k: nat)
    requires k <= |events|
  {
    && (forall c :: c in s.seenDevs <==> UsedUp(events, k, c, s.day))
    && (forall c, day :: UsedUp(events, k, c, day) ==> day == s.day)
  }

  lemma {:induction false} SessionOfRuns(cfg: Config, day0: nat, events: seq<Event>, k: nat)
    requires |Mints(events)| <= SEEN_LIMIT && k <= |events|
    ensures SessionIs(After(cfg, day0, events[..k]), events, k)
  {
    hide Next, Mints;
    if k > 0 {
      hide After;
      SessionOfRuns(cfg, day0, events, k - 1);
      var s, e := After(cfg, day0, events[..k - 1]), events[k - 1];
      AfterStep(cfg, day0, events, k - 1);
      Limits(cfg, day0, events, k - 1);
      StepSession(cfg, s, e);
      SessionStep(s, After(cfg, day0, events[..k]), events, k - 1);
    }
  }

  lemma SessionStep(s: State, t: State, events: seq<Event>, k: nat)
    requires k < |events| && SessionIs(s, events, k)
    requires if FirstDelivery(events, k)
             then t.day == events[k].day && t.seenDevs == (if t.day == s.day then s.seenDevs else {}) + {events[k].info.creator}
             else t.day == s.day && t.seenDevs == s.seenDevs
    ensures SessionIs(t, events, k + 1)
  {
    hide FirstDelivery, UsedUp;
    var n := k + 1;
    forall c, day | UsedUp(events, n, c, day) ensures day == t.day {
      UsedUpNext(events, k, c, day);
    }
    forall c ensures c in t.seenDevs <==> UsedUp(events, n, c, t.day) {
      UsedUpNext(events, k, c, t.day);
    }
  }

  /**
   The accepted launches, from the events alone and whatever the clock does: delivered for the first time,
   their creator's first since the day began, the creator unknown to the loaded history, and every selection
   gate passed.
   */
  lemma AcceptedExactly(cfg: Config, day0: nat, events: seq<Event>, k: nat)
    requires |Mints(events)| <= SEEN_LIMIT && k < |events|
    ensures Accepts(EffectAt(cfg, day0, events, k)) ==> (EffectAt(cfg, day0, events, k).FiredOnCreate? <==> cfg.fireOnCreate)
    ensures Accepts(EffectAt(cfg, day0, events, k)) <==>
              && FirstDelivery(events, k)
              && var info := events[k].info;
                 && !UsedUp(events, k, info.creator, events[k].day)
                 && cfg.devs.Some? && info.creator !in cfg.devs.value
                 && (cfg.maxRug < 1.0 ==>
                       if info.creator in cfg.rug then cfg.rug[info.creator] as real < cfg.maxRug * 1000.0 else cfg.maxRug > 0.0)
                 && cfg.minDevBuy <= info.devBuy && (cfg.maxDevBuy == 0 || info.devBuy < cfg.maxDevBuy)
                 && (cfg.skipMayhem ==> !info.mayhem)
                 && (cfg.requireBotlauncher ==> info.botlauncher) && (cfg.skipBotlauncher ==> !info.botlauncher)
  {
    hide Mints, After, UsedUp;
    var s, e := After(cfg, day0, events[..k]), events[k];
    SessionOfRuns(cfg, day0, events, k);
    Limits(cfg, day0, events, k);
    StepAccepts(cfg, s, e);
  }

  lemma StepAccepts(cfg: Config, s: State, e: Event)
    ensures Accepts(Next(cfg, s, e).1) ==> (Next(cfg, s, e).1.FiredOnCreate? <==> cfg.fireOnCreate)
    ensures Accepts(Next(cfg, s, e).1) <==>
              && e.CreateSeen? && e.info.mint !in s.seen
              && (e.day == s.day ==> e.info.creator !in s.seenDevs)
              && cfg.devs.Some? && e.info.creator !in cfg.devs.value
              && Selected(cfg, e.info)
  {
    hide Sealed, Watch.Step, Selected, Retain, Opened, Remember;
    SealedMarks(s, e.slot);
  }

  // ---------------------------------------------------------------- no launch is dropped and no buy missed too early

  /** A step of the launch's slot, the one after, or an earlier one leaves the launch waiting unless a buy settles it. */
  lemma StepKeepsWaiting(cfg: Config, s: State, e: Event, mint: Pubkey)
    requires mint in s.pending && e.slot <= s.pending[mint].slot + 1 && s.pending[mint].watch.done == false
    requires |s.pending| <= PENDING_LIMIT && mint in s.seen
    ensures var t, p := Next(cfg, s, e).0, s.pending[mint];
            if CountsNow(s, e, mint) && Watch.Step(p.watch, cfg.table, e.tx.buy, cfg.params).0.done then mint !in t.pending
            else mint in t.pending && t.pending[mint].info == p.info && t.pending[mint].slot == p.slot
  {
    hide Watch.Step, Fresh, Selected, Opened, Remember;
    SealKeeps(s, e.slot, mint);
    if e.BuySeen? {
      StepSettles(s.pending[mint].watch, cfg, e.tx.buy);
    }
  }

  lemma StepSettles(w: Launch, cfg: Config, buy: Buy)
    requires !w.done
    ensures var (next, out) := Watch.Step(w, cfg.table, buy, cfg.params);
            next.done <==> out != Passed(Watching)
  {
    hide NetOf, MainBudget;
  }

  lemma SealKeeps(s: State, slot: nat, mint: Pubkey)
    requires mint in s.pending && slot <= s.pending[mint].slot + 1
    ensures var t := Sealed(s, slot); mint in t.pending && t.pending[mint] == s.pending[mint] && |t.pending| <= |s.pending|
  {
    var t := Sealed(s, slot);
    assert t.pending.Keys <= s.pending.Keys;
    SubsetSize(t.pending.Keys, s.pending.Keys);
  }

  /** The buys counted towards a launch, as the watcher saw them. */
  function CountedBuys(cfg: Config, day0: nat, events: seq<Event>, mint: Pubkey): seq<Buy> {
    BuysOf(Counted(cfg, day0, events, mint))
  }

  lemma CountedBuysGrow(cfg: Config, day0: nat, events: seq<Event>, n: nat, mint: Pubkey)
    requires n < |events|
    ensures var before := CountedBuys(cfg, day0, events[..n], mint);
            CountedBuys(cfg, day0, events[..n + 1], mint)
            == if CountsNow(After(cfg, day0, events[..n]), events[n], mint) then before + [events[n].tx.buy] else before
  {
    hide After, Awaited, Sealed;
    assert events[..n + 1][..n] == events[..n];
    var before := Counted(cfg, day0, events[..n], mint);
    assert (before + [events[n]])[..|before|] == before;
  }

  /** The counted buys have settled the launch, one way or the other. */
  predicate SettledIn(cfg: Config, day0: nat, events: seq<Event>, info: Create) {
    Settled(info.devBuy, cfg.table, CountedBuys(cfg, day0, events, info.mint), cfg.params)
  }

  predicate Waits(s: State, info: Create, slot: nat) {
    info.mint in s.pending && s.pending[info.mint].info == info && s.pending[info.mint].slot == slot
  }

  lemma WaitingWatch(cfg: Config, day0: nat, events: seq<Event>, info: Create, slot: nat)
    requires Bounded(events) && Waits(After(cfg, day0, events), info, slot)
    ensures var w := After(cfg, day0, events).pending[info.mint].watch;
            && w == Watched(info.devBuy, cfg.table, CountedBuys(cfg, day0, events, info.mint), cfg.params).0
            && (w.done <==> SettledIn(cfg, day0, events, info))
  {
    hide After, Watched, Settled, Counted, Bounded;
    LedgersOfRuns(cfg, day0, events, info.mint);
    LedgerIsExact(info.devBuy, cfg.table, CountedBuys(cfg, day0, events, info.mint), cfg.params);
  }

  lemma PendingIsSmall(cfg: Config, day0: nat, events: seq<Event>, k: nat)
    requires k < |events| && |Mints(events)| <= PENDING_LIMIT
    ensures |After(cfg, day0, events[..k]).pending| <= PENDING_LIMIT && Tidy(After(cfg, day0, events[..k]))
  {
    hide After, Mints;
    Limits(cfg, day0, events, k);
    LaunchesStay(cfg, day0, events, k, k);
    BoundedFront(events, k);
    var s := After(cfg, day0, events[..k]);
    assert s.pending.Keys <= s.seen;
    SubsetSize(s.pending.Keys, s.seen);
    SubsetSize(Mints(events[..k]), Mints(events));
  }

  lemma RegisteredWaits(cfg: Config, s: State, e: Event)
    requires Next(cfg, s, e).1.Registered?
    ensures e.CreateSeen? && Next(cfg, s, e).1.info == e.info && Waits(Next(cfg, s, e).0, e.info, e.slot)
  {
    hide Sealed, Watch.Step, Selected, Fresh, Retain, Remember;
  }

  /** Within the launch's own slot and the next one: what happened since the create at `k`. */
  predicate InGrace(events: seq<Event>, k: nat, n: nat)
    requires k < n <= |events|
  {
    forall j :: k < j < n ==> events[j].slot <= events[k].slot + 1
  }

  lemma WaitsOneMore(cfg: Config, day0: nat, events: seq<Event>, n: nat, info: Create, slot: nat)
    requires Bounded(events) && |Mints(events)| <= PENDING_LIMIT && n < |events| && events[n].slot <= slot + 1
    requires Waits(After(cfg, day0, events[..n]), info, slot) && !SettledIn(cfg, day0, events[..n], info)
    ensures Waits(After(cfg, day0, events[..n + 1]), info, slot) || SettledIn(cfg, day0, events[..n + 1], info)
  {
    hide After, Next, Mints, Bounded, Watch.Step, Watched, Settled, CountsNow, Tidy;
    var s, e := After(cfg, day0, events[..n]), events[n];
    var buys := CountedBuys(cfg, day0, events[..n], info.mint);
    BoundedFront(events, n);
    WaitingWatch(cfg, day0, events[..n], info, slot);
    PendingIsSmall(cfg, day0, events, n);
    assert info.mint in s.seen by { TidyIsSeen(s, info.mint); }
    StepKeepsWaiting(cfg, s, e, info.mint);
    AfterStep(cfg, day0, events, n);
    CountedBuysGrow(cfg, day0, events, n, info.mint);
    if CountsNow(s, e, info.mint) {
      CountsIsBuy(s, e, info.mint);
      WatchedSnoc(cfg, info.devBuy, buys, e.tx.buy);
      LedgerIsExact(info.devBuy, cfg.table, buys + [e.tx.buy], cfg.params);
    }
  }

  lemma TidyIsSeen(s: State, mint: Pubkey)
    ensures Tidy(s) && mint in s.pending ==> mint in s.seen
  {
  }

  lemma CountsIsBuy(s: State, e: Event, mint: Pubkey)
    ensures CountsNow(s, e, mint) ==> e.BuySeen?
  {
  }

  lemma WatchedSnoc(cfg: Config, devBuy: U64, buys: seq<Buy>, buy: Buy)
    ensures Watched(devBuy, cfg.table, buys + [buy], cfg.params).0
         == Watch.Step(Watched(devBuy, cfg.table, buys, cfg.params).0, cfg.table, buy, cfg.params).0
  {
    hide Watch.Step;
    assert (buys + [buy])[..|buys|] == buys;
  }

  lemma StaysSettledIn(cfg: Config, day0: nat, events: seq<Event>, n: nat, info: Create)
    requires n < |events| && SettledIn(cfg, day0, events[..n], info)
    ensures SettledIn(cfg, day0, events[..n + 1], info)
  {
    hide After, Settled, CountsNow;
    var s, e := After(cfg, day0, events[..n]), events[n];
    var buys := CountedBuys(cfg, day0, events[..n], info.mint);
    CountedBuysGrow(cfg, day0, events, n, info.mint);
    if CountsNow(s, e, info.mint) {
      CountsIsBuy(s, e, info.mint);
      assert (buys + [e.tx.buy])[..|buys|] == buys;
      SettledExtends(info.devBuy, cfg.table, buys + [e.tx.buy], cfg.params);
    }
  }

  /** A registered launch keeps waiting through its own slot and the next, until counted buys settle it. */
  lemma {:induction false} LaunchWaitsThroughGrace(cfg: Config, day0: nat, events: seq<Event>, k: nat, n: nat)
    requires Bounded(events) && |Mints(events)| <= PENDING_LIMIT
    requires k < n <= |events| && EffectAt(cfg, day0, events, k).Registered? && InGrace(events, k, n)
    ensures events[k].CreateSeen?
    ensures Waits(After(cfg, day0, events[..n]), events[k].info, events[k].slot) || SettledIn(cfg, day0, events[..n], events[k].info)
    decreases n
  {
    hide After, Next, Mints, Bounded, SettledIn, Waits;
    AfterStep(cfg, day0, events, k);
    RegisteredWaits(cfg, After(cfg, day0, events[..k]), events[k]);
    if n > k + 1 {
      LaunchWaitsThroughGrace(cfg, day0, events, k, n - 1);
      if SettledIn(cfg, day0, events[..n - 1], events[k].info) {
        StaysSettledIn(cfg, day0, events, n - 1, events[k].info);
      } else {
        WaitsOneMore(cfg, day0, events, n - 1, events[k].info, events[k].slot);
      }
    }
  }

  // ---------------------------------------------------------------- every confirming buy counts

  lemma StepSigs(cfg: Config, s: State, e: Event)
    ensures Next(cfg, s, e).0.seenBuys
         <= s.seenBuys + if e.BuySeen? && CountsNow(s, e, e.tx.mint) then {e.tx.sig8} else {}
  {
    hide Sealed, Watch.Step, Selected, Retain, Fresh, Opened, Remember;
    SealedMarks(s, e.slot);
  }

  /** A signature is marked only if some launch counted it. */
  ghost predicate SomebodyCounted(cfg: Config, day0: nat, events: seq<Event>, sig8: nat) {
    exists e: Event :: e in events && e.BuySeen? && e.tx.sig8 == sig8 && e in Counted(cfg, day0, events, e.tx.mint)
  }

  lemma {:induction false} MarkedSigsWereCounted(cfg: Config, day0: nat, events: seq<Event>, sig8: nat)
    requires sig8 in After(cfg, day0, events).seenBuys
    ensures SomebodyCounted(cfg, day0, events, sig8)
  {
    hide Next, CountsNow;
    if events != [] {
      var front, e := events[..|events| - 1], events[|events| - 1];
      var s := After(cfg, day0, front);
      StepSigs(cfg, s, e);
      if sig8 in s.seenBuys {
        MarkedSigsWereCounted(cfg, day0, front, sig8);
        var f: Event :| f in front && f.BuySeen? && f.tx.sig8 == sig8 && f in Counted(cfg, day0, front, f.tx.mint);
        assert f in Counted(cfg, day0, events, f.tx.mint);
      } else {
        assert e in Counted(cfg, day0, events, e.tx.mint);
      }
    }
  }

  /**
   No confirming buy is missed: delivered after its create, in the create's slot, while the launch is not
   settled and the stream is at most one slot ahead, it is counted, now or by an earlier delivery.
   */
  lemma EveryConfirmingBuyCounts(cfg: Config, day0: nat, events: seq<Event>, k: nat, j: nat)
    requires Bounded(events) && |Mints(events)| <= PENDING_LIMIT
    requires k < j < |events| && EffectAt(cfg, day0, events, k).Registered? && InGrace(events, k, j)
    requires events[k].CreateSeen? && events[j].BuySeen?
    requires events[j].tx.mint == events[k].info.mint && events[j].slot == events[k].slot
    requires !SettledIn(cfg, day0, events[..j], events[k].info)
    requires forall i :: 0 <= i < j && events[i].BuySeen? && events[i].tx.sig8 == events[j].tx.sig8 ==> events[i].tx.mint == events[j].tx.mint
    ensures exists e :: e in Counted(cfg, day0, events[..j + 1], events[j].tx.mint) && e.BuySeen? && e.tx.sig8 == events[j].tx.sig8
  {
    hide After, Next, Mints, Bounded, SettledIn;
    var s, e := After(cfg, day0, events[..j]), events[j];
    LaunchWaitsThroughGrace(cfg, day0, events, k, j);
    SealKeeps(s, e.slot, e.tx.mint);
    assert events[..j + 1][..j] == events[..j];
    if CountsNow(s, e, e.tx.mint) {
      assert e in Counted(cfg, day0, events[..j + 1], e.tx.mint);
    } else {
      hide Sealed, CountsNow;
      SealedMarks(s, e.slot);
      assert e.tx.sig8 in s.seenBuys by { NotCountedIsMarked(s, e); }
      MarkedSigsWereCounted(cfg, day0, events[..j], e.tx.sig8);
      var f: Event :| f in events[..j] && f.BuySeen? && f.tx.sig8 == e.tx.sig8 && f in Counted(cfg, day0, events[..j], f.tx.mint);
      var i :| 0 <= i < j && events[i] == f;
      assert f in Counted(cfg, day0, events[..j + 1], e.tx.mint);
    }
  }

  lemma NotCountedIsMarked(s: State, e: Event)
    requires e.BuySeen? && Awaited(Sealed(s, e.slot), e.tx, e.slot) && !CountsNow(s, e, e.tx.mint)
    ensures e.tx.sig8 in s.seenBuys
  {
    hide Sealed;
    SealedMarks(s, e.slot);
  }

  // ---------------------------------------------------------------- when exactly a buy fires

  lemma CountStep(cfg: Config, s: State, e: Event)
    requires Tidy(s) && e.BuySeen?
    ensures var effect := Next(cfg, s, e).1;
            if CountsNow(s, e, e.tx.mint) then
              && e.tx.mint in s.pending && s.pending[e.tx.mint].info.mint == e.tx.mint
              && var p := s.pending[e.tx.mint];
                 var out := Watch.Step(p.watch, cfg.table, e.tx.buy, cfg.params).1;
                 if out.Fired? then effect.FiredOnBuy? && effect.info == p.info && effect.fire == out else effect == Nothing
            else effect == Nothing
  {
    hide Sealed, Watch.Step, PlanFor;
    SealedMarks(s, e.slot);
  }

  /**
   A buy fires exactly when it counts, settles its launch, and the verdict on all the buys counted for that
   launch is a fire; it then fires that verdict.
   */
  lemma BuyFiresExactly(cfg: Config, day0: nat, events: seq<Event>, k: nat)
    requires Bounded(events) && k < |events| && events[k].BuySeen?
    ensures var s, e, effect := After(cfg, day0, events[..k]), events[k], EffectAt(cfg, day0, events, k);
            var mint := e.tx.mint;
            if CountsNow(s, e, mint) then
              && mint in s.pending
              && var info, buys := s.pending[mint].info, CountedBuys(cfg, day0, events[..k + 1], mint);
                 && buys != []
                 && var verdict := Verdict(info.devBuy, cfg.table, buys, cfg.params);
                    if !SettledIn(cfg, day0, events[..k], info) && Triggers(info.devBuy, cfg.table, buys, cfg.params) && verdict.Fired?
                    then effect.FiredOnBuy? && effect.info == info && effect.fire == verdict
                    else effect == Nothing
            else effect == Nothing
  {
    hide After, Next, Watch.Step, Watched, Bounded, Mints, Sigs, Verdict, Triggers, Settled, CountsNow, Tidy;
    var s, e := After(cfg, day0, events[..k]), events[k];
    var mint := e.tx.mint;
    BoundedFront(events, k);
    LedgersOfRuns(cfg, day0, events[..k], mint);
    CountStep(cfg, s, e);
    if CountsNow(s, e, mint) {
      var info := s.pending[mint].info;
      var before := CountedBuys(cfg, day0, events[..k], mint);
      CountedBuysGrow(cfg, day0, events, k, mint);
      WaitingWatch(cfg, day0, events[..k], info, s.pending[mint].slot);
      var buys := before + [e.tx.buy];
      assert buys[..|buys| - 1] == before;
      LastAnswer(info.devBuy, cfg.table, buys, cfg.params);
    }
  }
}
