/** One launch being watched for confirming buys (`LaunchWatch` in `confirm.rs`). */
module Watch {
  import opened Prelude
  import opened Arith

  type Pubkey = nat

  const VIRT_SOL_0: nat := 30_000_000_000
  const CURVE_K: nat := 30_000_000_000 * 1_073_000_000_000_000
  const SNAP: nat := 100_000_000

  datatype Params = Params(
    nConf: nat,
    minConf: U64,
    ratioBps: U64,
    sizeLo: U64,
    sizeHi: U64,
    follow: U64,
    vqCap: U64,
    padBps: U64)

  datatype Action = FollowSymbiont | FollowWhale | Avoid
  datatype Book = Main | Symbiont | Whale
  datatype Pass = Watching | EliteAhead | CurveCapped | Dead
  datatype Outcome = Fired(book: Book, budget: nat, priorFlow: nat, nConf: nat) | Passed(reason: Pass)

  /** A confirming buy: what it pledged and, for a classic buy, the exact token amount it asked for. */
  datatype Buy = Buy(buyer: Pubkey, sol: U64, tokens: U64, exactSol: bool)

  type WatchTable = map<Pubkey, Action>

  datatype Launch = Launch(vq: nat, nConf: nat, conf: nat, eliteAhead: bool, done: bool)

  function Clip(n: nat): nat { Min(n, U64_MAX) }

  function ActionOf(table: WatchTable, buy: Buy): Option<Action> {
    if buy.buyer in table then Some(table[buy.buyer]) else None
  }

  // ---------------------------------------------------------------- the lamports a buy brings

  /** What reaches the curve of a gross amount, once the 125 bps fee is backed out. */
  function NetOfFee(gross: nat): nat { gross * 10_000 / 10_125 }

  function PledgedNet(buy: Buy, p: Params): nat {
    NetOfFee(buy.sol * (10_000 - Min(p.padBps, 10_000)) / 10_000)
  }

  /** Tokens that an inflow of `x` draws from the tracked curve at depth `vsol`. */
  function Drawn(vsol: nat, x: nat): int
    requires vsol > 0
  {
    Quot(CURVE_K, vsol) - Quot(CURVE_K, vsol + x)
  }

  /** A classic buy asks for fewer tokens than the tracked curve holds. */
  predicate Servable(vq: nat, tokens: nat) {
    tokens < Quot(CURVE_K, Max(vq, 1))
  }

  /** The inflow a servable request needs before it is narrowed to `u64`. */
  function Need(vq: nat, tokens: nat): nat
    requires Servable(vq, tokens)
  {
    var vsol := Max(vq, 1);
    SaturatingSub(Quot(CURVE_K, Quot(CURVE_K, vsol) - tokens), vsol)
  }

  /** The net inflow that the watcher books for a buy at the tracked depth `vq`. */
  function NetOf(vq: nat, buy: Buy, p: Params): (net: nat)
    ensures net <= PledgedNet(buy, p)
  {
    var pledged := PledgedNet(buy, p);
    if buy.exactSol || buy.tokens == 0 then pledged
    else if Servable(vq, buy.tokens) then Min(Need(vq, buy.tokens) % U64_SPAN, pledged)
    else pledged
  }

  /** `Need` is the greatest inflow that does not draw more tokens than asked for. */
  lemma NeedIsGreatestInflow(vq: nat, tokens: nat, x: nat)
    requires Servable(vq, tokens)
    ensures Drawn(Max(vq, 1), x) <= tokens <==> x <= Need(vq, tokens)
  {
    hide Mul, Quot;
    var vsol := Max(vq, 1);
    var rem := Quot(CURVE_K, vsol) - tokens;
    QuotAtLeast(CURVE_K, vsol + x, rem);
    MulCommutes(rem, vsol + x);
    QuotAtLeast(CURVE_K, rem, vsol + x);
    QuotAtLeast(CURVE_K, vsol, rem);
    MulCommutes(rem, vsol);
    QuotAtLeast(CURVE_K, rem, vsol);
  }

  /**
   The inflow booked for a classic buy is the greatest within both the request and the pledge,
   exactly when the narrowing to `u64` either keeps the need or still leaves it at the pledge.
   */
  lemma NetIsGreatestInflow(vq: nat, buy: Buy, p: Params)
    requires !buy.exactSol && buy.tokens > 0 && Servable(vq, buy.tokens)
    ensures (forall x: nat :: Drawn(Max(vq, 1), x) <= buy.tokens && x <= PledgedNet(buy, p) <==> x <= NetOf(vq, buy, p))
       <==> Need(vq, buy.tokens) <= U64_MAX || PledgedNet(buy, p) <= Need(vq, buy.tokens) % U64_SPAN
  {
    hide Quot, PledgedNet, Need, Drawn;
    var need, pledged, net := Need(vq, buy.tokens), PledgedNet(buy, p), NetOf(vq, buy, p);
    forall x: nat
      ensures Drawn(Max(vq, 1), x) <= buy.tokens && x <= pledged <==> x <= Min(need, pledged)
    {
      NeedIsGreatestInflow(vq, buy.tokens, x);
    }
    if net != Min(need, pledged) {
      var x: nat := Min(need, pledged);
      var y: nat := net;
      assert Drawn(Max(vq, 1), x) <= buy.tokens && x <= pledged;
      assert Drawn(Max(vq, 1), y) <= buy.tokens && y <= pledged <==> y <= x;
    }
  }

  /** A request for all but one raw token: the need exceeds `u64` and the booked inflow wraps. */
  lemma NeedCanTruncate()
    ensures exists vq: nat, buy: Buy, p: Params ::
              Servable(vq, buy.tokens) && !buy.exactSol && buy.tokens > 0
              && NetOf(vq, buy, p) < Min(Need(vq, buy.tokens), PledgedNet(buy, p))
  {
    var p := Params(3, 0, 0, 0, 0, 0, 0, 0);
    var buy := Buy(0, U64_MAX, 1_072_999_999_999_999, false);
    assert Quot(CURVE_K, VIRT_SOL_0) == 1_073_000_000_000_000;
    assert Servable(VIRT_SOL_0, buy.tokens);
    assert Need(VIRT_SOL_0, buy.tokens) == 32_189_999_999_999_970_000_000_000 by {
      assert Quot(CURVE_K, 1) == CURVE_K;
    }
    assert 32_189_999_999_999_970_000_000_000 % U64_SPAN == 7_316_263_107_110_392_832;
    assert PledgedNet(buy, p) == 18_219_006_492_552_643_570;
    hide Need, PledgedNet, Servable;
    assert NetOf(VIRT_SOL_0, buy, p) == 7_316_263_107_110_392_832;
  }

  /** What is booked as pledged is the amount less the pad and less the 125 bps fee, rounded down twice. */
  lemma PledgeIsDiscounted(buy: Buy, p: Params)
    ensures var kept := buy.sol * (10_000 - Min(p.padBps, 10_000));
            10_125 * PledgedNet(buy, p) <= kept < 10_125 * (PledgedNet(buy, p) + 1) + 10_000
  {
    TwoFloors(buy.sol * (10_000 - Min(p.padBps, 10_000)));
  }

  lemma TwoFloors(kept: nat)
    ensures 10_125 * NetOfFee(kept / 10_000) <= kept < 10_125 * (NetOfFee(kept / 10_000) + 1) + 10_000
  {
  }

  /** The whole pledge is booked for an exact-sol buy, and where the request says nothing the curve can serve. */
  lemma PledgeIsBookedOtherwise(vq: nat, buy: Buy, p: Params)
    requires buy.exactSol || buy.tokens == 0 || buy.tokens >= Quot(CURVE_K, Max(vq, 1))
    ensures NetOf(vq, buy, p) == PledgedNet(buy, p)
  {
  }

  // ---------------------------------------------------------------- one step

  function Opened(devBuy: U64): Launch {
    Launch(SaturatingAdd(VIRT_SOL_0, NetOfFee(devBuy)), 0, 0, false, false)
  }

  /** The main book's size: a ratio of the confirmed flow, clamped, then snapped down to a tenth. */
  function MainBudget(conf: nat, p: Params): nat {
    var raw := conf * p.ratioBps / 10_000 % U64_SPAN;
    var clamped := if raw < p.sizeLo then p.sizeLo else if raw > p.sizeHi then p.sizeHi else raw;
    Max(clamped / SNAP * SNAP, p.sizeLo)
  }

  /**
   The size follows the confirmed flow: never more than the ratio of it, unless that is the lower bound, and
   less than one step below it, unless that is the upper bound.
   */
  lemma BudgetIsProportional(conf: nat, p: Params)
    requires p.sizeLo <= p.sizeHi && conf * p.ratioBps / 10_000 <= U64_MAX
    ensures MainBudget(conf, p) > p.sizeLo ==> 10_000 * MainBudget(conf, p) <= conf * p.ratioBps
    ensures MainBudget(conf, p) + 100_000_000 <= p.sizeHi ==> conf * p.ratioBps < 10_000 * (MainBudget(conf, p) + 100_000_000)
  {
    var raw := conf * p.ratioBps / 10_000;
    assert raw % U64_SPAN == raw;
    SnappedSize(raw, p.sizeLo, p.sizeHi, MainBudget(conf, p));
    hide MainBudget;
  }

  lemma SnappedSize(raw: nat, lo: nat, hi: nat, budget: nat)
    requires lo <= hi
    requires var clamped := if raw < lo then lo else if raw > hi then hi else raw;
             budget == Max(clamped / SNAP * SNAP, lo)
    ensures budget > lo ==> budget <= raw
    ensures budget + 100_000_000 <= hi ==> raw < budget + 100_000_000
  {
  }

  function Fire(w: Launch, book: Book, budget: nat, p: Params): (Launch, Outcome) {
    var closed := w.(done := true);
    if w.vq >= p.vqCap then (closed, Passed(CurveCapped))
    else (closed, Fired(book, budget, SaturatingSub(w.vq, VIRT_SOL_0), w.nConf))
  }

  function Step(w: Launch, table: WatchTable, buy: Buy, p: Params): (Launch, Outcome) {
    if w.done then (w, Passed(Dead))
    else
      var action := ActionOf(table, buy);
      var net := NetOf(w.vq, buy, p);
      var counted := Launch(SaturatingAdd(w.vq, net), w.nConf + 1, SaturatingAdd(w.conf, net),
                            w.eliteAhead || action == Some(Avoid), false);
      if action == Some(FollowSymbiont) then Fire(counted, Symbiont, p.follow, p)
      else if action == Some(FollowWhale) then Fire(counted, Whale, p.follow, p)
      else if counted.nConf >= p.nConf && counted.conf >= p.minConf then
        if counted.eliteAhead then (counted.(done := true), Passed(EliteAhead))
        else Fire(counted, Main, MainBudget(counted.conf, p), p)
      else (counted, Passed(Watching))
  }

  class LaunchWatch {
    var vq: nat
    var nConf: nat
    var conf: nat
    var eliteAhead: bool
    var done: bool

    function Value(): Launch
      reads this
    {
      Launch(vq, nConf, conf, eliteAhead, done)
    }

    constructor (devBuy: U64)
      ensures Value() == Opened(devBuy)
    {
      vq := SaturatingAdd(VIRT_SOL_0, NetOfFee(devBuy));
      nConf, conf, eliteAhead, done := 0, 0, false, false;
    }

    method FireNow(book: Book, budget: nat, p: Params) returns (out: Outcome)
      modifies this
      ensures (Value(), out) == Fire(old(Value()), book, budget, p)
    {
      done := true;
      if vq >= p.vqCap {
        return Passed(CurveCapped);
      }
      return Fired(book, budget, SaturatingSub(vq, VIRT_SOL_0), nConf);
    }

    /** `clamp` demands that the size bounds be ordered. */
    method OnBuy(table: WatchTable, buy: Buy, p: Params) returns (out: Outcome)
      requires p.sizeLo <= p.sizeHi
      modifies this
      ensures (Value(), out) == Step(old(Value()), table, buy, p)
    {
      hide NetOf, MainBudget;
      if done {
        return Passed(Dead);
      }
      var action := ActionOf(table, buy);
      if action == Some(Avoid) {
        eliteAhead := true;
      }
      var net := NetOf(vq, buy, p);
      nConf := nConf + 1;
      conf := SaturatingAdd(conf, net);
      vq := SaturatingAdd(vq, net);
      if action == Some(FollowSymbiont) {
        out := FireNow(Symbiont, p.follow, p);
        return;
      } else if action == Some(FollowWhale) {
        out := FireNow(Whale, p.follow, p);
        return;
      }
      if nConf >= p.nConf && conf >= p.minConf {
        if eliteAhead {
          done := true;
          return Passed(EliteAhead);
        }
        out := FireNow(Main, MainBudget(conf, p), p);
        return;
      }
      return Passed(Watching);
    }
  }

  // ---------------------------------------------------------------- a whole create block

  /** The state after a sequence of buys, and what each of them answered. */
  function Watched(devBuy: U64, table: WatchTable, buys: seq<Buy>, p: Params): (Launch, seq<Outcome>) {
    if buys == [] then (Opened(devBuy), [])
    else
      var (w, outs) := Watched(devBuy, table, buys[..|buys| - 1], p);
      var (next, out) := Step(w, table, buys[|buys| - 1], p);
      (next, outs + [out])
  }

  /** The net inflow of all the buys, each priced at the depth that those before it left behind. */
  function Inflow(devBuy: U64, buys: seq<Buy>, p: Params): nat {
    if buys == [] then 0
    else
      var before := Inflow(devBuy, buys[..|buys| - 1], p);
      before + NetOf(Depth(devBuy, before), buys[|buys| - 1], p)
  }

  function Depth(devBuy: U64, inflow: nat): nat {
    Clip(VIRT_SOL_0 + NetOfFee(devBuy) + inflow)
  }

  /** The confirmed total never exceeds what the buys pledged. */
  function Pledged(buys: seq<Buy>, p: Params): nat {
    if buys == [] then 0 else Pledged(buys[..|buys| - 1], p) + PledgedNet(buys[|buys| - 1], p)
  }

  lemma {:induction false} InflowWithinPledges(devBuy: U64, buys: seq<Buy>, p: Params)
    ensures Inflow(devBuy, buys, p) <= Pledged(buys, p)
  {
    if buys != [] {
      InflowWithinPledges(devBuy, buys[..|buys| - 1], p);
    }
  }

  predicate Followed(table: WatchTable, buy: Buy) {
    ActionOf(table, buy) == Some(FollowSymbiont) || ActionOf(table, buy) == Some(FollowWhale)
  }

  lemma Listings(table: WatchTable, buy: Buy)
    ensures ActionOf(table, buy) == None || ActionOf(table, buy) == Some(Avoid) || Followed(table, buy)
  {
    var action := ActionOf(table, buy);
    if action.Some? {
      assert action.value.FollowSymbiont? || action.value.FollowWhale? || action.value.Avoid?;
    }
  }

  predicate AvoidedSeen(table: WatchTable, buys: seq<Buy>) {
    exists i :: 0 <= i < |buys| && ActionOf(table, buys[i]) == Some(Avoid)
  }

  /** The last of `buys` settles the launch: a followed wallet, or both confirmation thresholds met. */
  predicate Triggers(devBuy: U64, table: WatchTable, buys: seq<Buy>, p: Params) {
    buys != []
    && (Followed(table, buys[|buys| - 1])
        || (|buys| >= p.nConf && Clip(Inflow(devBuy, buys, p)) >= p.minConf))
  }

  /** Some prefix of `buys` settles the launch. */
  predicate Settled(devBuy: U64, table: WatchTable, buys: seq<Buy>, p: Params) {
    exists n :: 0 <= n <= |buys| && Triggers(devBuy, table, buys[..n], p)
  }

  /** What a launch must answer at the buy that settles it. */
  function Verdict(devBuy: U64, table: WatchTable, buys: seq<Buy>, p: Params): Outcome
    requires buys != []
  {
    var inflow := Inflow(devBuy, buys, p);
    var action := ActionOf(table, buys[|buys| - 1]);
    var capped := Depth(devBuy, inflow) >= p.vqCap;
    var flow := Min(NetOfFee(devBuy) + inflow, U64_MAX - VIRT_SOL_0);
    if Followed(table, buys[|buys| - 1]) then
      if capped then Passed(CurveCapped)
      else Fired(if action == Some(FollowWhale) then Whale else Symbiont, p.follow, flow, |buys|)
    else if AvoidedSeen(table, buys) then Passed(EliteAhead)
    else if capped then Passed(CurveCapped)
    else Fired(Main, MainBudget(Clip(inflow), p), flow, |buys|)
  }

  lemma SettledExtends(devBuy: U64, table: WatchTable, buys: seq<Buy>, p: Params)
    requires buys != []
    ensures Settled(devBuy, table, buys, p)
       <==> Settled(devBuy, table, buys[..|buys| - 1], p) || Triggers(devBuy, table, buys, p)
  {
    hide Triggers;
    var front := buys[..|buys| - 1];
    forall n | 0 <= n <= |front| ensures front[..n] == buys[..n] {
    }
    assert buys[..|buys|] == buys;
    if Settled(devBuy, table, front, p) {
      var n :| 0 <= n <= |front| && Triggers(devBuy, table, front[..n], p);
      assert Triggers(devBuy, table, buys[..n], p);
    }
    if Settled(devBuy, table, buys, p) && !Triggers(devBuy, table, buys, p) {
      var n :| 0 <= n <= |buys| && Triggers(devBuy, table, buys[..n], p);
      assert n < |buys|;
      assert Triggers(devBuy, table, front[..n], p);
    }
  }

  lemma AvoidedExtends(table: WatchTable, buys: seq<Buy>)
    requires buys != []
    ensures AvoidedSeen(table, buys)
       <==> AvoidedSeen(table, buys[..|buys| - 1]) || ActionOf(table, buys[|buys| - 1]) == Some(Avoid)
  {
    var front := buys[..|buys| - 1];
    if AvoidedSeen(table, front) {
      var i :| 0 <= i < |front| && ActionOf(table, front[i]) == Some(Avoid);
      assert ActionOf(table, buys[i]) == Some(Avoid);
    }
    if AvoidedSeen(table, buys) && ActionOf(table, buys[|buys| - 1]) != Some(Avoid) {
      var i :| 0 <= i < |buys| && ActionOf(table, buys[i]) == Some(Avoid);
      assert ActionOf(table, front[i]) == Some(Avoid);
    }
  }

  /**
   The watcher is an exact ledger: until the launch is settled it holds 30 SOL plus the developer's
   net plus every net booked since, clipped only where `u64` ends.
   */
  lemma {:induction false} LedgerIsExact(devBuy: U64, table: WatchTable, buys: seq<Buy>, p: Params)
    ensures var w := Watched(devBuy, table, buys, p).0;
            w.done == Settled(devBuy, table, buys, p)
            && (!w.done ==> w == Launch(Depth(devBuy, Inflow(devBuy, buys, p)), |buys|,
                                        Clip(Inflow(devBuy, buys, p)), AvoidedSeen(table, buys), false))
  {
    hide NetOf, NetOfFee, MainBudget, Settled, AvoidedSeen;
    if buys == [] {
      assert !Settled(devBuy, table, buys, p) by { NothingSettled(devBuy, table, p); }
      assert !AvoidedSeen(table, buys) by { NoneAvoided(table); }
    } else {
      LedgerIsExact(devBuy, table, buys[..|buys| - 1], p);
      SettledExtends(devBuy, table, buys, p);
      AvoidedExtends(table, buys);
    }
  }

  lemma NothingSettled(devBuy: U64, table: WatchTable, p: Params)
    ensures !Settled(devBuy, table, [], p)
  {
  }

  lemma NoneAvoided(table: WatchTable)
    ensures !AvoidedSeen(table, [])
  {
  }

  /** Every buy's answer, from the history alone: watching, the one verdict, and dead ever after. */
  lemma {:induction false} AnswersAreTheVerdict(devBuy: U64, table: WatchTable, buys: seq<Buy>, p: Params, k: nat)
    requires k < |buys|
    ensures |Watched(devBuy, table, buys, p).1| == |buys|
    ensures Watched(devBuy, table, buys, p).1[k]
         == if Settled(devBuy, table, buys[..k], p) then Passed(Dead)
            else if Triggers(devBuy, table, buys[..k + 1], p) then Verdict(devBuy, table, buys[..k + 1], p)
            else Passed(Watching)
  {
    hide Step, Settled, Triggers, Verdict;
    var front := buys[..|buys| - 1];
    OneAnswerEach(devBuy, table, front, p);
    if k < |front| {
      assert front[..k] == buys[..k] && front[..k + 1] == buys[..k + 1];
      AnswersAreTheVerdict(devBuy, table, front, p, k);
    } else {
      assert buys[..k] == front && buys[..k + 1] == buys;
      LastAnswer(devBuy, table, buys, p);
    }
  }

  lemma LastAnswer(devBuy: U64, table: WatchTable, buys: seq<Buy>, p: Params)
    requires buys != []
    ensures Step(Watched(devBuy, table, buys[..|buys| - 1], p).0, table, buys[|buys| - 1], p).1
         == if Settled(devBuy, table, buys[..|buys| - 1], p) then Passed(Dead)
            else if Triggers(devBuy, table, buys, p) then Verdict(devBuy, table, buys, p)
            else Passed(Watching)
  {
    hide NetOf, NetOfFee, MainBudget, Settled, AvoidedSeen, Watched;
    LedgerIsExact(devBuy, table, buys[..|buys| - 1], p);
    AvoidedExtends(table, buys);
  }

  lemma {:induction false} OneAnswerEach(devBuy: U64, table: WatchTable, buys: seq<Buy>, p: Params)
    ensures |Watched(devBuy, table, buys, p).1| == |buys|
  {
    hide Step, Opened;
    if buys != [] {
      OneAnswerEach(devBuy, table, buys[..|buys| - 1], p);
    }
  }

  /** At most one buy of a launch ever fires. */
  lemma FiresAtMostOnce(devBuy: U64, table: WatchTable, buys: seq<Buy>, p: Params, j: nat, k: nat)
    requires j < |buys| && k < |buys| && |Watched(devBuy, table, buys, p).1| == |buys|
    requires Watched(devBuy, table, buys, p).1[j].Fired? && Watched(devBuy, table, buys, p).1[k].Fired?
    ensures j == k
  {
    hide Verdict, Watched, Triggers, Settled;
    AnswersAreTheVerdict(devBuy, table, buys, p, j);
    AnswersAreTheVerdict(devBuy, table, buys, p, k);
    StaysSettled(devBuy, table, buys, p, j, k);
    StaysSettled(devBuy, table, buys, p, k, j);
  }

  lemma StaysSettled(devBuy: U64, table: WatchTable, buys: seq<Buy>, p: Params, j: nat, k: nat)
    requires j < |buys| && k < |buys|
    ensures j < k && Triggers(devBuy, table, buys[..j + 1], p) ==> Settled(devBuy, table, buys[..k], p)
  {
    if j < k {
      assert buys[..k][..j + 1] == buys[..j + 1];
    }
  }

  lemma BudgetWithinBounds(conf: nat, p: Params)
    requires p.sizeLo <= p.sizeHi
    ensures p.sizeLo <= MainBudget(conf, p) <= p.sizeHi
    ensures MainBudget(conf, p) % 100_000_000 == 0 || MainBudget(conf, p) == p.sizeLo
  {
  }

  /** What a fire of the main book guarantees about everything the launch saw up to it. */
  lemma MainFireIsEarned(devBuy: U64, table: WatchTable, buys: seq<Buy>, p: Params, k: nat)
    requires p.sizeLo <= p.sizeHi && k < |buys| && |Watched(devBuy, table, buys, p).1| == |buys|
    requires Watched(devBuy, table, buys, p).1[k].Fired? && Watched(devBuy, table, buys, p).1[k].book == Main
    ensures var fire, upTo := Watched(devBuy, table, buys, p).1[k], buys[..k + 1];
            var inflow := Inflow(devBuy, upTo, p);
            && p.nConf <= k + 1 == fire.nConf
            && p.minConf <= inflow <= Pledged(upTo, p)
            && Depth(devBuy, inflow) < p.vqCap
            && p.sizeLo <= fire.budget <= p.sizeHi
            && (inflow * p.ratioBps / 10_000 <= U64_MAX ==>
                  && (fire.budget > p.sizeLo ==> 10_000 * fire.budget <= inflow * p.ratioBps)
                  && (fire.budget + 100_000_000 <= p.sizeHi ==> inflow * p.ratioBps < 10_000 * (fire.budget + 100_000_000)))
            && fire.priorFlow == NetOfFee(devBuy) + inflow
            && (forall i :: 0 <= i <= k ==> ActionOf(table, buys[i]) == None)
  {
    hide Watched, MainBudget, NetOfFee, Inflow, Pledged, Settled;
    var upTo := buys[..k + 1];
    AnswersAreTheVerdict(devBuy, table, buys, p, k);
    BudgetWithinBounds(Clip(Inflow(devBuy, upTo, p)), p);
    if Inflow(devBuy, upTo, p) <= U64_MAX && Inflow(devBuy, upTo, p) * p.ratioBps / 10_000 <= U64_MAX {
      BudgetIsProportional(Inflow(devBuy, upTo, p), p);
    }
    InflowWithinPledges(devBuy, upTo, p);
    forall i | 0 <= i <= k ensures ActionOf(table, buys[i]) == None {
      assert upTo[i] == buys[i] && upTo[k] == buys[k];
      assert ActionOf(table, upTo[i]) != Some(Avoid);
      StaysSettled(devBuy, table, buys, p, i, k);
      assert buys[..i + 1][|buys[..i + 1]| - 1] == buys[i];
      assert !Followed(table, buys[i]);
      Listings(table, buys[i]);
    }
  }
}
