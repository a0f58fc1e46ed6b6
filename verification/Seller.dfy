/** One position being sold off leg by leg (`runLeg`, `sendSell`, `finalize` in `pump.ts`). */
module Seller {
  import opened Prelude
  import opened Ladder

  const DUST: nat := 1000
  const FINAL_RETRIES: nat := 8

  datatype Opts = Opts(priceConditional: bool, fixed: FixedOpts, curve: CurveOpts)

  /** A scheduled leg: `frac == None` is the force-out, `first` the first slot of the price-conditional ladder. */
  datatype Leg = Leg(frac: Option<real>, first: bool)

  datatype Sell = Sell(tokens: nat, close: bool)

  /** The seller's own record of a position. `tracked` holds while the position is in the shared map. */
  datatype Position = Position(original: nat, remaining: nat, selling: bool, done: bool, finalRetries: nat, tracked: bool)

  /** A call of `runLeg` suspended at an await: reading the chain, or waiting for a submit to answer. */
  datatype Call = Reading(leg: Leg) | Sending(sell: Sell)

  /** The token account on chain, with the submitted sells that may still execute. */
  datatype Chain = Chain(held: nat, sold: nat, closed: bool, outstanding: seq<Sell>)

  datatype World = World(p: Position, calls: seq<Call>, finalizing: nat, chain: Chain)

  // ---------------------------------------------------------------- the seller's code between two awaits

  /** `runLeg` up to its first await; a leg that finds the lock taken is queued again and changes nothing. */
  predicate Starts(p: Position) { p.tracked && !p.done && !p.selling }

  function Decide(opts: Opts, original: nat, remaining: nat, leg: Leg, multiple: Option<real>): (d: Decision)
    ensures d.sell <= remaining && (d.final <==> d.sell == remaining)
    ensures !d.final ==> remaining - d.sell > DUST
    ensures leg.frac.None? ==> d == Decision(remaining, true)
  {
    if opts.priceConditional then
      DecideLegSizeCurve(original, remaining, multiple, leg.first, leg.frac.None?, opts.curve, DUST)
    else DecideLegSize(original, remaining, leg.frac, multiple, opts.fixed, DUST)
  }

  /** After the reads: the record, and the sell to submit, if any. Without one the lock is released. */
  function AfterReads(opts: Opts, p: Position, leg: Leg, balance: Option<nat>, multiple: Option<real>): (Position, Option<Sell>) {
    var remaining := if balance.Some? then balance.value else p.remaining;
    if remaining <= DUST then (p.(remaining := 0, done := true, selling := false), None)
    else
      var d := Decide(opts, p.original, remaining, leg, multiple);
      if d.sell == 0 then (p.(remaining := remaining, selling := false), None)
      else (p.(remaining := remaining), Some(Sell(d.sell, d.final)))
  }

  /** After the submit answered; the lock is released either way. */
  function AfterSubmit(p: Position, sell: Sell, ok: bool, softExit: bool): Position {
    if ok then
      p.(remaining := SaturatingSub(p.remaining, sell.tokens), done := p.done || sell.close, selling := false)
    else if sell.close && !softExit then
      var retries := p.finalRetries + 1;
      p.(finalRetries := retries, tracked := p.tracked && retries <= FINAL_RETRIES, selling := false)
    else p.(selling := false)
  }

  class OpenPosition {
    const original: nat
    var remaining: nat
    var selling: bool
    var done: bool
    var finalRetries: nat
    var tracked: bool

    function Value(): Position
      reads this
    {
      Position(original, remaining, selling, done, finalRetries, tracked)
    }

    constructor (amount: nat)
      ensures Value() == Position(amount, amount, false, false, 0, true)
    {
      original, remaining, selling, done, finalRetries, tracked := amount, amount, false, false, 0, true;
    }

    method Begin() returns (started: bool)
      modifies this`selling
      ensures started == Starts(old(Value()))
      ensures Value() == if started then old(Value()).(selling := true) else old(Value())
    {
      if !tracked || done {
        return false;
      }
      if selling {
        return false;
      }
      selling := true;
      return true;
    }

    method Resume(opts: Opts, leg: Leg, balance: Option<nat>, multiple: Option<real>) returns (sell: Option<Sell>)
      modifies this
      ensures (Value(), sell) == AfterReads(opts, old(Value()), leg, balance, multiple)
      ensures sell.Some? ==>
                && 0 < sell.value.tokens <= remaining
                && (sell.value.close <==> sell.value.tokens == remaining)
                && (!sell.value.close ==> remaining - sell.value.tokens > DUST)
    {
      var left := remaining;
      if balance.Some? {
        left := balance.value;
      }
      if left <= DUST {
        remaining, done, selling := 0, true, false;
        return None;
      }
      remaining := left;
      var d := Decide(opts, original, left, leg, multiple);
      if d.sell == 0 {
        selling := false;
        return None;
      }
      return Some(Sell(d.sell, d.final));
    }

    method Answered(sell: Sell, ok: bool, softExit: bool)
      modifies this
      ensures Value() == AfterSubmit(old(Value()), sell, ok, softExit)
    {
      if ok {
        remaining := if remaining > sell.tokens then remaining - sell.tokens else 0;
        if sell.close {
          done := true;
        }
      } else if sell.close && !softExit {
        finalRetries := finalRetries + 1;
        if finalRetries > FINAL_RETRIES {
          tracked := false;
        }
      }
      selling := false;
    }
  }

  // ---------------------------------------------------------------- the chain

  /** A sell executes only if the account holds enough; one that closes it must empty it. */
  predicate Executes(chain: Chain, sell: Sell) {
    !chain.closed && sell.tokens <= chain.held && (sell.close ==> sell.tokens == chain.held)
  }

  function Without(outstanding: seq<Sell>, i: nat): seq<Sell>
    requires i < |outstanding|
  {
    outstanding[..i] + outstanding[i + 1..]
  }

  function Execute(chain: Chain, i: nat): Chain
    requires i < |chain.outstanding|
  {
    var sell := chain.outstanding[i];
    var rest := chain.(outstanding := Without(chain.outstanding, i));
    if Executes(chain, sell) then
      rest.(held := chain.held - sell.tokens, sold := chain.sold + sell.tokens, closed := sell.close)
    else rest
  }

  // ---------------------------------------------------------------- interleavings

  /**
   Timers firing, awaits resuming, transactions landing or getting lost, in any order. A closed account
   reads as no balance, like a failed read.
   */
  datatype Step =
    | Fire(leg: Leg)
    | Reads(call: nat, ok: bool, multiple: Option<real>)
    | Answer(call: nat, ok: bool, softExit: bool)
    | Land(tx: nat)
    | Lose(tx: nat)
    | Verify(balance: Option<nat>)

  function Resumed(w: World, p: Position, call: nat): World
    requires call < |w.calls|
  {
    w.(p := p, calls := w.calls[..call] + w.calls[call + 1..],
       finalizing := w.finalizing + if p.tracked && p.done then 1 else 0)
  }

  function Started(w: World, leg: Leg): World {
    if Starts(w.p) then w.(p := w.p.(selling := true), calls := w.calls + [Reading(leg)]) else w
  }

  function Balance(chain: Chain, ok: bool): Option<nat> {
    if ok && !chain.closed then Some(chain.held) else None
  }

  function Next(opts: Opts, w: World, step: Step): World {
    match step
    case Fire(leg) => Started(w, leg)
    case Reads(i, ok, multiple) =>
      if i < |w.calls| && w.calls[i].Reading? then
        var (p, sell) := AfterReads(opts, w.p, w.calls[i].leg, Balance(w.chain, ok), multiple);
        if sell.None? then Resumed(w, p, i)
        else w.(p := p, calls := w.calls[i := Sending(sell.value)],
                chain := w.chain.(outstanding := w.chain.outstanding + [sell.value]))
      else w
    case Answer(i, ok, softExit) =>
      if i < |w.calls| && w.calls[i].Sending? then Resumed(w, AfterSubmit(w.p, w.calls[i].sell, ok, softExit), i) else w
    case Land(i) =>
      if i < |w.chain.outstanding| then w.(chain := Execute(w.chain, i)) else w
    case Lose(i) =>
      if i < |w.chain.outstanding| then w.(chain := w.chain.(outstanding := Without(w.chain.outstanding, i))) else w
    case Verify(balance) =>
      if w.finalizing == 0 then w
      else
        var after := w.(finalizing := w.finalizing - 1);
        if balance.Some? && balance.value > DUST then
          Started(after.(p := w.p.(done := false, remaining := balance.value)), Leg(None, false))
        else after.(p := w.p.(tracked := false))
  }

  function Start(original: nat): World {
    World(Position(original, original, false, false, 0, true), [], 0, Chain(original, 0, false, []))
  }

  function Run(opts: Opts, original: nat, steps: seq<Step>): World {
    if steps == [] then Start(original)
    else Next(opts, Run(opts, original, steps[..|steps| - 1]), steps[|steps| - 1])
  }

  // ---------------------------------------------------------------- what every run keeps

  /** The lock is held exactly by the one suspended call, and no token appears or vanishes. */
  predicate Sound(original: nat, w: World) {
    && |w.calls| == (if w.p.selling then 1 else 0)
    && w.chain.held + w.chain.sold == original
    && (w.chain.closed ==> w.chain.held == 0)
    && w.p.finalRetries <= FINAL_RETRIES + 1
    && (w.p.finalRetries > FINAL_RETRIES ==> !w.p.tracked && w.calls == [])
  }

  lemma SoundStep(opts: Opts, original: nat, w: World, step: Step)
    requires Sound(original, w)
    ensures Sound(original, Next(opts, w, step))
  {
    hide Decide;
  }

  /** Whatever the timing, at most one send is in flight and every token is either held or sold. */
  lemma {:induction false} TokensAreConserved(opts: Opts, original: nat, steps: seq<Step>)
    ensures Sound(original, Run(opts, original, steps))
  {
    hide Next;
    if steps != [] {
      TokensAreConserved(opts, original, steps[..|steps| - 1]);
      SoundStep(opts, original, Run(opts, original, steps[..|steps| - 1]), steps[|steps| - 1]);
    }
  }

  // ---------------------------------------------------------------- sells that are settled before the next read

  /** Every read finds the account, and no sell still undecided. */
  predicate SettledReads(opts: Opts, original: nat, steps: seq<Step>) {
    forall k :: 0 <= k < |steps| && steps[k].Reads? ==>
      var chain := Run(opts, original, steps[..k]).chain;
      Balance(chain, steps[k].ok).Some? && chain.outstanding == []
  }

  /** A sell cut to the account as it is: it executes, and leaves either nothing or more than dust. */
  predicate Fits(chain: Chain, sell: Sell) {
    && Executes(chain, sell)
    && (sell.close <==> sell.tokens == chain.held)
    && (!sell.close ==> chain.held - sell.tokens > DUST)
  }

  /** At most one sell is undecided, and it fits. */
  predicate Settling(chain: Chain) {
    |chain.outstanding| <= 1 && forall i :: 0 <= i < |chain.outstanding| ==> Fits(chain, chain.outstanding[i])
  }

  lemma SettlingStep(opts: Opts, w: World, step: Step)
    requires Settling(w.chain)
    requires step.Reads? ==> Balance(w.chain, step.ok).Some? && w.chain.outstanding == []
    ensures Settling(Next(opts, w, step).chain)
  {
    hide Decide;
  }

  lemma {:induction false} SettledSellsFit(opts: Opts, original: nat, steps: seq<Step>)
    requires SettledReads(opts, original, steps)
    ensures Settling(Run(opts, original, steps).chain)
  {
    hide Next, Settling;
    if steps == [] {
      assert Settling(Start(original).chain) by { NothingToSettle(original); }
    } else {
      var front := steps[..|steps| - 1];
      forall k | 0 <= k < |front| ensures front[..k] == steps[..k] && front[k] == steps[k] {
      }
      SettledSellsFit(opts, original, front);
      SettlingStep(opts, Run(opts, original, front), steps[|steps| - 1]);
    }
  }

  lemma NothingToSettle(original: nat)
    ensures Settling(Start(original).chain)
  {
  }

  /** A sell that lands moves exactly its tokens: a final one leaves nothing, any other more than dust. */
  lemma LandedSellsAreExact(opts: Opts, original: nat, steps: seq<Step>, i: nat)
    requires SettledReads(opts, original, steps) && i < |Run(opts, original, steps).chain.outstanding|
    ensures var w := Run(opts, original, steps);
            var sell, after := w.chain.outstanding[i], Next(opts, w, Land(i)).chain;
            && after.held == w.chain.held - sell.tokens && after.sold == w.chain.sold + sell.tokens
            && after.held + after.sold == original
            && (sell.close <==> after.held == 0) && (!sell.close ==> after.held > DUST)
  {
    hide Run;
    SettledSellsFit(opts, original, steps);
    TokensAreConserved(opts, original, steps);
  }

  /** Sells being decided, each landed or lost, all ahead of the one submitted last. */
  datatype Pick = Pick(tx: nat, lands: bool)

  /** The world after those decisions; a pick that names no earlier sell decides nothing. */
  function Raced(opts: Opts, w: World, picks: seq<Pick>): World {
    if picks == [] then w
    else
      var before, pick := Raced(opts, w, picks[..|picks| - 1]), picks[|picks| - 1];
      if pick.tx + 1 >= |before.chain.outstanding| then before
      else Next(opts, before, if pick.lands then Land(pick.tx) else Lose(pick.tx))
  }

  /** The world after the sell submitted last has landed too. */
  function LastLanded(opts: Opts, w: World): World
    requires w.chain.outstanding != []
  {
    Next(opts, w, Land(|w.chain.outstanding| - 1))
  }

  /** As the account stands, the sell either fails, or sells nothing, or sells everything. */
  predicate Harmless(chain: Chain, sell: Sell) {
    Executes(chain, sell) ==> sell.tokens == 0 || sell.tokens == chain.held
  }

  predicate AllHarmless(chain: Chain) {
    forall j :: 0 <= j < |chain.outstanding| ==> Harmless(chain, chain.outstanding[j])
  }

  /** Ahead of a force-out of all that was held: nothing has happened to the account, or it is empty already. */
  predicate Doomed(chain: Chain, read: Chain) {
    && chain.outstanding != [] && chain.outstanding[|chain.outstanding| - 1] == Sell(read.held, true)
    && (forall j :: 0 <= j < |chain.outstanding| - 1 ==> chain.outstanding[j] in read.outstanding)
    && (chain.held == 0 || (chain.held == read.held && chain.closed == read.closed))
  }

  lemma DoomedStays(opts: Opts, w: World, read: Chain, pick: Pick)
    requires Doomed(w.chain, read) && AllHarmless(read) && !read.closed && pick.tx + 1 < |w.chain.outstanding|
    ensures Doomed(Next(opts, w, if pick.lands then Land(pick.tx) else Lose(pick.tx)).chain, read)
  {
    var sell := w.chain.outstanding[pick.tx];
    assert sell in read.outstanding;
    var j :| 0 <= j < |read.outstanding| && read.outstanding[j] == sell;
    assert Harmless(read, sell);
  }

  lemma {:induction false} RacesStayDoomed(opts: Opts, w: World, read: Chain, picks: seq<Pick>)
    requires Doomed(w.chain, read) && AllHarmless(read) && !read.closed
    ensures Doomed(Raced(opts, w, picks).chain, read)
  {
    hide Next, Doomed, AllHarmless;
    if picks != [] {
      RacesStayDoomed(opts, w, read, picks[..|picks| - 1]);
      var before, pick := Raced(opts, w, picks[..|picks| - 1]), picks[|picks| - 1];
      if pick.tx + 1 < |before.chain.outstanding| {
        DoomedStays(opts, before, read, pick);
      }
    }
  }

  /**
   A force-out submitted on an account above dust leaves nothing, however the sells still undecided are
   decided ahead of it, if and only if each of these would fail, sell nothing or sell everything.
   */
  lemma ForceOutLeavesNothingIff(opts: Opts, w: World, i: nat, multiple: Option<real>)
    requires i < |w.calls| && w.calls[i].Reading? && w.calls[i].leg.frac.None?
    requires !w.chain.closed && w.chain.held > DUST
    ensures var sent := Next(opts, w, Reads(i, true, multiple));
            && sent.chain == w.chain.(outstanding := w.chain.outstanding + [Sell(w.chain.held, true)])
            && ((forall picks :: LeavesNothing(opts, sent, picks)) <==> AllHarmless(w.chain))
  {
    hide Decide;
    var sent := Next(opts, w, Reads(i, true, multiple));
    assert sent.chain == w.chain.(outstanding := w.chain.outstanding + [Sell(w.chain.held, true)]);
    hide Next;
    if AllHarmless(w.chain) {
      forall picks ensures LeavesNothing(opts, sent, picks) {
        RacesStayDoomed(opts, sent, w.chain, picks);
        DoomedEnds(opts, Raced(opts, sent, picks), w.chain);
      }
    } else {
      var j :| 0 <= j < |w.chain.outstanding| && !Harmless(w.chain, w.chain.outstanding[j]);
      HarmfulFirst(opts, sent, j);
    }
  }

  predicate LeavesNothing(opts: Opts, sent: World, picks: seq<Pick>) {
    var raced := Raced(opts, sent, picks);
    raced.chain.outstanding != [] && LastLanded(opts, raced).chain.held == 0
  }

  lemma DoomedEnds(opts: Opts, w: World, read: Chain)
    requires Doomed(w.chain, read) && !read.closed
    ensures w.chain.outstanding != [] && LastLanded(opts, w).chain.held == 0
  {
  }

  lemma HarmfulFirst(opts: Opts, sent: World, j: nat)
    requires j + 1 < |sent.chain.outstanding| && !Harmless(sent.chain, sent.chain.outstanding[j])
    requires sent.chain.outstanding[|sent.chain.outstanding| - 1] == Sell(sent.chain.held, true)
    ensures !LeavesNothing(opts, sent, [Pick(j, true)])
  {
    assert [Pick(j, true)][..0] == [];
    assert Raced(opts, sent, []) == sent;
  }

  /** With every sell settled before the read, the force-out sells all there is and closes the account. */
  lemma LandedForceOutLeavesNothing(opts: Opts, original: nat, steps: seq<Step>, i: nat, multiple: Option<real>)
    requires var w := Run(opts, original, steps);
             && i < |w.calls| && w.calls[i].Reading? && w.calls[i].leg.frac.None?
             && !w.chain.closed && w.chain.outstanding == []
    ensures var w := Run(opts, original, steps);
            var sent := Next(opts, w, Reads(i, true, multiple));
            if w.chain.held > DUST then
              var after := Next(opts, sent, Land(0)).chain;
              sent.chain.outstanding == [Sell(w.chain.held, true)] && after == Chain(0, original, true, [])
            else sent.p.done && sent.chain == w.chain
  {
    hide Run, Decide;
    TokensAreConserved(opts, original, steps);
  }

  /** A read before the last sell is decided can size a force-out wrongly; the chain then refuses it. */
  lemma UnsettledForceOutCanFail()
    ensures exists opts: Opts, original: nat, steps: seq<Step> ::
              var w := Run(opts, original, steps);
              && w.chain.outstanding == [Sell(original, true)]
              && Next(opts, w, Land(0)).chain.held > DUST
  {
    hide Run, Next;
    var opts := Opts(true, FixedOpts(0.8, 2.0, 0.05), CurveOpts(0.3, 0.55));
    var steps := Trimming() + [Fire(Leg(None, false))] + [Reads(0, true, None)] + [Land(0)];
    TrimUndecided(opts);
    ForceOutUndecided(opts, Run(opts, 1_000_000, Trimming()));
    RunAppends(opts, 1_000_000, Trimming(), Fire(Leg(None, false)));
    RunAppends(opts, 1_000_000, Trimming() + [Fire(Leg(None, false))], Reads(0, true, None));
    RunAppends(opts, 1_000_000, Trimming() + [Fire(Leg(None, false))] + [Reads(0, true, None)], Land(0));
    assert Run(opts, 1_000_000, steps).chain.outstanding == [Sell(1_000_000, true)];
  }

  /** A leg that trims a winner, answered but not yet landed. */
  function Trimming(): seq<Step> {
    [Fire(Leg(Some(0.0), false))] + [Reads(0, true, Some(3.0))] + [Answer(0, true, false)]
  }

  lemma TrimUndecided(opts: Opts)
    requires opts.priceConditional
    ensures Run(opts, 1_000_000, Trimming())
         == World(Position(1_000_000, 982_000, false, false, 0, true), [], 0, Chain(1_000_000, 0, false, [Sell(18_000, false)]))
  {
    hide Run;
    var fire := Fire(Leg(Some(0.0), false));
    assert [] + [fire] == [fire];
    NoSteps(opts, 1_000_000);
    RunAppends(opts, 1_000_000, [], fire);
    RunAppends(opts, 1_000_000, [fire], Reads(0, true, Some(3.0)));
    RunAppends(opts, 1_000_000, [fire] + [Reads(0, true, Some(3.0))], Answer(0, true, false));
  }

  lemma ForceOutUndecided(opts: Opts, w: World)
    requires w == World(Position(1_000_000, 982_000, false, false, 0, true), [], 0,
                        Chain(1_000_000, 0, false, [Sell(18_000, false)]))
    ensures var sent := Next(opts, Next(opts, w, Fire(Leg(None, false))), Reads(0, true, None));
            var trimmed := Next(opts, sent, Land(0));
            && trimmed.chain.outstanding == [Sell(1_000_000, true)]
            && Next(opts, trimmed, Land(0)).chain.held == 982_000
  {
  }

  lemma RunAppends(opts: Opts, original: nat, steps: seq<Step>, step: Step)
    ensures Run(opts, original, steps + [step]) == Next(opts, Run(opts, original, steps), step)
  {
    hide Next;
    assert (steps + [step])[..|steps|] == steps;
  }

  lemma NoSteps(opts: Opts, original: nat)
    ensures Run(opts, original, []) == Start(original)
  {
  }

  // ---------------------------------------------------------------- honest replies make failed reads harmless

  /** A submit is answered once it is decided, with success exactly if it landed; the check after a final leg reads a settled balance. */
  predicate Honest(w: World, step: Step) {
    match step
    case Answer(_, ok, _) => w.chain.outstanding == [] && (ok <==> w.chain.held != w.p.remaining)
    case Verify(balance) => w.calls == [] && (balance.Some? ==> balance.value == w.chain.held)
    case _ => true
  }

  predicate HonestRun(opts: Opts, original: nat, steps: seq<Step>) {
    forall k :: 0 <= k < |steps| ==> Honest(Run(opts, original, steps[..k]), steps[k])
  }

  /** The record agrees with the account, up to dust written off. */
  predicate Agrees(w: World) {
    w.p.remaining == w.chain.held || (w.p.remaining == 0 && w.chain.held <= DUST)
  }

  /** The record keeps step with the account, one sell at a time. */
  predicate InStep(w: World) {
    if |w.calls| == 1 && w.calls[0].Sending? then
      var sell := w.calls[0].sell;
      && sell.tokens > 0
      && (if w.chain.outstanding == [] then w.chain.held == w.p.remaining || w.chain.held + sell.tokens == w.p.remaining
          else w.chain.outstanding == [sell] && w.chain.held == w.p.remaining && Fits(w.chain, sell))
    else w.chain.outstanding == [] && Agrees(w)
  }

  lemma InStepReads(opts: Opts, original: nat, w: World, i: nat, ok: bool, multiple: Option<real>)
    requires Sound(original, w) && InStep(w)
    ensures InStep(Next(opts, w, Reads(i, ok, multiple)))
  {
    hide Decide;
    if i < |w.calls| && w.calls[i].Reading? {
      assert i == 0 && |w.calls| == 1;
      assert w.chain.outstanding == [] && Agrees(w);
      var sell := AfterReads(opts, w.p, w.calls[0].leg, Balance(w.chain, ok), multiple).1;
      if sell.Some? {
        assert [] + [sell.value] == [sell.value];
      }
    }
  }

  lemma InStepDecided(opts: Opts, original: nat, w: World, i: nat, lands: bool)
    requires Sound(original, w) && InStep(w)
    ensures InStep(Next(opts, w, if lands then Land(i) else Lose(i)))
  {
    if i < |w.chain.outstanding| {
      assert |w.calls| == 1 && w.calls[0].Sending? && w.chain.outstanding == [w.calls[0].sell] && i == 0;
      assert Without(w.chain.outstanding, 0) == [];
    }
  }

  lemma InStepAnswer(opts: Opts, original: nat, w: World, i: nat, ok: bool, softExit: bool)
    requires Sound(original, w) && InStep(w) && Honest(w, Answer(i, ok, softExit))
    ensures InStep(Next(opts, w, Answer(i, ok, softExit)))
  {
    if i < |w.calls| && w.calls[i].Sending? {
      assert i == 0 && |w.calls| == 1;
    }
  }

  lemma InStepStep(opts: Opts, original: nat, w: World, step: Step)
    requires Sound(original, w) && InStep(w) && Honest(w, step)
    ensures InStep(Next(opts, w, step))
  {
    match step {
      case Reads(i, ok, multiple) => InStepReads(opts, original, w, i, ok, multiple);
      case Answer(i, ok, softExit) => InStepAnswer(opts, original, w, i, ok, softExit);
      case Land(i) => InStepDecided(opts, original, w, i, true);
      case Lose(i) => InStepDecided(opts, original, w, i, false);
      case Fire(_) =>
      case Verify(_) =>
    }
  }

  /** With honest replies, however many reads fail, every sell fits the account and the record never drifts from it. */
  lemma {:induction false} HonestRepliesKeepTheBooks(opts: Opts, original: nat, steps: seq<Step>)
    requires HonestRun(opts, original, steps)
    ensures InStep(Run(opts, original, steps)) && Settling(Run(opts, original, steps).chain)
  {
    hide Next, Fits, Sound, Honest;
    if steps != [] {
      var front := steps[..|steps| - 1];
      forall k | 0 <= k < |front| ensures front[..k] == steps[..k] && front[k] == steps[k] {
      }
      HonestRepliesKeepTheBooks(opts, original, front);
      TokensAreConserved(opts, original, front);
      assert Honest(Run(opts, original, front), steps[|steps| - 1]);
      InStepStep(opts, original, Run(opts, original, front), steps[|steps| - 1]);
    }
  }

  // ---------------------------------------------------------------- how long a position is kept

  /** A final sell is answered with a failure while the exit is not soft. */
  predicate FailsFinal(w: World, step: Step) {
    step.Answer? && !step.ok && !step.softExit && step.call < |w.calls| && w.calls[step.call].Sending? && w.calls[step.call].sell.close
  }

  /** A check after a final leg finds no more than dust, or cannot read. */
  predicate FindsClosed(w: World, step: Step) {
    step.Verify? && w.finalizing > 0 && (step.balance.None? || step.balance.value <= DUST)
  }

  function FailedFinals(opts: Opts, original: nat, steps: seq<Step>): nat {
    if steps == [] then 0
    else FailedFinals(opts, original, steps[..|steps| - 1])
         + if FailsFinal(Run(opts, original, steps[..|steps| - 1]), steps[|steps| - 1]) then 1 else 0
  }

  predicate FoundClosed(opts: Opts, original: nat, steps: seq<Step>) {
    steps != []
    && (FoundClosed(opts, original, steps[..|steps| - 1])
        || FindsClosed(Run(opts, original, steps[..|steps| - 1]), steps[|steps| - 1]))
  }

  lemma KeptStep(opts: Opts, w: World, step: Step)
    ensures var t := Next(opts, w, step);
            && t.p.finalRetries == w.p.finalRetries + (if FailsFinal(w, step) then 1 else 0)
            && (t.p.tracked <==> w.p.tracked && !FindsClosed(w, step) && (FailsFinal(w, step) ==> w.p.finalRetries < 8))
  {
    hide Decide;
  }

  /** A position is given up exactly when a check found it closed or nine final sells failed. */
  lemma {:induction false} KeptUntilClosedOrStuck(opts: Opts, original: nat, steps: seq<Step>)
    ensures var p := Run(opts, original, steps).p;
            && p.finalRetries == FailedFinals(opts, original, steps)
            && (p.tracked <==> !FoundClosed(opts, original, steps) && FailedFinals(opts, original, steps) < 9)
  {
    hide Next, FailsFinal, FindsClosed;
    if steps != [] {
      KeptUntilClosedOrStuck(opts, original, steps[..|steps| - 1]);
      KeptStep(opts, Run(opts, original, steps[..|steps| - 1]), steps[|steps| - 1]);
    }
  }

  /** Above the stop, a scheduled fractional leg submits its share of the original position, or everything rather than leave dust. */
  lemma FixedLegSubmits(opts: Opts, p: Position, leg: Leg, balance: nat, multiple: Option<real>)
    requires !opts.priceConditional && balance > DUST && leg.frac.Some? && leg.frac.value > 0.0
    requires opts.fixed.moonFrac >= 0.0 && (multiple.Some? ==> multiple.value > opts.fixed.stopX)
    ensures exists bps: int, want: nat ::
              && Nearest(bps, if multiple.Some? && multiple.value >= opts.fixed.moonX then opts.fixed.moonFrac else leg.frac.value)
              && IsShare(want, p.original, bps)
              && AfterReads(opts, p, leg, Some(balance), multiple).1
                 == if want == 0 then None else if want + DUST < balance then Some(Sell(want, false)) else Some(Sell(balance, true))
  {
    hide DecideLegSize, Nearest, IsShare;
    FixedLegSells(p.original, balance, leg.frac.value, multiple, opts.fixed, DUST);
    var bps: int, want: nat :|
      && Nearest(bps, if multiple.Some? && multiple.value >= opts.fixed.moonX then opts.fixed.moonFrac else leg.frac.value)
      && IsShare(want, p.original, bps)
      && Grants(DecideLegSize(p.original, balance, leg.frac, multiple, opts.fixed, DUST), want, balance, DUST);
  }

  /** A price-conditional leg submits what its tier says of the original position or of the balance read. */
  lemma CurveLegSubmits(opts: Opts, p: Position, leg: Leg, balance: nat, multiple: Option<real>)
    requires opts.priceConditional && balance > DUST && leg.frac.Some?
    ensures var d := DecideLegSizeCurve(p.original, balance, multiple, leg.first, false, opts.curve, DUST);
            AfterReads(opts, p, leg, Some(balance), multiple).1 == if d.sell == 0 then None else Some(Sell(d.sell, d.final))
  {
    hide DecideLegSizeCurve;
  }

  // ---------------------------------------------------------------- the check after the final leg

  /** A final sell that was answered marks the position done and has the account checked. */
  lemma FinalLegIsChecked(opts: Opts, w: World, i: nat, softExit: bool)
    requires i < |w.calls| && w.calls[i].Sending? && w.calls[i].sell.close && w.p.tracked
    ensures var t := Next(opts, w, Answer(i, true, softExit));
            t.p.done && !t.p.selling && t.finalizing == w.finalizing + 1
  {
  }

  /** A check that still finds more than dust opens the position again and starts a force-out at once; any other gives it up. */
  lemma CheckReopens(opts: Opts, w: World, balance: Option<nat>)
    requires w.finalizing > 0
    ensures var t := Next(opts, w, Verify(balance));
            && t.finalizing == w.finalizing - 1
            && (balance.Some? && balance.value > DUST ==> !t.p.done && t.p.remaining == balance.value)
            && (balance.Some? && balance.value > DUST && w.p.tracked && !w.p.selling ==>
                  t.p.selling && t.calls == w.calls + [Reading(Leg(None, false))])
            && (balance.None? || balance.value <= DUST ==> !t.p.tracked && t.calls == w.calls)
  {
  }
}
