/** Which transactions are pump.fun creates or buys, and what they say (`parse_create` and `parse_buy`). */
module PumpFilter {
  import opened Prelude
  import opened WireFormat
  import opened Scan

  const PUMP_PROGRAM: seq<Byte> :=
    [1, 86, 224, 246, 147, 102, 90, 207, 68, 219, 21, 104, 191, 23, 91, 170,
     81, 137, 203, 151, 245, 210, 255, 59, 101, 93, 43, 182, 253, 109, 24, 176]

  /** The instruction's program resolves inside the static keys to the pump program. */
  predicate IsPump(keys: seq<seq<Byte>>, ix: Record) {
    ix.head != [] && ix.head[0] < |keys| && keys[ix.head[0]] == PUMP_PROGRAM
  }

  predicate HasDisc(ix: Record, disc: seq<Byte>) {
    |disc| <= |ix.second| && ix.second[..|disc|] == disc
  }

  predicate ResolvesKey(keys: seq<seq<Byte>>, ix: Record, pos: nat) {
    pos < |ix.first| && ix.first[pos] < |keys|
  }

  function KeyAt(keys: seq<seq<Byte>>, ix: Record, pos: nat): Option<seq<Byte>> {
    if ResolvesKey(keys, ix, pos) then Some(keys[ix.first[pos]]) else None
  }

  /** The offset after `n` length-prefixed strings starting at `off`. */
  function AfterStrings(data: seq<Byte>, off: nat, n: nat): Option<nat>
    decreases n
  {
    if n == 0 then Some(off)
    else if off + 4 > |data| then None
    else AfterStrings(data, off + 4 + DecodeLE(data[off..off + 4]), n - 1)
  }

  /** `creator_after_strings`: walks the name, symbol and uri that precede the creator. */
  method CreatorOffset(data: seq<Byte>) returns (r: Option<nat>)
    ensures r.Some? <==> HasCreator(data)
    ensures r.Some? ==> Some(r.value) == AfterStrings(data, DISC_LEN, 3)
  {
    var off: nat := DISC_LEN;
    for i := 0 to 3
      invariant AfterStrings(data, DISC_LEN, 3) == AfterStrings(data, off, 3 - i)
    {
      if off + 4 > |data| {
        return None;
      }
      off := off + 4 + DecodeLE(data[off..off + 4]);
    }
    return if off + KEY_LEN <= |data| then Some(off) else None;
  }

  predicate HasCreator(data: seq<Byte>) {
    match AfterStrings(data, DISC_LEN, 3)
    case None => false
    case Some(off) => off + KEY_LEN <= |data|
  }

  predicate IsCreateIx(keys: seq<seq<Byte>>, ix: Record) {
    IsPump(keys, ix) && (HasDisc(ix, DISC_CREATE_V2) || HasDisc(ix, DISC_CREATE))
  }

  predicate IsBuyIx(keys: seq<seq<Byte>>, ix: Record) {
    IsPump(keys, ix) && (HasDisc(ix, DISC_BUY) || HasDisc(ix, DISC_BUY_V2) || HasDisc(ix, DISC_BUY_EXACT_SOL_IN))
  }

  /** Every account and the creator a create needs can be read out of the transaction itself. */
  predicate ReadableCreate(keys: seq<seq<Byte>>, ix: Record) {
    && ResolvesKey(keys, ix, 0) && ResolvesKey(keys, ix, 2) && ResolvesKey(keys, ix, 3)
    && ResolvesKey(keys, ix, if HasDisc(ix, DISC_CREATE_V2) then 5 else 7)
    && HasCreator(ix.second)
  }

  /** A buy's two `u64` arguments and its mint account are present. */
  predicate ReadableBuy(keys: seq<seq<Byte>>, ix: Record) {
    |ix.second| >= 24 && ResolvesKey(keys, ix, 2) && keys != []
  }

  /** Some instruction is a create, and every create instruction can be read. */
  ghost predicate ParsesAsCreate(tx: Transaction) {
    var b := tx.message.body;
    && (exists i :: 0 <= i < |b.instructions| && IsCreateIx(b.keys, b.instructions[i]))
    && (forall i :: 0 <= i < |b.instructions| && IsCreateIx(b.keys, b.instructions[i]) ==> ReadableCreate(b.keys, b.instructions[i]))
  }

  /** No instruction is a create, and the first buy instruction can be read. */
  ghost predicate ParsesAsBuy(tx: Transaction) {
    var b := tx.message.body;
    && (forall i :: 0 <= i < |b.instructions| ==> !IsCreateIx(b.keys, b.instructions[i]))
    && exists i :: 0 <= i < |b.instructions| && IsBuyIx(b.keys, b.instructions[i]) && ReadableBuy(b.keys, b.instructions[i])
         && forall j :: 0 <= j < i ==> !IsBuyIx(b.keys, b.instructions[j])
  }

  // ---- what a create says ----------------------------------------------------------------------

  const TOKEN_PROGRAM: seq<Byte> :=
    [6, 221, 246, 225, 215, 101, 161, 147, 217, 203, 225, 70, 206, 235, 121, 172,
     28, 180, 133, 237, 95, 91, 55, 145, 58, 140, 245, 133, 126, 255, 0, 169]
  const TOKEN_2022_PROGRAM: seq<Byte> :=
    [6, 221, 246, 225, 238, 117, 143, 222, 24, 66, 93, 188, 228, 108, 205, 218,
     182, 26, 252, 77, 131, 185, 13, 39, 254, 189, 249, 40, 216, 161, 139, 252]

  /** The launch-bot hosts: uxento, j7tracker, rapidlaunch, vortex, bloom. */
  const BOTLAUNCHER_HOSTS: seq<seq<Byte>> :=
    [ [117, 120, 101, 110, 116, 111],
      [106, 55, 116, 114, 97, 99, 107, 101, 114],
      [114, 97, 112, 105, 100, 108, 97, 117, 110, 99, 104],
      [118, 111, 114, 116, 101, 120],
      [98, 108, 111, 111, 109] ]

  datatype CreateInfo = CreateInfo(
    mint: seq<Byte>,
    bondingCurve: seq<Byte>,
    associatedBondingCurve: seq<Byte>,
    creator: seq<Byte>,
    user: seq<Byte>,
    tokenProgram: seq<Byte>,
    devBuy: nat,
    v2: bool,
    mayhem: bool,
    cashback: bool,
    botlauncher: bool)

  predicate Contains(text: seq<Byte>, part: seq<Byte>) {
    exists p :: 0 <= p <= |text| && At(text, p, part)
  }

  predicate NamesBotlauncher(uri: seq<Byte>) {
    exists h :: 0 <= h < |BOTLAUNCHER_HOSTS| && Contains(uri, BOTLAUNCHER_HOSTS[h])
  }

  /** `uri_is_botlauncher`: the third string, if it is all there. */
  predicate UriIsBotlauncher(data: seq<Byte>) {
    match AfterStrings(data, DISC_LEN, 2)
    case None => false
    case Some(off) =>
      && off + 4 <= |data|
      && var end := off + 4 + DecodeLE(data[off..off + 4]);
         end <= |data| && NamesBotlauncher(data[off + 4..end])
  }

  /** `flag_tail`: whatever follows the creator. */
  function FlagTail(data: seq<Byte>): seq<Byte> {
    match AfterStrings(data, DISC_LEN, 3)
    case None => []
    case Some(off) => data[Min(|data|, off + KEY_LEN)..]
  }

  predicate Flag(data: seq<Byte>, i: nat) {
    i < |FlagTail(data)| && FlagTail(data)[i] == 1
  }

  /** `read_create_v2` and `read_create`. */
  function ReadCreate(keys: seq<seq<Byte>>, ix: Record): Option<CreateInfo> {
    if !ReadableCreate(keys, ix) then None
    else
      var v2 := HasDisc(ix, DISC_CREATE_V2);
      var off := AfterStrings(ix.second, DISC_LEN, 3).value;
      var program := KeyAt(keys, ix, if v2 then 7 else 9);
      Some(CreateInfo(
        keys[ix.first[0]], keys[ix.first[2]], keys[ix.first[3]],
        ix.second[off..off + KEY_LEN],
        keys[ix.first[if v2 then 5 else 7]],
        if program.Some? then program.value else if v2 then TOKEN_2022_PROGRAM else TOKEN_PROGRAM,
        0, v2, v2 && Flag(ix.second, 0), v2 && Flag(ix.second, 1), UriIsBotlauncher(ix.second)))
  }

  /** The developer's own buy in the same transaction, as far as its argument is there. */
  function DevBuyIn(keys: seq<seq<Byte>>, ix: Record): Option<nat> {
    if !IsPump(keys, ix) then None
    else if HasDisc(ix, DISC_BUY) || HasDisc(ix, DISC_BUY_V2) then
      if |ix.second| >= 24 then Some(DecodeLE(ix.second[16..24])) else None
    else if HasDisc(ix, DISC_BUY_EXACT_SOL_IN) then
      if |ix.second| >= 16 then Some(DecodeLE(ix.second[8..16])) else None
    else None
  }

  /** The last create among the first `n` instructions. */
  function LastCreate(keys: seq<seq<Byte>>, ixs: seq<Record>, n: nat): Option<Record>
    requires n <= |ixs|
  {
    if n == 0 then None
    else if IsCreateIx(keys, ixs[n - 1]) then Some(ixs[n - 1])
    else LastCreate(keys, ixs, n - 1)
  }

  /** The last developer buy among the first `n` instructions; zero without one. */
  function LastDevBuy(keys: seq<seq<Byte>>, ixs: seq<Record>, n: nat): nat
    requires n <= |ixs|
  {
    if n == 0 then 0
    else if DevBuyIn(keys, ixs[n - 1]).Some? then DevBuyIn(keys, ixs[n - 1]).value
    else LastDevBuy(keys, ixs, n - 1)
  }

  /** The create taken is the last one. */
  lemma {:induction false} LastCreateIsLast(keys: seq<seq<Byte>>, ixs: seq<Record>, n: nat, ix: Record)
    requires n <= |ixs|
    ensures LastCreate(keys, ixs, n) == Some(ix)
       <==> exists i :: 0 <= i < n && ixs[i] == ix && IsCreateIx(keys, ix) && forall j :: i < j < n ==> !IsCreateIx(keys, ixs[j])
  {
    hide IsCreateIx;
    if n > 0 {
      LastCreateIsLast(keys, ixs, n - 1, ix);
    }
  }

  /** The developer buy taken is the last one that says its amount. */
  lemma {:induction false} LastDevBuyIsLast(keys: seq<seq<Byte>>, ixs: seq<Record>, n: nat)
    requires n <= |ixs|
    ensures (exists i :: 0 <= i < n && DevBuyIn(keys, ixs[i]) == Some(LastDevBuy(keys, ixs, n))
                         && forall j :: i < j < n ==> DevBuyIn(keys, ixs[j]) == None)
         || (LastDevBuy(keys, ixs, n) == 0 && forall i :: 0 <= i < n ==> DevBuyIn(keys, ixs[i]) == None)
  {
    hide DevBuyIn;
    if n > 0 {
      LastDevBuyIsLast(keys, ixs, n - 1);
    }
  }

  method ReadCreateInfo(keys: seq<seq<Byte>>, ix: Record) returns (r: Option<CreateInfo>)
    ensures r == ReadCreate(keys, ix)
  {
    hide Flag, UriIsBotlauncher;
    var v2 := HasDisc(ix, DISC_CREATE_V2);
    var mint, curve, associated := KeyAt(keys, ix, 0), KeyAt(keys, ix, 2), KeyAt(keys, ix, 3);
    var user := KeyAt(keys, ix, if v2 then 5 else 7);
    var off := CreatorOffset(ix.second);
    if mint.None? || curve.None? || associated.None? || off.None? || user.None? {
      return None;
    }
    var program := KeyAt(keys, ix, if v2 then 7 else 9);
    return Some(CreateInfo(
      mint.value, curve.value, associated.value,
      ix.second[off.value..off.value + KEY_LEN],
      user.value,
      if program.Some? then program.value else if v2 then TOKEN_2022_PROGRAM else TOKEN_PROGRAM,
      0, v2, v2 && Flag(ix.second, 0), v2 && Flag(ix.second, 1), UriIsBotlauncher(ix.second)));
  }

  /** The last create of the transaction, with the last developer buy, unless some create cannot be read. */
  method ParseCreate(tx: Transaction) returns (r: Option<CreateInfo>)
    ensures r.Some? <==> ParsesAsCreate(tx)
    ensures var b := tx.message.body;
            var create := LastCreate(b.keys, b.instructions, |b.instructions|);
            r.Some? ==> create.Some? && ReadCreate(b.keys, create.value).Some?
                        && r.value == ReadCreate(b.keys, create.value).value.(devBuy := LastDevBuy(b.keys, b.instructions, |b.instructions|))
  {
    hide ReadCreate, IsPump, ReadableCreate;
    var keys, ixs := tx.message.body.keys, tx.message.body.instructions;
    var info: Option<CreateInfo>, devBuy := None, 0;
    for i := 0 to |ixs|
      invariant info.Some? <==> exists j :: 0 <= j < i && IsCreateIx(keys, ixs[j])
      invariant forall j :: 0 <= j < i && IsCreateIx(keys, ixs[j]) ==> ReadableCreate(keys, ixs[j])
      invariant LastCreate(keys, ixs, i).Some? <==> info.Some?
      invariant info.Some? ==> info == ReadCreate(keys, LastCreate(keys, ixs, i).value)
      invariant devBuy == LastDevBuy(keys, ixs, i)
    {
      if IsPump(keys, ixs[i]) {
        if HasDisc(ixs[i], DISC_CREATE_V2) || HasDisc(ixs[i], DISC_CREATE) {
          OneDiscEach(ixs[i]);
          assert IsCreateIx(keys, ixs[i]);
          var read := ReadCreateInfo(keys, ixs[i]);
          ReadableIsRead(keys, ixs[i]);
          if read.None? {
            return None;
          }
          info := read;
        } else {
          var buy := DevBuyIn(keys, ixs[i]);
          if buy.Some? {
            devBuy := buy.value;
          }
        }
      }
    }
    return if info.Some? then Some(info.value.(devBuy := devBuy)) else None;
  }

  lemma ReadableIsRead(keys: seq<seq<Byte>>, ix: Record)
    ensures ReadCreate(keys, ix).Some? <==> ReadableCreate(keys, ix)
  {
    hide Flag, UriIsBotlauncher;
  }

  /** An instruction that starts like a create does not start like a buy. */
  lemma OneDiscEach(ix: Record)
    requires HasDisc(ix, DISC_CREATE_V2) || HasDisc(ix, DISC_CREATE)
    ensures !HasDisc(ix, DISC_BUY) && !HasDisc(ix, DISC_BUY_V2) && !HasDisc(ix, DISC_BUY_EXACT_SOL_IN)
  {
    assert DISC_CREATE_V2[0] != DISC_BUY[0] && DISC_CREATE[0] != DISC_BUY[0];
    assert |ix.second| >= 1 ==> ix.second[..DISC_LEN][0] == ix.second[0];
  }

  // ---- what a buy says -------------------------------------------------------------------------

  datatype BuyInfo = BuyInfo(mint: seq<Byte>, buyer: seq<Byte>, sol: nat, tokens: nat, exactSol: bool, sig8: seq<Byte>)

  function ReadBuy(tx: Transaction, ix: Record): Option<BuyInfo> {
    var keys := tx.message.body.keys;
    if !ReadableBuy(keys, ix) then None
    else
      var exact := !HasDisc(ix, DISC_BUY) && !HasDisc(ix, DISC_BUY_V2);
      var first, second := DecodeLE(ix.second[8..16]), DecodeLE(ix.second[16..24]);
      Some(BuyInfo(
        keys[ix.first[2]], keys[0],
        if exact then first else second,
        if exact then second else first,
        exact,
        if tx.signatures != [] && |tx.signatures[0]| >= 8 then tx.signatures[0][..8] else seq(8, _ => 0)))
  }

  /** The first buy of a transaction without a create, if it can be read. */
  method ParseBuy(tx: Transaction) returns (r: Option<BuyInfo>)
    ensures r.Some? <==> ParsesAsBuy(tx)
    ensures var b := tx.message.body;
            r.Some? ==> exists i :: 0 <= i < |b.instructions| && IsBuyIx(b.keys, b.instructions[i])
                                    && (forall j :: 0 <= j < i ==> !IsBuyIx(b.keys, b.instructions[j]))
                                    && r == ReadBuy(tx, b.instructions[i])
  {
    hide IsBuyIx, IsCreateIx;
    var keys, ixs := tx.message.body.keys, tx.message.body.instructions;
    for i := 0 to |ixs|
      invariant forall j :: 0 <= j < i ==> !IsCreateIx(keys, ixs[j])
    {
      if IsCreateIx(keys, ixs[i]) {
        return None;
      }
    }
    for i := 0 to |ixs|
      invariant forall j :: 0 <= j < i ==> !IsBuyIx(keys, ixs[j])
    {
      if IsBuyIx(keys, ixs[i]) {
        return ReadBuy(tx, ixs[i]);
      }
    }
    return None;
  }

  // ---- instruction data, written and read ------------------------------------------------------

  /** A length-prefixed string. */
  function Text(s: seq<Byte>): seq<Byte> { EncodeLE(|s|, 4) + s }

  predicate TextOk(s: seq<Byte>) { |s| < 0x1_0000_0000 }

  /** The data of a create: three strings, the creator, and whatever flags follow. */
  function CreateData(disc: seq<Byte>, name: seq<Byte>, symbol: seq<Byte>, uri: seq<Byte>, creator: seq<Byte>, tail: seq<Byte>): seq<Byte> {
    disc + (Text(name) + (Text(symbol) + (Text(uri) + (creator + tail))))
  }

  lemma TextIsSkipped(data: seq<Byte>, off: nat, s: seq<Byte>, n: nat)
    requires TextOk(s) && At(data, off, Text(s))
    ensures off + 4 <= |data| && DecodeLE(data[off..off + 4]) == |s| && At(data, off + 4, s)
    ensures AfterStrings(data, off, n + 1) == AfterStrings(data, off + 4 + |s|, n)
  {
    AtConcat(data, off, EncodeLE(|s|, 4), s);
    assert Pow256(4) == 0x1_0000_0000;
    LEDecodes(|s|, 4);
  }

  /** Where the strings and the creator stand in a create's data. */
  lemma CreateDataSplits(disc: seq<Byte>, name: seq<Byte>, symbol: seq<Byte>, uri: seq<Byte>, creator: seq<Byte>, tail: seq<Byte>)
    requires |disc| == DISC_LEN
    ensures var data := CreateData(disc, name, symbol, uri, creator, tail);
            var a, b, c := 8 + |Text(name)|, 8 + |Text(name)| + |Text(symbol)|, 8 + |Text(name)| + |Text(symbol)| + |Text(uri)|;
            && At(data, 8, Text(name)) && At(data, a, Text(symbol)) && At(data, b, Text(uri))
            && At(data, c, creator) && At(data, c + |creator|, tail) && |data| == c + |creator| + |tail|
  {
    hide Text, At;
    var data := CreateData(disc, name, symbol, uri, creator, tail);
    var a, b, c := Text(name), Text(symbol), Text(uri);
    AtItself(data);
    AtConcat(data, 0, disc, a + (b + (c + (creator + tail))));
    AtConcat(data, 8, a, b + (c + (creator + tail)));
    AtConcat(data, 8 + |a|, b, c + (creator + tail));
    AtConcat(data, 8 + |a| + |b|, c, creator + tail);
    AtConcat(data, 8 + |a| + |b| + |c|, creator, tail);
  }

  lemma AtItself(data: seq<Byte>)
    ensures At(data, 0, data)
  {
    assert data[0..|data|] == data;
  }

  /** However long its strings and whatever its trailing flags, a create is read back as it was written. */
  lemma CreateDataReadsBack(disc: seq<Byte>, name: seq<Byte>, symbol: seq<Byte>, uri: seq<Byte>, creator: seq<Byte>, tail: seq<Byte>)
    requires |disc| == DISC_LEN && TextOk(name) && TextOk(symbol) && TextOk(uri) && |creator| == KEY_LEN
    ensures var data := CreateData(disc, name, symbol, uri, creator, tail);
            && HasCreator(data) && At(data, AfterStrings(data, DISC_LEN, 3).value, creator)
            && FlagTail(data) == tail
            && (UriIsBotlauncher(data) <==> NamesBotlauncher(uri))
  {
    hide Text, At, NamesBotlauncher, CreateData, AfterStrings;
    var data := CreateData(disc, name, symbol, uri, creator, tail);
    CreateDataWalks(disc, name, symbol, uri, creator, tail);
    var b := DISC_LEN + 8 + |name| + |symbol|;
    var c := b + 4 + |uri|;
    SliceAt(data, b + 4, uri);
    TailAt(data, c + KEY_LEN, tail);
  }

  lemma CreateDataWalks(disc: seq<Byte>, name: seq<Byte>, symbol: seq<Byte>, uri: seq<Byte>, creator: seq<Byte>, tail: seq<Byte>)
    requires |disc| == DISC_LEN && TextOk(name) && TextOk(symbol) && TextOk(uri) && |creator| == KEY_LEN
    ensures var data := CreateData(disc, name, symbol, uri, creator, tail);
            var b := DISC_LEN + 8 + |name| + |symbol|;
            var c := b + 4 + |uri|;
            && AfterStrings(data, DISC_LEN, 2) == Some(b) && AfterStrings(data, DISC_LEN, 3) == Some(c)
            && b + 4 <= |data| && DecodeLE(data[b..b + 4]) == |uri| && At(data, b + 4, uri)
            && At(data, c, creator) && At(data, c + KEY_LEN, tail) && |data| == c + KEY_LEN + |tail|
  {
    hide Text, At, CreateData, AfterStrings;
    var data := CreateData(disc, name, symbol, uri, creator, tail);
    CreateDataSplits(disc, name, symbol, uri, creator, tail);
    TextLength(name);
    TextLength(symbol);
    TextLength(uri);
    var b := DISC_LEN + 8 + |name| + |symbol|;
    TextIsSkipped(data, 8, name, 2);
    TextIsSkipped(data, 8, name, 1);
    TextIsSkipped(data, 12 + |name|, symbol, 1);
    TextIsSkipped(data, 12 + |name|, symbol, 0);
    TextIsSkipped(data, b, uri, 0);
    NoMoreStrings(data, b);
    NoMoreStrings(data, b + 4 + |uri|);
  }

  lemma TailAt(data: seq<Byte>, off: nat, s: seq<Byte>)
    requires At(data, off, s) && |data| == off + |s|
    ensures data[off..] == s
  {
  }

  lemma NoMoreStrings(data: seq<Byte>, off: nat)
    ensures AfterStrings(data, off, 0) == Some(off)
  {
  }

  lemma SliceAt(data: seq<Byte>, off: nat, s: seq<Byte>)
    requires At(data, off, s)
    ensures off + |s| <= |data| && data[off..off + |s|] == s
  {
  }

  lemma TextLength(s: seq<Byte>)
    ensures |Text(s)| == 4 + |s|
  {
  }

  /**
   A whole create instruction, account by account: mint first, curve and its token account third and fourth,
   then the user, and the token program where it is named at all; the flags belong to the second version only.
   */
  lemma CreateIxReadsBack(
    keys: seq<seq<Byte>>, ix: Record, v2: bool, accounts: seq<seq<Byte>>,
    name: seq<Byte>, symbol: seq<Byte>, uri: seq<Byte>, creator: seq<Byte>, tail: seq<Byte>)
    requires |accounts| == |ix.first| > if v2 then 5 else 7
    requires forall j :: 0 <= j < |accounts| ==> KeyAt(keys, ix, j) == Some(accounts[j])
    requires TextOk(name) && TextOk(symbol) && TextOk(uri) && |creator| == KEY_LEN
    requires ix.second == CreateData(if v2 then DISC_CREATE_V2 else DISC_CREATE, name, symbol, uri, creator, tail)
    ensures ReadCreate(keys, ix) == Some(CreateInfo(
              accounts[0], accounts[2], accounts[3], creator,
              if v2 then accounts[5] else accounts[7],
              if v2 then if |accounts| > 7 then accounts[7] else TOKEN_2022_PROGRAM
              else if |accounts| > 9 then accounts[9] else TOKEN_PROGRAM,
              0, v2,
              v2 && |tail| > 0 && tail[0] == 1,
              v2 && |tail| > 1 && tail[1] == 1,
              NamesBotlauncher(uri)))
  {
    hide CreateData, AfterStrings, NamesBotlauncher, UriIsBotlauncher, FlagTail, Text;
    var disc := if v2 then DISC_CREATE_V2 else DISC_CREATE;
    CreateDataReadsBack(disc, name, symbol, uri, creator, tail);
    CreateDataStarts(disc, name, symbol, uri, creator, tail);
    assert HasDisc(ix, DISC_CREATE_V2) <==> v2 by { assert DISC_CREATE[0] != DISC_CREATE_V2[0] && disc[0] == ix.second[..8][0]; }
    assert KeyAt(keys, ix, 0).Some? && KeyAt(keys, ix, 2).Some? && KeyAt(keys, ix, 3).Some?;
    assert KeyAt(keys, ix, if v2 then 5 else 7) == Some(accounts[if v2 then 5 else 7]);
    var program := if v2 then 7 else 9;
    assert program < |accounts| ==> KeyAt(keys, ix, program) == Some(accounts[program]);
  }

  lemma CreateDataStarts(disc: seq<Byte>, name: seq<Byte>, symbol: seq<Byte>, uri: seq<Byte>, creator: seq<Byte>, tail: seq<Byte>)
    ensures var data := CreateData(disc, name, symbol, uri, creator, tail); |disc| <= |data| && data[..|disc|] == disc
  {
    hide Text;
  }

  /** An instruction of the pump program written as a create is one, under both discriminators, and is wanted. */
  lemma WrittenCreateIsFound(
    tx: Transaction, i: nat, disc: seq<Byte>,
    name: seq<Byte>, symbol: seq<Byte>, uri: seq<Byte>, creator: seq<Byte>, tail: seq<Byte>, confirm: bool)
    requires var b := tx.message.body;
             && i < |b.instructions| && IsPump(b.keys, b.instructions[i])
             && b.instructions[i].second == CreateData(disc, name, symbol, uri, creator, tail)
             && (forall j :: 0 <= j < |b.instructions| && IsCreateIx(b.keys, b.instructions[j]) ==> ReadableCreate(b.keys, b.instructions[j]))
    requires disc == DISC_CREATE || disc == DISC_CREATE_V2
    ensures ParsesAsCreate(tx) && Wanted(tx, confirm)
  {
    CreateDataStarts(disc, name, symbol, uri, creator, tail);
    hide CreateData, ReadableCreate;
    assert IsCreateIx(tx.message.body.keys, tx.message.body.instructions[i]);
  }

  /** The data of a buy: two `u64` arguments and whatever follows. */
  function BuyData(disc: seq<Byte>, first: U64, second: U64, rest: seq<Byte>): seq<Byte> {
    disc + (EncodeU64(first) + (EncodeU64(second) + rest))
  }

  /** A classic buy names its tokens first and its cap second; `buy_exact_sol_in` its lamports first and its floor second. */
  lemma BuyDataReadsBack(tx: Transaction, ix: Record, disc: seq<Byte>, first: U64, second: U64, rest: seq<Byte>)
    requires disc == DISC_BUY || disc == DISC_BUY_V2 || disc == DISC_BUY_EXACT_SOL_IN
    requires ix.second == BuyData(disc, first, second, rest) && ResolvesKey(tx.message.body.keys, ix, 2)
    ensures var r := ReadBuy(tx, ix);
            && r.Some?
            && (disc == DISC_BUY_EXACT_SOL_IN ==> r.value.exactSol && r.value.sol == first && r.value.tokens == second)
            && (disc != DISC_BUY_EXACT_SOL_IN ==> !r.value.exactSol && r.value.tokens == first && r.value.sol == second)
            && r.value.buyer == tx.message.body.keys[0] && Some(r.value.mint) == KeyAt(tx.message.body.keys, ix, 2)
    ensures IsPump(tx.message.body.keys, ix) ==>
              IsBuyIx(tx.message.body.keys, ix)
              && DevBuyIn(tx.message.body.keys, ix) == Some(if disc == DISC_BUY_EXACT_SOL_IN then first else second)
  {
    var data := ix.second;
    assert At(data, 0, data) by { assert data[0..|data|] == data; }
    AtConcat(data, 0, disc, EncodeU64(first) + (EncodeU64(second) + rest));
    AtConcat(data, 8, EncodeU64(first), EncodeU64(second) + rest);
    AtConcat(data, 16, EncodeU64(second), rest);
    U64Encoded(data, 8, first);
    U64Encoded(data, 16, second);
    assert data[..8] == disc;
    assert DISC_BUY[0] != DISC_BUY_EXACT_SOL_IN[0] && DISC_BUY_V2[0] != DISC_BUY_EXACT_SOL_IN[0];
  }

  /** What the detect path keeps: creates, and in confirm mode buys as well. */
  ghost predicate Wanted(tx: Transaction, confirm: bool) {
    ParsesAsCreate(tx) || (confirm && ParsesAsBuy(tx))
  }

  ghost function Keep(txs: seq<Transaction>, confirm: bool): seq<Transaction> {
    if txs == [] then []
    else (if Wanted(txs[0], confirm) then [txs[0]] else []) + Keep(txs[1..], confirm)
  }

  lemma {:induction false} KeepPrefix(a: seq<Transaction>, b: seq<Transaction>, confirm: bool)
    requires a <= b
    ensures Keep(a, confirm) <= Keep(b, confirm)
  {
    if a != [] {
      KeepPrefix(a[1..], b[1..], confirm);
    }
  }

  /** Keeping is filtering: each transaction stays or goes on its own, and order is kept. */
  lemma {:induction false} KeepConcat(a: seq<Transaction>, b: seq<Transaction>, confirm: bool)
    ensures Keep(a + b, confirm) == Keep(a, confirm) + Keep(b, confirm)
    ensures |a| == 1 ==> Keep(a, confirm) == if ParsesAsCreate(a[0]) || (confirm && ParsesAsBuy(a[0])) then a else []
  {
    hide ParsesAsCreate, ParsesAsBuy;
    if a == [] {
      assert a + b == b;
      assert Keep([], confirm) + Keep(b, confirm) == Keep(b, confirm);
    } else {
      KeepConcat(a[1..], b, confirm);
      assert (a + b)[1..] == a[1..] + b;
      var first := if Wanted(a[0], confirm) then [a[0]] else [];
      assert Keep(a + b, confirm) == first + Keep(a[1..] + b, confirm);
      assert first + (Keep(a[1..], confirm) + Keep(b, confirm)) == (first + Keep(a[1..], confirm)) + Keep(b, confirm);
    }
  }

  // ---- a wanted transaction shows a discriminator in its own bytes ---------------------------

  /** The data of instruction `i` lies inside the encoded instruction list. */
  lemma {:induction false} RecordData(buf: seq<Byte>, p: nat, rs: seq<Record>, i: nat) returns (o: nat)
    requires i < |rs| && (forall k :: 0 <= k < |rs| ==> ShortBytesOk(rs[k].first) && ShortBytesOk(rs[k].second))
    requires At(buf, p, EncodeRecords(rs))
    ensures p <= o && o + |rs[i].second| <= p + |EncodeRecords(rs)| && At(buf, o, rs[i].second)
    decreases |rs|
  {
    hide At;
    var r := rs[0];
    AtConcat(buf, p, EncodeRecord(r), EncodeRecords(rs[1..]));
    if i == 0 {
      var a, b := EncodeShortBytes(r.first), EncodeShortBytes(r.second);
      AtConcat(buf, p, r.head, a + b);
      AtConcat(buf, p + |r.head|, a, b);
      AtConcat(buf, p + |r.head| + |a|, EncodeCompact(|r.second|), r.second);
      o := p + |r.head| + |a| + |EncodeCompact(|r.second|)|;
    } else {
      o := RecordData(buf, p + |EncodeRecord(r)|, rs[1..], i - 1);
    }
  }

  lemma BodyData(buf: seq<Byte>, p: nat, b: Body, i: nat) returns (o: nat)
    requires BodyOk(b) && i < |b.instructions| && At(buf, p, EncodeBody(b))
    ensures p + HEADER_LEN + |EncodeShortBlobs(b.keys)| + KEY_LEN <= o
    ensures o + |b.instructions[i].second| <= p + |EncodeBody(b)| && At(buf, o, b.instructions[i].second)
  {
    hide At, EncodeRecords, EncodeShortBlobs;
    BodySplits(buf, p, b);
    var k := p + HEADER_LEN + |EncodeShortBlobs(b.keys)| + KEY_LEN;
    AtConcat(buf, k, EncodeCompact(|b.instructions|), EncodeRecords(b.instructions));
    o := RecordData(buf, k + |EncodeCompact(|b.instructions|)|, b.instructions, i);
  }

  /** Account key `i` lies inside the encoded key list. */
  lemma {:induction false} BlobData(buf: seq<Byte>, p: nat, blobs: seq<seq<Byte>>, i: nat) returns (o: nat)
    requires i < |blobs| && At(buf, p, EncodeBlobs(blobs))
    ensures p <= o && o + |blobs[i]| <= p + |EncodeBlobs(blobs)| && At(buf, o, blobs[i])
    decreases |blobs|
  {
    hide At;
    AtConcat(buf, p, blobs[0], EncodeBlobs(blobs[1..]));
    if i == 0 {
      o := p;
    } else {
      o := BlobData(buf, p + |blobs[0]|, blobs[1..], i - 1);
    }
  }

  lemma BodyKey(buf: seq<Byte>, p: nat, b: Body, i: nat) returns (o: nat)
    requires BodyOk(b) && i < |b.keys| && At(buf, p, EncodeBody(b))
    ensures p <= o && o + KEY_LEN <= p + HEADER_LEN + |EncodeShortBlobs(b.keys)| && At(buf, o, b.keys[i])
  {
    hide At, EncodeBlobs;
    BodySplits(buf, p, b);
    var k := p + HEADER_LEN;
    AtConcat(buf, k, EncodeCompact(|b.keys|), EncodeBlobs(b.keys));
    o := BlobData(buf, k + |EncodeCompact(|b.keys|)|, b.keys, i);
  }

  lemma TransactionData(buf: seq<Byte>, p: nat, t: Transaction, i: nat) returns (o: nat)
    requires TransactionOk(t) && i < |t.message.body.instructions| && At(buf, p, EncodeTransaction(t))
    ensures p <= o && o + |t.message.body.instructions[i].second| <= p + |EncodeTransaction(t)|
    ensures At(buf, o, t.message.body.instructions[i].second)
  {
    hide At, EncodeBody, EncodeShortBlobs, EncodeShortRecords, BodyOk;
    var sigs := EncodeShortBlobs(t.signatures);
    AtConcat(buf, p, sigs, EncodeMessage(t.message));
    match t.message {
      case Legacy(body) =>
        o := BodyData(buf, p + |sigs|, body, i);
      case V0(body, lookups) =>
        AtConcat(buf, p + |sigs|, [V0_PREFIX], EncodeBody(body) + EncodeShortRecords(lookups));
        AtConcat(buf, p + |sigs| + 1, EncodeBody(body), EncodeShortRecords(lookups));
        o := BodyData(buf, p + |sigs| + 1, body, i);
    }
  }

  lemma DiscIsMark(buf: seq<Byte>, o: nat, ix: Record, disc: seq<Byte>, d: nat, confirm: bool)
    requires d < |Searched(confirm)| && Searched(confirm)[d] == disc && HasDisc(ix, disc) && At(buf, o, ix.second)
    ensures Marked(buf, o, confirm)
  {
    assert buf[o..o + |disc|] == buf[o..o + |ix.second|][..|disc|];
    assert At(buf, o, Searched(confirm)[d]);
  }

  /** The bytes of a wanted transaction contain one of the searched discriminators. */
  lemma WantedIsMarked(buf: seq<Byte>, p: nat, t: Transaction, confirm: bool) returns (o: nat)
    requires TransactionOk(t) && At(buf, p, EncodeTransaction(t)) && Wanted(t, confirm)
    ensures p <= o < p + |EncodeTransaction(t)| && Marked(buf, o, confirm)
  {
    hide At, EncodeTransaction, TransactionOk, Marked, ReadableCreate, ReadableBuy;
    var b := t.message.body;
    if ParsesAsCreate(t) {
      var i :| 0 <= i < |b.instructions| && IsCreateIx(b.keys, b.instructions[i]);
      var ix := b.instructions[i];
      o := TransactionData(buf, p, t, i);
      if HasDisc(ix, DISC_CREATE_V2) {
        DiscIsMark(buf, o, ix, DISC_CREATE_V2, 0, confirm);
      } else {
        DiscIsMark(buf, o, ix, DISC_CREATE, 1, confirm);
      }
    } else {
      var i :| 0 <= i < |b.instructions| && IsBuyIx(b.keys, b.instructions[i]);
      var ix := b.instructions[i];
      o := TransactionData(buf, p, t, i);
      if HasDisc(ix, DISC_BUY) {
        DiscIsMark(buf, o, ix, DISC_BUY, 2, confirm);
      } else if HasDisc(ix, DISC_BUY_V2) {
        DiscIsMark(buf, o, ix, DISC_BUY_V2, 3, confirm);
      } else {
        DiscIsMark(buf, o, ix, DISC_BUY_EXACT_SOL_IN, 4, confirm);
      }
    }
  }

  /** A pump instruction written as a buy makes its transaction a buy when it comes first and nothing is created. */
  lemma WrittenBuyIsFound(tx: Transaction, i: nat, disc: seq<Byte>, first: U64, second: U64, rest: seq<Byte>)
    requires disc == DISC_BUY || disc == DISC_BUY_V2 || disc == DISC_BUY_EXACT_SOL_IN
    requires var b := tx.message.body;
             && i < |b.instructions| && IsPump(b.keys, b.instructions[i])
             && b.instructions[i].second == BuyData(disc, first, second, rest) && ResolvesKey(b.keys, b.instructions[i], 2)
             && (forall j :: 0 <= j < |b.instructions| ==> !IsCreateIx(b.keys, b.instructions[j]))
             && (forall j :: 0 <= j < i ==> !IsBuyIx(b.keys, b.instructions[j]))
    ensures ParsesAsBuy(tx) && !ParsesAsCreate(tx) && Wanted(tx, true) && !Wanted(tx, false)
  {
    var b := tx.message.body;
    BuyDataReadsBack(tx, b.instructions[i], disc, first, second, rest);
    hide IsBuyIx, IsCreateIx, BuyData;
    assert IsBuyIx(b.keys, b.instructions[i]) && ReadableBuy(b.keys, b.instructions[i]);
  }
}
