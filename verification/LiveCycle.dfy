/** Waiting for a buy to appear and then to close (`live_cycle` in `position.rs`), over a stream of polls. */
module LiveCycle {
  import opened Prelude

  const KILL_GRACE_MS: nat := 6000

  /** What the node answers about the token account; an error tells nothing. */
  datatype Seen = Exists | Gone | RpcError

  /**
   One turn of the loop. The instants are the clock's readings at the kill check, right after the kill,
   at the grace check and after the account was read, in milliseconds since the cycle started.
   */
  datatype Poll = Poll(checkAt: nat, killAt: nat, graceAt: nat, readAt: nat, killAccepted: bool, seen: Seen)

  datatype Config = Config(buyTimeout: nat, holdCeiling: nat, killAfter: nat, hasKeypair: bool)

  // ---------------------------------------------------------------- the meaning of a stream

  /** The first poll that saw the account, or the length of the stream. */
  function Landing(polls: seq<Poll>): (f: nat)
    ensures f <= |polls|
    ensures forall i :: 0 <= i < f ==> polls[i].seen != Exists
    ensures f < |polls| ==> polls[f].seen == Exists
  {
    if polls == [] then 0 else if polls[0].seen == Exists then 0 else 1 + Landing(polls[1..])
  }

  /** The first poll late enough to kill the nonce, or the length of the stream. */
  function KillTurn(cfg: Config, polls: seq<Poll>): (m: nat)
    ensures m <= |polls|
    ensures forall i :: 0 <= i < m ==> cfg.killAfter == 0 || polls[i].checkAt <= cfg.killAfter
    ensures m < |polls| ==> cfg.killAfter > 0 && polls[m].checkAt > cfg.killAfter
  {
    if polls == [] then 0
    else if cfg.killAfter > 0 && polls[0].checkAt > cfg.killAfter then 0
    else 1 + KillTurn(cfg, polls[1..])
  }

  /** At poll `k` an accepted nonce kill is already older than the grace window. */
  predicate Killed(cfg: Config, polls: seq<Poll>, k: nat)
    requires k < |polls|
  {
    var m := KillTurn(cfg, polls);
    m <= k && m <= Landing(polls) && cfg.hasKeypair && polls[m].killAccepted && polls[k].graceAt - polls[m].killAt > KILL_GRACE_MS
  }

  /** What poll `k` settles, if the cycle gets that far: a landed position, a lost buy, or nothing yet. */
  function Settles(cfg: Config, polls: seq<Poll>, k: nat): Option<bool>
    requires k < |polls|
  {
    var f := Landing(polls);
    if k > f then
      if polls[k].seen == Gone || (polls[k].seen == Exists && polls[k].readAt - polls[f].readAt > cfg.holdCeiling)
      then Some(true) else None
    else if Killed(cfg, polls, k) || (polls[k].seen != Exists && polls[k].readAt > cfg.buyTimeout)
    then Some(false) else None
  }

  // ---------------------------------------------------------------- the loop

  /** The first poll that settles the position, with its verdict; `None` while the loop is still turning. */
  method Cycle(cfg: Config, polls: seq<Poll>) returns (r: Option<(nat, bool)>)
    ensures Verdict(cfg, polls, 0) == if r.Some? then Some(r.value.1) else None
    ensures r.None? ==> forall i :: 0 <= i < |polls| ==> Settles(cfg, polls, i) == None
    ensures r.Some? ==> r.value.0 < |polls| && Settles(cfg, polls, r.value.0) == Some(r.value.1)
    ensures r.Some? ==> forall i :: 0 <= i < r.value.0 ==> Settles(cfg, polls, i) == None
  {
    var landed, killAttempted := false, false;
    var landedAt: Option<nat>, killedAt: Option<nat> := None, None;
    ghost var f, m := Landing(polls), KillTurn(cfg, polls);
    var k := 0;
    while k < |polls|
      invariant k <= |polls|
      invariant forall i :: 0 <= i < k ==> Settles(cfg, polls, i) == None
      invariant Verdict(cfg, polls, 0) == Verdict(cfg, polls, k)
      invariant landed <==> f < k
      invariant landed ==> landedAt == Some(polls[f].readAt)
      invariant killAttempted <==> m < k && m <= f
      invariant killedAt == if m < k && m <= f && cfg.hasKeypair && polls[m].killAccepted then Some(polls[m].killAt) else None
    {
      var poll := polls[k];
      if !landed && !killAttempted && cfg.killAfter > 0 && poll.checkAt > cfg.killAfter {
        killAttempted := true;
        if cfg.hasKeypair && poll.killAccepted {
          killedAt := Some(poll.killAt);
        }
      }
      if !landed && killedAt.Some? && poll.graceAt - killedAt.value > KILL_GRACE_MS {
        return Some((k, false));
      }
      match poll.seen {
        case RpcError =>
          if !landed && poll.readAt > cfg.buyTimeout {
            return Some((k, false));
          }
        case Exists =>
          if !landed {
            landed, landedAt := true, Some(poll.readAt);
          } else if poll.readAt - landedAt.value > cfg.holdCeiling {
            return Some((k, true));
          }
        case Gone =>
          if landed {
            return Some((k, true));
          } else if poll.readAt > cfg.buyTimeout {
            return Some((k, false));
          }
      }
      k := k + 1;
    }
    return None;
  }

  // ---------------------------------------------------------------- what a release means

  /** The answers obtained while the position was being waited for. */
  predicate Observed(polls: seq<Poll>, k: nat, seen: Seen) {
    exists i :: 0 <= i < k && i < |polls| && polls[i].seen == seen
  }

  /** Only an account seen to exist is released as landed, and never on the strength of an RPC error. */
  lemma LandedWasSeen(cfg: Config, polls: seq<Poll>, k: nat)
    requires k < |polls|
    ensures Settles(cfg, polls, k) == Some(true) ==> Observed(polls, k, Exists) && polls[k].seen != RpcError
    ensures Settles(cfg, polls, k) == Some(false) ==> !Observed(polls, k, Exists)
    ensures Observed(polls, k, Exists) && polls[k].seen == Gone ==> Settles(cfg, polls, k) == Some(true)
  {
    var f := Landing(polls);
    if Observed(polls, k, Exists) {
      var i :| 0 <= i < k && i < |polls| && polls[i].seen == Exists;
      assert f <= i;
    } else {
      assert f >= k;
    }
  }

  /** The polls with those that came after the landing and failed left out. */
  function WithoutErrors(polls: seq<Poll>): seq<Poll> {
    if polls == [] then []
    else if polls[0].seen == RpcError then WithoutErrors(polls[1..])
    else [polls[0]] + WithoutErrors(polls[1..])
  }

  /** The verdict that a stream reaches once the account was seen at `landedAt`. */
  function Held(cfg: Config, landedAt: nat, polls: seq<Poll>): Option<bool> {
    if polls == [] then None
    else if polls[0].seen == Gone || (polls[0].seen == Exists && polls[0].readAt - landedAt > cfg.holdCeiling) then Some(true)
    else Held(cfg, landedAt, polls[1..])
  }

  /** The verdict of a whole stream. */
  function Verdict(cfg: Config, polls: seq<Poll>, k: nat): Option<bool>
    requires k <= |polls|
    decreases |polls| - k
  {
    if k == |polls| then None
    else if Settles(cfg, polls, k).Some? then Settles(cfg, polls, k)
    else Verdict(cfg, polls, k + 1)
  }

  lemma {:induction false} VerdictWhileHeld(cfg: Config, polls: seq<Poll>, k: nat)
    requires Landing(polls) < k <= |polls|
    ensures Verdict(cfg, polls, k) == Held(cfg, polls[Landing(polls)].readAt, polls[k..])
    decreases |polls| - k
  {
    if k < |polls| {
      VerdictWhileHeld(cfg, polls, k + 1);
      assert polls[k..][1..] == polls[k + 1..];
    }
  }

  lemma {:induction false} ErrorsWhileHeld(cfg: Config, landedAt: nat, polls: seq<Poll>)
    ensures Held(cfg, landedAt, polls) == Held(cfg, landedAt, WithoutErrors(polls))
  {
    if polls != [] {
      ErrorsWhileHeld(cfg, landedAt, polls[1..]);
      if polls[0].seen != RpcError {
        assert WithoutErrors(polls)[1..] == WithoutErrors(polls[1..]);
      }
    }
  }

  lemma SamePrefix(cfg: Config, a: seq<Poll>, b: seq<Poll>, n: nat)
    requires n <= |a| && n <= |b| && a[..n] == b[..n]
    ensures Landing(a) < n || Landing(b) < n ==> Landing(a) == Landing(b)
    ensures KillTurn(cfg, a) < n || KillTurn(cfg, b) < n ==> KillTurn(cfg, a) == KillTurn(cfg, b)
  {
    forall i | 0 <= i < n ensures a[i] == b[i] {
      assert a[..n][i] == b[..n][i];
    }
  }

  /**
   Once the buy has landed, RPC errors have no influence at all: leaving out every failed poll after the
   landing gives the same verdict.
   */
  lemma ErrorsAfterLandingAreIgnored(cfg: Config, polls: seq<Poll>)
    requires Landing(polls) < |polls|
    ensures var n := Landing(polls) + 1;
            Verdict(cfg, polls[..n] + WithoutErrors(polls[n..]), 0) == Verdict(cfg, polls, 0)
  {
    var n := Landing(polls) + 1;
    var quiet := polls[..n] + WithoutErrors(polls[n..]);
    assert quiet[..n] == polls[..n];
    SamePrefix(cfg, quiet, polls, n);
    forall i | 0 <= i < n ensures Settles(cfg, quiet, i) == Settles(cfg, polls, i) {
      assert quiet[i] == quiet[..n][i] == polls[i];
    }
    SameUntil(cfg, quiet, polls, 0, n);
    VerdictWhileHeld(cfg, polls, n);
    VerdictWhileHeld(cfg, quiet, n);
    assert quiet[n..] == WithoutErrors(polls[n..]);
    ErrorsWhileHeld(cfg, polls[n - 1].readAt, polls[n..]);
    assert quiet[n - 1] == polls[n - 1];
  }

  lemma {:induction false} SameUntil(cfg: Config, a: seq<Poll>, b: seq<Poll>, k: nat, n: nat)
    requires k <= n <= |a| && n <= |b|
    requires forall i :: k <= i < n ==> Settles(cfg, a, i) == Settles(cfg, b, i)
    ensures Verdict(cfg, a, n) == Verdict(cfg, b, n) ==> Verdict(cfg, a, k) == Verdict(cfg, b, k)
    decreases n - k
  {
    if k < n {
      SameUntil(cfg, a, b, k + 1, n);
    }
  }

  // ---------------------------------------------------------------- when exactly a position is released

  predicate FirstSeen(polls: seq<Poll>, i: nat) {
    i < |polls| && polls[i].seen == Exists && forall j :: 0 <= j < i ==> polls[j].seen != Exists
  }

  /** The first poll later than the kill delay, where there is one. */
  predicate FirstLate(cfg: Config, polls: seq<Poll>, m: nat) {
    && m < |polls| && cfg.killAfter > 0 && polls[m].checkAt > cfg.killAfter
    && forall j :: 0 <= j < m ==> polls[j].checkAt <= cfg.killAfter
  }

  /** Landed: seen before, and gone now or still there longer than the hold ceiling after it was first seen. */
  lemma LandedExactly(cfg: Config, polls: seq<Poll>, k: nat)
    requires k < |polls|
    ensures Settles(cfg, polls, k) == Some(true)
       <==> exists i :: 0 <= i < k && FirstSeen(polls, i)
                        && (polls[k].seen == Gone
                            || (polls[k].seen == Exists && polls[k].readAt - polls[i].readAt > cfg.holdCeiling))
  {
    var f := Landing(polls);
    assert f < |polls| ==> FirstSeen(polls, f);
    forall i | 0 <= i < k && FirstSeen(polls, i) ensures i == f {
    }
  }

  /**
   Lost: never seen, and either past the buy timeout without the account now, or more than six seconds after
   an accepted nonce kill, which is tried once, at the first poll later than the kill delay.
   */
  lemma LostExactly(cfg: Config, polls: seq<Poll>, k: nat)
    requires k < |polls|
    ensures Settles(cfg, polls, k) == Some(false)
       <==> && (forall j :: 0 <= j < k ==> polls[j].seen != Exists)
            && ((polls[k].seen != Exists && polls[k].readAt > cfg.buyTimeout)
                || exists m :: 0 <= m <= k && FirstLate(cfg, polls, m) && cfg.hasKeypair && polls[m].killAccepted
                               && polls[k].graceAt - polls[m].killAt > 6_000)
  {
    var f, m := Landing(polls), KillTurn(cfg, polls);
    assert m < |polls| ==> FirstLate(cfg, polls, m);
    forall i | 0 <= i <= k && FirstLate(cfg, polls, i) ensures i == m {
      LateIsKillTurn(cfg, polls, i);
    }
    assert f < k ==> polls[f].seen == Exists;
  }

  lemma LateIsKillTurn(cfg: Config, polls: seq<Poll>, i: nat)
    requires FirstLate(cfg, polls, i)
    ensures i == KillTurn(cfg, polls)
  {
  }
}
