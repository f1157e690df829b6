/** Closing acl2 and cred to anonymous peers when a device becomes operational:
    what the loop of oc_sec_set_post_otm_acl does, and when that is what it is for. */
module Tightening {
  import opened Payload
  import opened AclModel
  import opened CredModel
  import opened DeviceModel

  function Stripped(ace: Ace): seq<AceRes> {
    WithoutHref(WithoutHref(ace.resources, ACL_URI), CRED_URI)
  }

  // The purpose: every open entry loses its acl2 and cred resources, and is dropped when none are left.
  function Tightened(aces: seq<Ace>): (r: seq<Ace>)
    ensures |r| <= |aces|
  {
    if aces == [] then []
    else if !IsOpen(aces[0]) then [aces[0]] + Tightened(aces[1..])
    else if Stripped(aces[0]) == [] then Tightened(aces[1..])
    else [aces[0].(resources := Stripped(aces[0]))] + Tightened(aces[1..])
  }

  // Would tightening change or drop this entry?
  predicate Affected(ace: Ace) {
    IsOpen(ace) && (Stripped(ace) == [] || Stripped(ace) != ace.resources)
  }

  predicate Emptied(ace: Ace) {
    IsOpen(ace) && Stripped(ace) == []
  }

  // The loop's own reading of the list: it stops at the first entry it empties.
  function StopsEarly(aces: seq<Ace>): seq<Ace> {
    if aces == [] then []
    else if !IsOpen(aces[0]) then [aces[0]] + StopsEarly(aces[1..])
    else if Stripped(aces[0]) == [] then aces[1..]
    else [aces[0].(resources := Stripped(aces[0]))] + StopsEarly(aces[1..])
  }

  lemma {:induction false} StopsEarlySkips(aces: seq<Ace>, k: nat)
    requires k <= |aces| && forall j :: 0 <= j < k ==> !IsOpen(aces[j])
    ensures StopsEarly(aces) == aces[..k] + StopsEarly(aces[k..])
    decreases k
  {
    if k > 0 {
      StopsEarlySkips(aces[1..], k - 1);
      assert aces[1..][k - 1..] == aces[k..];
      assert aces[..k] == [aces[0]] + aces[1..][..k - 1];
    } else {
      assert aces[0..] == aces;
    }
  }

  lemma Regroup<T>(a: seq<T>, b: seq<T>, e: T, t: seq<T>)
    ensures (a + b + [e]) + t == a + (b + ([e] + t))
    ensures (a + b) + t == a + (b + t)
  {
  }

  lemma LoopUnfolds(aces: seq<Ace>, i: nat, k: nat)
    requires i <= |aces| && k == FindAce(aces, i, OfConn(ANON_CLEAR), -1, 14)
    ensures k == |aces| ==> PostOtm(aces, i) == aces
    ensures k < |aces| ==> (
              PostOtm(aces, i) == if Stripped(aces[k]) == [] then aces[..k] + aces[k + 1..]
                                  else PostOtm(aces[k := aces[k].(resources := Stripped(aces[k]))], k + 1))
  {
  }

  lemma EarlyStopUnfolds(aces: seq<Ace>, k: nat)
    requires k < |aces| && IsOpen(aces[k])
    ensures StopsEarly(aces[k..]) == if Stripped(aces[k]) == [] then aces[k + 1..]
                                     else [aces[k].(resources := Stripped(aces[k]))] + StopsEarly(aces[k + 1..])
  {
    assert aces[k..][0] == aces[k] && aces[k..][1..] == aces[k + 1..];
  }

  lemma SkipToOpen(aces: seq<Ace>, i: nat, k: nat)
    requires i <= k <= |aces| && forall j :: i <= j < k ==> !IsOpen(aces[j])
    ensures StopsEarly(aces[i..]) == aces[i..k] + StopsEarly(aces[k..])
  {
    hide StopsEarly, IsOpen;
    forall j | 0 <= j < k - i ensures !IsOpen(aces[i..][j]) {
      assert aces[i..][j] == aces[i + j];
    }
    StopsEarlySkips(aces[i..], k - i);
    assert aces[i..][k - i..] == aces[k..] && aces[i..][..k - i] == aces[i..k];
  }

  lemma NothingLeft(aces: seq<Ace>, i: nat)
    requires i <= |aces|
    ensures aces[..i] + (aces[i..|aces|] + StopsEarly(aces[|aces|..])) == aces
  {
    assert StopsEarly(aces[|aces|..]) == [];
  }

  lemma {:induction false} LoopStopsEarly(aces: seq<Ace>, i: nat)
    requires i <= |aces|
    ensures PostOtm(aces, i) == aces[..i] + StopsEarly(aces[i..])
    decreases |aces| - i, 1
  {
    var k := FindAce(aces, i, OfConn(ANON_CLEAR), -1, 14);
    var skipped := aces[i..k];
    hide PostOtm, StopsEarly, Stripped;
    SkipToOpen(aces, i, k);
    LoopUnfolds(aces, i, k);
    assert aces[..k] == aces[..i] + skipped;
    if k == |aces| {
      NothingLeft(aces, i);
    } else {
      EarlyStopUnfolds(aces, k);
      if Stripped(aces[k]) == [] {
        Regroup(aces[..i], skipped, aces[k], aces[k + 1..]);
      } else {
        StripOneAndGoOn(aces, i, k, aces[k].(resources := Stripped(aces[k])), skipped);
      }
    }
  }

  lemma StripOneAndGoOn(aces: seq<Ace>, i: nat, k: nat, stripped: Ace, skipped: seq<Ace>)
    requires i <= k < |aces| && skipped == aces[i..k]
    requires stripped == aces[k].(resources := Stripped(aces[k])) && stripped.resources != [] && IsOpen(aces[k])
    ensures PostOtm(aces[k := stripped], k + 1)
         == aces[..i] + (skipped + ([stripped] + StopsEarly(aces[k + 1..])))
    decreases |aces| - i, 0
  {
    hide PostOtm, StopsEarly, Stripped;
    var next := aces[k := stripped];
    LoopStopsEarly(next, k + 1);
    assert next[k + 1..] == aces[k + 1..];
    assert next[..k + 1] == aces[..i] + skipped + [stripped];
    Regroup(aces[..i], skipped, stripped, StopsEarly(aces[k + 1..]));
  }

  lemma {:induction false} TightenedFixes(aces: seq<Ace>)
    ensures Tightened(aces) == aces <==> forall i :: 0 <= i < |aces| ==> !Affected(aces[i])
  {
    if aces != [] {
      TightenedFixes(aces[1..]);
      assert forall i :: 0 <= i < |aces| ==> aces[i] == if i == 0 then aces[0] else aces[1..][i - 1];
      assert forall i :: 0 <= i < |aces[1..]| ==> aces[1..][i] == aces[i + 1];
      assert aces == [aces[0]] + aces[1..];
      if !Affected(aces[0]) {
        assert Tightened(aces) == [aces[0]] + Tightened(aces[1..]);
        assert Tightened(aces) == aces <==> Tightened(aces[1..]) == aces[1..] by {
          assert Tightened(aces)[1..] == Tightened(aces[1..]);
        }
      } else {
        assert Tightened(aces) != aces;
      }
    }
  }

  lemma {:induction false} EarlyStopAgrees(aces: seq<Ace>)
    ensures StopsEarly(aces) == Tightened(aces)
       <==> !exists j, k :: 0 <= j < k < |aces| && Emptied(aces[j]) && Affected(aces[k])
  {
    if aces != [] {
      var rest := aces[1..];
      EarlyStopAgrees(rest);
      TightenedFixes(rest);
      assert forall i :: 0 <= i < |rest| ==> rest[i] == aces[i + 1];
      if Emptied(aces[0]) {
        if i :| 0 <= i < |rest| && Affected(rest[i]) {
          assert Emptied(aces[0]) && Affected(aces[i + 1]);
        }
        if forall i :: 0 <= i < |rest| ==> !Affected(rest[i]) {
          forall k | 1 <= k < |aces| ensures !Affected(aces[k]) {
            assert aces[k] == rest[k - 1];
          }
        }
      } else {
        var head := if IsOpen(aces[0]) then aces[0].(resources := Stripped(aces[0])) else aces[0];
        assert StopsEarly(aces) == [head] + StopsEarly(rest) && Tightened(aces) == [head] + Tightened(rest);
        assert StopsEarly(aces)[1..] == StopsEarly(rest) && Tightened(aces)[1..] == Tightened(rest);
        if j, k :| 0 <= j < k < |aces| && Emptied(aces[j]) && Affected(aces[k]) {
          assert Emptied(rest[j - 1]) && Affected(rest[k - 1]);
        }
        if j, k :| 0 <= j < k < |rest| && Emptied(rest[j]) && Affected(rest[k]) {
          assert Emptied(aces[j + 1]) && Affected(aces[k + 1]);
        }
      }
    }
  }

  // The loop tightens the whole list exactly when no entry that it empties is
  // followed by one that it should still change.
  lemma LoopTightens(aces: seq<Ace>)
    ensures PostOtm(aces, 0) == Tightened(aces)
       <==> !exists j, k :: 0 <= j < k < |aces| && Emptied(aces[j]) && Affected(aces[k])
  {
    LoopStopsEarly(aces, 0);
    assert aces[0..] == aces && aces[..0] == [];
    EarlyStopAgrees(aces);
  }

  // A list on which the loop stops too soon: the second entry keeps cred open.
  lemma LoopMayStopTooSoon()
    ensures var first := Ace(7, OfConn(ANON_CLEAR), 14, [AceRes(ACL_URI, [], 0, 0)]);
            var second := Ace(8, OfConn(ANON_CLEAR), 14, [AceRes(CRED_URI, [], 0, 0)]);
            PostOtm([first, second], 0) == [second] && Tightened([first, second]) == []
  {
    var first := Ace(7, OfConn(ANON_CLEAR), 14, [AceRes(ACL_URI, [], 0, 0)]);
    var second := Ace(8, OfConn(ANON_CLEAR), 14, [AceRes(CRED_URI, [], 0, 0)]);
    var aces := [first, second];
    LoopStopsEarly(aces, 0);
    assert aces[0..] == aces && aces[..0] == [] && aces[1..] == [second] && [second][1..] == [];
    assert WithoutHref(first.resources, ACL_URI) == [] && Stripped(first) == [];
    assert first.resources[1..] == [] && second.resources[1..] == [];
    assert WithoutHref(second.resources, ACL_URI) == second.resources && Stripped(second) == [];
    assert Tightened([second]) == [];
  }

  lemma {:induction false} WithoutHrefKeepsOthers(resources: seq<AceRes>, href: string, r: AceRes)
    ensures r in WithoutHref(resources, href) <==> r in resources && r.href != href
  {
    if resources != [] {
      WithoutHrefKeepsOthers(resources[1..], href, r);
      assert r in resources <==> r == resources[0] || r in resources[1..];
    }
  }

  // What tightening leaves: a resource entry survives in an open entry exactly when it is neither acl2 nor cred.
  lemma StrippedKeepsOthers(ace: Ace, r: AceRes)
    ensures r in Stripped(ace) <==> r in ace.resources && r.href != ACL_URI && r.href != CRED_URI
  {
    WithoutHrefKeepsOthers(ace.resources, ACL_URI, r);
    WithoutHrefKeepsOthers(WithoutHref(ace.resources, ACL_URI), CRED_URI, r);
  }

  // Starting from the default list the loop always does its whole job: the list has one open entry.
  lemma DefaultIsTightened(core: seq<Resource>, c: Chance)
    ensures PostOtm(DefaultAces(core, c), 0) == Tightened(DefaultAces(core, c))
  {
    DefaultAcesShape(core, c);
    LoopTightens(DefaultAces(core, c));
  }
}
