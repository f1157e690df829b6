/** The access control list after a reset and after tightening, and what it lets
    anonymous peers do to the security resources. */
module DefaultAcl {
  import opened Payload
  import opened AclModel
  import opened CredModel
  import opened DeviceModel
  import opened AccessControl
  import opened Tightening

  const IF_BASELINE: bv8 := 2

  const DOXM_RES := Resource(Some(OCF_SEC_DOXM), DOXM_URI, ["oic.r.doxm"], IF_BASELINE, true, false)
  const PSTAT_RES := Resource(Some(OCF_SEC_PSTAT), PSTAT_URI, ["oic.r.pstat"], IF_BASELINE, true, false)
  const ACL_RES := Resource(Some(OCF_SEC_ACL), ACL_URI, ["oic.r.acl2"], IF_BASELINE, true, true)
  const CRED_RES := Resource(Some(OCF_SEC_CRED), CRED_URI, ["oic.r.cred"], IF_BASELINE, true, true)

  predicate IsSecurityUri(uri: string) {
    uri == DOXM_URI || uri == PSTAT_URI || uri == ACL_URI || uri == CRED_URI
  }

  function SecurityRes(i: nat): Resource
    requires OCF_SEC_DOXM <= i <= OCF_SEC_CRED
  {
    if i == OCF_SEC_DOXM then DOXM_RES else if i == OCF_SEC_PSTAT then PSTAT_RES
    else if i == OCF_SEC_ACL then ACL_RES else CRED_RES
  }

  // The core resource table: the four security resources in their places, and
  // nothing else at their addresses. Unused slots have an empty address.
  predicate CoreTable(core: seq<Resource>) {
    && |core| == OCF_D + 1
    && forall i :: 0 <= i < |core| ==>
         if OCF_SEC_DOXM <= i <= OCF_SEC_CRED then core[i] == SecurityRes(i) else !IsSecurityUri(core[i].uri)
  }

  // The entries of the first n security resources.
  function SecurityEntries(n: nat): seq<AceRes>
    requires n <= 4
  {
    if n == 0 then [] else SecurityEntries(n - 1) + [NewRes(CorePattern(SecurityRes(OCF_SEC_DOXM + n - 1)))]
  }

  function SecurityCount(n: nat): nat {
    if n <= OCF_SEC_DOXM then 0 else if n > OCF_SEC_CRED then 4 else n - OCF_SEC_DOXM
  }

  // One read entry about other resources, and one entry with exactly the security resources so far.
  predicate Layout(aces: seq<Ace>, security: seq<AceRes>) {
    && DefaultShape(aces)
    && (forall i :: 0 <= i < |aces| && aces[i].aceid == 1 ==>
          forall j :: 0 <= j < |aces[i].resources| ==>
            aces[i].resources[j].href != "" && !IsSecurityUri(aces[i].resources[j].href))
    && (forall i :: 0 <= i < |aces| && aces[i].aceid == 2 ==> aces[i].resources == security)
    && (security != [] ==> exists i :: 0 <= i < |aces| && aces[i].aceid == 2)
  }

  lemma OtherHrefDiffers(res: AceRes, r: Resource)
    requires r.uri != "" && r.uri[0] == '/' && res.href != "" && res.href != r.uri
    ensures !ResMatches(res, CorePattern(r))
  {
    assert res.href[0..] == res.href;
  }

  lemma {:induction false} SecurityEntriesHrefs(n: nat)
    requires n <= 4
    ensures |SecurityEntries(n)| == n
    ensures forall j :: 0 <= j < n ==> SecurityEntries(n)[j] == NewRes(CorePattern(SecurityRes(OCF_SEC_DOXM + j)))
  {
    if n > 0 {
      SecurityEntriesHrefs(n - 1);
    }
  }

  lemma AddOtherKeepsLayout(aces: seq<Ace>, security: seq<AceRes>, r: Resource, i: nat, c: Chance)
    requires Plentiful(c) && Layout(aces, security) && !IsSecurityUri(r.uri) && (i < OCF_SEC_DOXM || i > OCF_SEC_CRED)
    ensures Layout(AddDefaultAce(aces, r, i, c), security)
  {
    if r.uri != "" {
      var k := FindAce(aces, 0, OfConn(ANON_CLEAR), 1, 2);
      var after := AddDefaultAce(aces, r, i, c);
      hide ResMatches;
      assert k == |aces| ==> forall j :: 0 <= j < |aces| ==> aces[j].aceid != 1;
      if security != [] {
        var s :| 0 <= s < |aces| && aces[s].aceid == 2;
        assert after[s].aceid == 2;
      }
    }
  }

  lemma AddSecurityExtendsLayout(aces: seq<Ace>, n: nat, c: Chance)
    requires Plentiful(c) && n < 4 && Layout(aces, SecurityEntries(n))
    ensures Layout(AddDefaultAce(aces, SecurityRes(OCF_SEC_DOXM + n), OCF_SEC_DOXM + n, c), SecurityEntries(n + 1))
  {
    var r := SecurityRes(OCF_SEC_DOXM + n);
    var k := FindAce(aces, 0, OfConn(ANON_CLEAR), 2, 14);
    var after := AddDefaultAce(aces, r, OCF_SEC_DOXM + n, c);
    SecurityEntriesHrefs(n);
    forall j | 0 <= j < n ensures !ResMatches(SecurityEntries(n)[j], CorePattern(r)) {
      OtherHrefDiffers(SecurityEntries(n)[j], r);
    }
    var res := NewRes(CorePattern(r));
    assert SecurityEntries(n + 1) == SecurityEntries(n) + [res];
    assert n == 0 ==> SecurityEntries(n + 1) == [res];
    hide ResMatches, NewRes, CorePattern, SecurityEntries, IsSecurityUri, Overlap;
    if k == |aces| {
      assert forall j :: 0 <= j < |aces| ==> aces[j].aceid != 2;
      assert SecurityEntries(n) == [];
      assert after == aces + [Ace(2, OfConn(ANON_CLEAR), 14, [res])];
    } else {
      assert after == aces[k := aces[k].(resources := SecurityEntries(n) + [res])];
    }
    assert after[k].aceid == 2 && after[k].resources == SecurityEntries(n + 1);
  }

  lemma NoEntries(c: Chance)
    ensures Layout(DefaultAces([], c), SecurityEntries(SecurityCount(0)))
  {
  }

  lemma OneSlotMore(core: seq<Resource>, i: nat, c: Chance)
    requires Plentiful(c) && CoreTable(core) && i < |core|
    requires Layout(DefaultAces(core[..i], c), SecurityEntries(SecurityCount(i)))
    ensures Layout(DefaultAces(core[..i + 1], c), SecurityEntries(SecurityCount(i + 1)))
  {
    hide Layout, AddDefaultAce, DefaultAces, SecurityEntries, Plentiful;
    DefaultAcesOneMore(core, i, c);
    if OCF_SEC_DOXM <= i <= OCF_SEC_CRED {
      AddSecurityExtendsLayout(DefaultAces(core[..i], c), i - OCF_SEC_DOXM, c);
    } else {
      AddOtherKeepsLayout(DefaultAces(core[..i], c), SecurityEntries(SecurityCount(i)), core[i], i, c);
    }
  }

  lemma {:induction false} DefaultLayout(core: seq<Resource>, n: nat, c: Chance)
    requires Plentiful(c) && CoreTable(core) && n <= |core|
    ensures Layout(DefaultAces(core[..n], c), SecurityEntries(SecurityCount(n)))
  {
    hide *;
    if n == 0 {
      assert core[..0] == [];
      NoEntries(c);
    } else {
      DefaultLayout(core, n - 1, c);
      OneSlotMore(core, n - 1, c);
    }
  }

  // ----- after tightening

  lemma {:induction false} TightenedMaps(aces: seq<Ace>)
    requires forall i :: 0 <= i < |aces| && IsOpen(aces[i]) ==> Stripped(aces[i]) != []
    ensures |Tightened(aces)| == |aces|
    ensures forall i :: 0 <= i < |aces| ==>
              Tightened(aces)[i] == if IsOpen(aces[i]) then aces[i].(resources := Stripped(aces[i])) else aces[i]
  {
    if aces != [] {
      assert forall i :: 0 <= i < |aces[1..]| ==> aces[1..][i] == aces[i + 1];
      TightenedMaps(aces[1..]);
    }
  }

  lemma {:induction false} WithoutHrefConcat(a: seq<AceRes>, b: seq<AceRes>, href: string)
    ensures WithoutHref(a + b, href) == WithoutHref(a, href) + WithoutHref(b, href)
  {
    if a == [] {
      assert a + b == b;
    } else {
      WithoutHrefConcat(a[1..], b, href);
      assert (a + b)[1..] == a[1..] + b && (a + b)[0] == a[0];
    }
  }

  lemma WithoutHrefOne(res: AceRes, href: string)
    ensures WithoutHref([res], href) == if res.href == href then [] else [res]
  {
    assert [res][1..] == [];
  }

  lemma {:induction false} StripSecurityEntries(n: nat)
    requires n <= 4
    ensures WithoutHref(WithoutHref(SecurityEntries(n), ACL_URI), CRED_URI) == SecurityEntries(if n < 2 then n else 2)
  {
    if n > 0 {
      StripSecurityEntries(n - 1);
      var last := NewRes(CorePattern(SecurityRes(OCF_SEC_DOXM + n - 1)));
      WithoutHrefConcat(SecurityEntries(n - 1), [last], ACL_URI);
      WithoutHrefOne(last, ACL_URI);
      WithoutHrefConcat(WithoutHref(SecurityEntries(n - 1), ACL_URI), WithoutHref([last], ACL_URI), CRED_URI);
      WithoutHrefOne(last, CRED_URI);
    }
  }

  // What tightening does to each entry keeps the shape of the list.
  lemma MappedLayout(aces: seq<Ace>, after: seq<Ace>, security: seq<AceRes>, left: seq<AceRes>)
    requires Layout(aces, security) && security != [] && |after| == |aces|
    requires forall i :: 0 <= i < |aces| ==>
               after[i] == if aces[i].aceid == 2 then aces[i].(resources := left) else aces[i]
    ensures Layout(after, left)
  {
    hide IsSecurityUri;
    var s :| 0 <= s < |aces| && aces[s].aceid == 2;
    assert after[s].aceid == 2;
  }

  lemma TightenedLayout(aces: seq<Ace>)
    requires Layout(aces, SecurityEntries(4))
    ensures Layout(Tightened(aces), SecurityEntries(2))
  {
    StripSecurityEntries(4);
    SecurityEntriesHrefs(2);
    SecurityEntriesHrefs(4);
    hide WithoutHref, SecurityEntries, NewRes, CorePattern, SecurityRes, Tightened;
    TightenedMaps(aces);
    MappedLayout(aces, Tightened(aces), SecurityEntries(4), SecurityEntries(2));
  }

  // ----- what anonymous peers may do

  lemma BaselineMasks()
    ensures Overlap(14, NeededBits(Get)) && Overlap(14, NeededBits(Post)) && InterfacesOverlap(IF_BASELINE, IF_BASELINE)
  {
  }

  lemma OwnEntryMatches(i: nat, a: Access)
    requires OCF_SEC_DOXM <= i <= OCF_SEC_CRED && a.resource == SecurityRes(i) && a.interfaces == IF_BASELINE
    ensures ResMatches(NewRes(CorePattern(SecurityRes(i))), PatternOf(a))
  {
    BaselineMasks();
    hide Overlap, InterfacesOverlap;
    var res, p := NewRes(CorePattern(SecurityRes(i))), PatternOf(a);
    assert res.href[0..] == res.href;
    assert TypeListed(p.types.value[0], res.types) by {
      assert res.types[0] == p.types.value[0];
    }
  }

  lemma AnyoneIsAnonymous(d: Device, a: Access)
    ensures SubjectApplies(d, a, OfConn(ANON_CLEAR))
  {
  }

  lemma OpenAceGrants(d: Device, a: Access, k: nat, j: nat)
    requires k < |d.aces| && j < |d.aces[k].resources| && ResMatches(d.aces[k].resources[j], PatternOf(a))
    requires d.aces[k].subject == OfConn(ANON_CLEAR) && d.aces[k].permission == 14 && IsDcr(a.resource)
    requires a.verb == Get || a.verb == Post
    ensures Granted(d, a)
  {
    AnyoneIsAnonymous(d, a);
    BaselineMasks();
    hide ResMatches, Overlap, NeededBits, PatternOf, SubjectApplies, IsRowner;
    assert AnyResMatches(d.aces[k].resources, PatternOf(a));
    assert AceGrants(d, a, d.aces[k]);
  }

  lemma SecurityAce(aces: seq<Ace>, security: seq<AceRes>) returns (k: nat)
    requires Layout(aces, security) && security != []
    ensures k < |aces| && aces[k].resources == security && aces[k].subject == OfConn(ANON_CLEAR) && aces[k].permission == 14
  {
    k :| 0 <= k < |aces| && aces[k].aceid == 2;
  }

  // Whoever asks may read and write the first n security resources.
  lemma LayoutOpens(d: Device, n: nat, i: nat, a: Access)
    requires n <= 4 && Layout(d.aces, SecurityEntries(n)) && OCF_SEC_DOXM <= i < OCF_SEC_DOXM + n
    requires a.resource == SecurityRes(i) && a.interfaces == IF_BASELINE && (a.verb == Get || a.verb == Post)
    ensures Granted(d, a)
  {
    hide ResMatches, PatternOf, Granted, SecurityRes, SecurityEntries, Layout, NewRes, CorePattern;
    SecurityEntriesHrefs(n);
    OwnEntryMatches(i, a);
    SecurityIsDcr(i);
    var k := SecurityAce(d.aces, SecurityEntries(n));
    assert SecurityEntries(n)[i - OCF_SEC_DOXM] == NewRes(CorePattern(SecurityRes(i)));
    OpenAceGrants(d, a, k, i - OCF_SEC_DOXM);
  }

  lemma SecurityIsDcr(i: nat)
    requires OCF_SEC_DOXM <= i <= OCF_SEC_CRED
    ensures IsDcr(SecurityRes(i))
  {
  }

  // Nobody but its resource owner reaches a security resource beyond the first n.
  lemma LayoutCloses(d: Device, n: nat, i: nat, a: Access)
    requires n <= 4 && Layout(d.aces, SecurityEntries(n)) && OCF_SEC_DOXM + n <= i <= OCF_SEC_CRED
    requires a.resource == SecurityRes(i)
    ensures Granted(d, a) <==> a.peer.Some? && IsRowner(d, a.peer.value.uuid, a.resource.uri)
  {
    SecurityEntriesHrefs(n);
    forall k, j | 0 <= k < |d.aces| && 0 <= j < |d.aces[k].resources|
      ensures !ResMatches(d.aces[k].resources[j], PatternOf(a))
    {
      var res := d.aces[k].resources[j];
      assert res.href != "" && res.href != a.resource.uri;
      assert res.href[0..] == res.href;
    }
  }
}
