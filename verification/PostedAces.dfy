/** What a POST to acl2 lets its subject do afterwards: the entry as it was posted, against the
    access decision (security/oc_acl.c). */
module PostedAces {
  import opened Payload
  import opened AclModel
  import opened CredModel
  import opened DeviceModel
  import opened AccessControl
  import opened AccessTable

  // ----- the posted resources

  function Href(p: Pattern): string {
    if p.href.Some? then p.href.value else ""
  }

  function Types(p: Pattern): seq<string> {
    if p.types.Some? then p.types.value else []
  }

  // 0xFFFF stands for "no wildcard".
  function Wildcard(p: Pattern): bv16 {
    if p.wildcard == 0xFFFF then 0 else p.wildcard
  }

  // The posted resource is for this request.
  predicate PatternIsFor(p: Pattern, a: Access) {
    IsFor(Href(p), Types(p), p.interfaces, Wildcard(p), a)
  }

  // The search for a resource that is already there takes x for y: all criteria that both carry
  // agree, and there is one. "No wildcard" on the part of y agrees with every wildcard.
  predicate TakenFor(x: Pattern, y: Pattern) {
    var href, types := Href(x) != "" && y.href.Some?, Types(x) != [] && y.types.Some?;
    var both, wild := x.interfaces != 0 && y.interfaces != 0, Wildcard(x) != 0 && y.wildcard != 0;
    && (href ==> SameAddress(Href(x), y.href.value))
    && (types ==> SharesType(Types(x), y.types.value))
    && (both ==> x.interfaces & y.interfaces != 0)
    && (wild ==> if y.wildcard == 0x111 then Wildcard(x) == 0x111 else Wildcard(x) & y.wildcard != 0)
    && (href || types || both || wild)
  }

  // The posted resources that are stored: those that no stored one is taken for.
  function Kept(ps: seq<Pattern>): seq<Pattern> {
    if ps == [] then []
    else
      var before, last := Kept(ps[..|ps| - 1]), ps[|ps| - 1];
      if exists i :: 0 <= i < |before| && TakenFor(before[i], last) then before else before + [last]
  }

  predicate KeptIsFor(e: AceEntry, a: Access) {
    exists i :: 0 <= i < |Kept(e.resources)| && PatternIsFor(Kept(e.resources)[i], a)
  }

  // The list without the entry that the posted one replaces.
  function Others(aces: seq<Ace>, e: AceEntry): seq<Ace> {
    if e.aceid == -1 then aces else RemoveAce(aces, e.aceid)
  }

  // An identifier is posted, or it is to be chosen and no entry has the same subject and permission.
  predicate IsSeparate(aces: seq<Ace>, e: AceEntry) {
    && DistinctAceIds(aces)
    && (e.aceid == -1 ==>
          forall i :: 0 <= i < |aces| ==> aces[i].subject != e.subject || (e.permission != 0 && aces[i].permission != e.permission))
  }

  // No entry has the identifier; one is to be chosen when none of the same subject and permission is there.
  predicate IsNewEntry(aces: seq<Ace>, e: AceEntry) {
    if e.aceid == -1 then
      forall i :: 0 <= i < |aces| ==> aces[i].subject != e.subject || (e.permission != 0 && aces[i].permission != e.permission)
    else forall i :: 0 <= i < |aces| ==> aces[i].aceid != e.aceid
  }

  // ----- the list after the POST

  predicate IsStored(res: AceRes, p: Pattern) {
    res == AceRes(Href(p), Types(p), p.interfaces, Wildcard(p))
  }

  // One resource for each posted one that is kept.
  predicate AreStored(resources: seq<AceRes>, ps: seq<Pattern>) {
    |resources| == |ps| && forall i :: 0 <= i < |ps| ==> IsStored(resources[i], ps[i])
  }

  lemma StoredAsPosted(p: Pattern)
    ensures IsStored(NewRes(p), p)
  {
  }

  lemma AddressesAgree(res: AceRes, x: Pattern, y: Pattern)
    requires IsStored(res, x)
    ensures HrefApplies(res, y) <==> Href(x) != "" && y.href.Some?
    ensures HrefApplies(res, y) ==> (HrefAgrees(res, y) <==> SameAddress(Href(x), y.href.value))
  {
    if HrefApplies(res, y) {
      AddressAgrees(res.href, y.href.value);
    }
  }

  lemma TypesAreShared(res: AceRes, x: Pattern, y: Pattern)
    requires IsStored(res, x)
    ensures TypesApply(res, y) <==> Types(x) != [] && y.types.Some?
    ensures TypesApply(res, y) ==> (TypesAgree(res, y) <==> SharesType(Types(x), y.types.value))
  {
    if TypesApply(res, y) {
      TypesAgreeToo(res.types, y.types.value);
    }
  }

  lemma InterfacesAgree(res: AceRes, x: Pattern, y: Pattern)
    requires IsStored(res, x)
    ensures InterfacesApply(res, y) <==> x.interfaces != 0 && y.interfaces != 0
    ensures InterfacesOverlap(y.interfaces, res.interfaces) <==> x.interfaces & y.interfaces != 0
  {
    InterfacesCommute(x.interfaces, y.interfaces);
    hide InterfacesOverlap, Href, Types, Wildcard;
  }

  lemma WildcardsAgree(res: AceRes, x: Pattern, y: Pattern)
    requires IsStored(res, x)
    ensures WildcardApplies(res, y) <==> Wildcard(x) != 0 && y.wildcard != 0
    ensures WildcardAgrees(res, y)
       <==> if y.wildcard == 0x111 then Wildcard(x) == 0x111 else Wildcard(x) & y.wildcard != 0
  {
    WildcardsCommute(Wildcard(x), y.wildcard);
    hide Overlap, Href, Types, Wildcard;
  }

  lemma TakenForAgrees(res: AceRes, x: Pattern, y: Pattern)
    requires IsStored(res, x)
    ensures ResMatches(res, y) <==> TakenFor(x, y)
  {
    AddressesAgree(res, x, y);
    TypesAreShared(res, x, y);
    InterfacesAgree(res, x, y);
    WildcardsAgree(res, x, y);
    hide IsStored, HrefApplies, HrefAgrees, TypesApply, TypesAgree, InterfacesApply, InterfacesOverlap, WildcardApplies,
         WildcardAgrees, Wildcard, SharesType, SameAddress, Href, Types;
  }

  lemma WildcardsCommute(x: bv16, y: bv16)
    ensures Overlap(y, x) <==> x & y != 0
  {
    assert x & y == y & x;
  }

  // One posted resource more, when the entry stands at the end of the list.
  lemma OneResource(base: seq<Ace>, ace: Ace, e: AceEntry, done: seq<Pattern>, p: Pattern, c: Chance, n: nat)
    returns (more: Ace)
    requires Plentiful(c) && IsNewEntry(base, e) && AreStored(ace.resources, Kept(done))
    requires ace.subject == e.subject && ace.permission == e.permission && (e.aceid != -1 ==> ace.aceid == e.aceid)
    ensures more == ace.(resources := more.resources) && AreStored(more.resources, Kept(done + [p]))
    ensures UpdateRes(base + [ace], e.subject, p, e.aceid, e.permission, c, n) == base + [more]
  {
    var aces := base + [ace];
    AtTheEnd(base, ace, e);
    assert (done + [p])[..|done|] == done;
    forall i | 0 <= i < |ace.resources| ensures ResMatches(ace.resources[i], p) <==> TakenFor(Kept(done)[i], p) {
      TakenForAgrees(ace.resources[i], Kept(done)[i], p);
    }
    StoredAsPosted(p);
    hide ResMatches, TakenFor, NewRes, IsStored, IsNewEntry;
    assert c.alloc(2 * n + 1);
    more := if AnyResMatches(ace.resources, p) then ace else ace.(resources := ace.resources + [NewRes(p)]);
    assert aces[|base| := more] == base + [more];
    assert AreStored(more.resources, Kept(done + [p]));
  }

  lemma AtTheEnd(base: seq<Ace>, ace: Ace, e: AceEntry)
    requires IsNewEntry(base, e) && ace.subject == e.subject && ace.permission == e.permission
    requires e.aceid != -1 ==> ace.aceid == e.aceid
    ensures FindAce(base + [ace], 0, e.subject, e.aceid, e.permission) == |base|
    ensures FindAce(base, 0, e.subject, e.aceid, e.permission) == |base|
  {
    var aces := base + [ace];
    var k := FindAce(aces, 0, e.subject, e.aceid, e.permission);
    assert AceMatches(aces[|base|], e.subject, e.aceid, e.permission);
    assert forall i :: 0 <= i < |base| ==> aces[i] == base[i];
  }

  lemma {:induction false} TheRest(base: seq<Ace>, ace: Ace, e: AceEntry, done: seq<Pattern>, rest: seq<Pattern>, c: Chance, n: nat)
    returns (more: Ace)
    requires Plentiful(c) && IsNewEntry(base, e) && AreStored(ace.resources, Kept(done))
    requires ace.subject == e.subject && ace.permission == e.permission && (e.aceid != -1 ==> ace.aceid == e.aceid)
    ensures more == ace.(resources := more.resources) && AreStored(more.resources, Kept(done + rest))
    ensures ApplyPatterns(AclAcc(base + [ace], n), e, rest, c).aces == base + [more]
    decreases |rest|
  {
    hide UpdateRes, AreStored, Kept, IsNewEntry, Plentiful;
    if rest == [] {
      assert done + rest == done;
      more := ace;
    } else {
      var next := OneResource(base, ace, e, done, rest[0], c, n);
      more := TheRest(base, next, e, done + [rest[0]], rest[1..], c, n + 1);
      assert done + [rest[0]] + rest[1..] == done + rest;
    }
  }

  // The new entry with its first resource.
  lemma FirstResource(base: seq<Ace>, e: AceEntry, p: Pattern, c: Chance, n: nat) returns (ace: Ace)
    requires Plentiful(c) && IsNewEntry(base, e)
    ensures ace.subject == e.subject && ace.permission == e.permission && (e.aceid != -1 ==> ace.aceid == e.aceid)
    ensures ace.aceid !in AceIds(base) && AreStored(ace.resources, Kept([p]))
    ensures UpdateRes(base, e.subject, p, e.aceid, e.permission, c, n) == base + [ace]
  {
    var id := if e.aceid == -1 then c.id(AceIds(base)) else e.aceid;
    ace := Ace(id, e.subject, e.permission, [NewRes(p)]);
    AtTheEnd(base, ace, e);
    StoredAsPosted(p);
    assert [p][..0] == [];
    assert Kept([p]) == [p];
    assert c.alloc(2 * n) && c.alloc(2 * n + 1);
  }

  // The entry is stored at the end of the list, with the resources that are kept.
  predicate IsPosted(before: seq<Ace>, after: seq<Ace>, e: AceEntry) {
    if e.resources == [] then after == before
    else
      && |after| == |before| + 1 && after[..|before|] == before
      && var ace := after[|before|];
      && ace.subject == e.subject && ace.permission == e.permission && ace.aceid !in AceIds(before)
      && (e.aceid != -1 ==> ace.aceid == e.aceid) && AreStored(ace.resources, Kept(e.resources))
  }

  lemma AppliedIsPosted(aces: seq<Ace>, e: AceEntry, c: Chance)
    requires Plentiful(c) && IsNewEntry(aces, e)
    ensures IsPosted(aces, ApplyPatterns(AclAcc(aces, 0), e, e.resources, c).aces, e)
  {
    if e.resources != [] {
      var p, rest := e.resources[0], e.resources[1..];
      var ace := FirstResource(aces, e, p, c, 0);
      hide UpdateRes, AreStored, Kept, IsNewEntry, Plentiful;
      var more := TheRest(aces, ace, e, [p], rest, c, 1);
      assert [p] + rest == e.resources;
    }
  }

  function PostOf(e: AceEntry): Request {
    AclPost([Prop("aclist2", ObjectArray([e]))])
  }

  lemma OthersAreOther(aces: seq<Ace>, e: AceEntry)
    requires IsSeparate(aces, e)
    ensures IsNewEntry(Others(aces, e), e)
  {
    if e.aceid != -1 {
      RemoveAceDropsId(aces, e.aceid);
    }
  }

  lemma PostedList(d: Device, e: AceEntry, core: seq<Resource>, c: Chance)
    requires Plentiful(c) && d.pstat.s != 3 && IsSeparate(d.aces, e)
    ensures var (after, status) := Step(d, PostOf(e), core, c);
            status == Changed && after == d.(aces := after.aces) && IsPosted(Others(d.aces, e), after.aces, e)
  {
    OthersAreOther(d.aces, e);
    AppliedIsPosted(Others(d.aces, e), e, c);
    hide ApplyPatterns, IsPosted, IsNewEntry, Plentiful, IsSeparate;
    var rep := PostOf(e).acl;
    assert rep[1..] == [] && [e][1..] == [];
    var start := AclState(AclAcc(d.aces, 0), d.aclRowner);
    assert ApplyAceEntries(start.acc, [e], c) == ApplyAceEntry(start.acc, e, c);
    assert ApplyAcl(start, rep, c) == start.(acc := ApplyAceEntry(start.acc, e, c));
  }

  // ----- what it grants

  lemma NewEntryIsFor(ace: Ace, e: AceEntry, a: Access)
    requires AreStored(ace.resources, Kept(e.resources))
    ensures EntryIsFor(ace, a) <==> KeptIsFor(e, a)
  {
    hide IsFor, Kept;
    forall i | 0 <= i < |ace.resources| ensures ResIsFor(ace.resources[i], a) <==> PatternIsFor(Kept(e.resources)[i], a) {
      assert IsStored(ace.resources[i], Kept(e.resources)[i]);
    }
  }

  // After the POST, and whatever else happens to the device as long as the list stays, a request is
  // granted exactly when the other entries grant it, as they did before, or when it is in reach, the entry's subject stands for
  // it, the entry permits the verb, and one of the posted resources that were kept is for it.
  lemma PostedEntryGrants(d: Device, e: AceEntry, core: seq<Resource>, c: Chance, v: Device, a: Access)
    requires Plentiful(c) && d.pstat.s != 3 && IsSeparate(d.aces, e)
    requires v.aces == Step(d, PostOf(e), core, c).0.aces
    ensures Granted(v, a)
       <==> || Granted(v.(aces := Others(d.aces, e)), a)
            || (InReach(v, a.resource) && StandsFor(e.subject, v.creds, a) && Permits(e.permission, a.verb) && KeptIsFor(e, a))
  {
    PostedList(d, e, core, c);
    hide Step, Granted, Kept, AreStored, IsSeparate, StandsFor, EntryIsFor, Permits, Plentiful, KeptIsFor, Others;
    var base := Others(d.aces, e);
    if e.resources == [] {
      NothingKept(e, a);
      assert v == v.(aces := base);
    } else {
      var last := v.aces[|base|];
      assert v.aces == base + [last];
      OneEntryMore(v, base, last, a);
      NewEntryIsFor(last, e, a);
    }
  }

  lemma OneEntryMore(v: Device, base: seq<Ace>, last: Ace, a: Access)
    requires v.aces == base + [last]
    ensures Granted(v, a) <==> Granted(v.(aces := base), a) || (InReach(v, a.resource) && Lets(v, last, a))
  {
    var w := v.(aces := base);
    GrantedLiterally(v, a);
    GrantedLiterally(w, a);
    hide Granted, StandsFor, EntryIsFor, Permits, IsConfiguration;
    assert v.aces[|base|] == last && forall i :: 0 <= i < |base| ==> v.aces[i] == base[i];
    assert forall i :: 0 <= i < |base| ==> (Lets(v, v.aces[i], a) <==> Lets(w, w.aces[i], a));
  }

  lemma NothingKept(e: AceEntry, a: Access)
    requires e.resources == []
    ensures !KeptIsFor(e, a)
  {
  }

  // ----- which resources are kept

  lemma {:induction false} AllKept(ps: seq<Pattern>)
    requires forall i, j :: 0 <= i < j < |ps| ==> !TakenFor(ps[i], ps[j])
    ensures Kept(ps) == ps
  {
    hide TakenFor;
    if ps != [] {
      var init := ps[..|ps| - 1];
      assert forall i :: 0 <= i < |init| ==> init[i] == ps[i];
      AllKept(init);
      assert ps == init + [ps[|ps| - 1]];
    }
  }

  // Resources with addresses of their own are all kept, and so is a single one.
  lemma AddressedAreKept(ps: seq<Pattern>)
    requires forall i :: 0 <= i < |ps| ==> ps[i].href.Some? && ps[i].href.value != "" && ps[i].href.value[0] == '/'
    requires forall i, j :: 0 <= i < j < |ps| ==> ps[i].href != ps[j].href
    ensures Kept(ps) == ps
  {
    forall i, j | 0 <= i < j < |ps| ensures !TakenFor(ps[i], ps[j]) {
      assert !SameAddress(Href(ps[i]), ps[j].href.value);
    }
    AllKept(ps);
  }

  // With one resource posted, everything it is for is granted to the subject.
  lemma OnePostedResource(d: Device, e: AceEntry, p: Pattern, core: seq<Resource>, c: Chance, v: Device, a: Access)
    requires Plentiful(c) && d.pstat.s != 3 && IsSeparate(d.aces, e) && e.resources == [p]
    requires v.aces == Step(d, PostOf(e), core, c).0.aces && v.pstat.s == 3
    requires PatternIsFor(p, a) && StandsFor(e.subject, v.creds, a) && Permits(e.permission, a.verb)
    ensures Granted(v, a)
  {
    PostedEntryGrants(d, e, core, c, v, a);
    AllKept([p]);
    assert Kept(e.resources)[0] == p;
  }

  // An address alone is for the resource there; types alone are for resources that have one of them
  // before a star; interfaces alone for requests by one of them.
  lemma PlainPatterns(href: string, types: seq<string>, interfaces: bv8, a: Access)
    requires a.resource.uri != "" && a.resource.uri[0] == '/' && href != "" && types != [] && interfaces != 0
    ensures PatternIsFor(Pattern(Some(href), None, 0, 0xFFFF), a) <==> href == a.resource.uri
    ensures PatternIsFor(Pattern(None, Some(types), 0, 0xFFFF), a)
       <==> exists i, j :: 0 <= i < |a.resource.types| && 0 <= j < |types| && a.resource.types[i] == types[j]
                        && forall k :: 0 <= k <= j ==> types[k] != "*"
    ensures PatternIsFor(Pattern(None, None, interfaces, 0xFFFF), a) <==> interfaces & a.interfaces != 0
  {
    assert a.interfaces == 0 ==> interfaces & a.interfaces == 0;
  }

  // "*" is for all resources but those for configuration, "+" for the discoverable ones, "-" for the
  // discoverable ones that are open to insecure connections.
  lemma WildcardPatterns(a: Access)
    ensures PatternIsFor(Pattern(None, None, 0, 0x111), a) <==> !IsConfiguration(a.resource)
    ensures PatternIsFor(Pattern(None, None, 0, 0x01), a) <==> !IsConfiguration(a.resource) && a.resource.discoverable
    ensures PatternIsFor(Pattern(None, None, 0, 0x10), a)
       <==> !IsConfiguration(a.resource) && a.resource.discoverable && !a.resource.secure
  {
    hide IsConfiguration;
  }

  // ----- a posted resource that is not kept

  // "*" is taken for every resource without a wildcard that is posted after it, but is not for
  // the device resource: its address is lost.
  lemma LostResource(d: Device, core: seq<Resource>, c: Chance, v: Device, u: Uuid, a: Access)
    requires Plentiful(c) && d.pstat.s != 3 && d.aces == [] && a.peer == Some(Peer(u, false)) && a.verb == Get
    requires a.resource.slot == Some(9) && a.resource.uri == "/oic/d"
    requires var ps := [Pattern(None, None, 0, 0x111), Pattern(Some("/oic/d"), None, 0, 0xFFFF)];
             v.aces == Step(d, PostOf(AceEntry(OfUuid(u), 6, 9, ps)), core, c).0.aces
    ensures PatternIsFor(Pattern(Some("/oic/d"), None, 0, 0xFFFF), a) && !Granted(v, a)
  {
    var all, one := Pattern(None, None, 0, 0x111), Pattern(Some("/oic/d"), None, 0, 0xFFFF);
    var e := AceEntry(OfUuid(u), 6, 9, [all, one]);
    assert !ByItsOwner(v, a) && IsConfiguration(a.resource) && Others([], e) == [];
    hide Step, Granted, Kept, PatternIsFor, Plentiful, ByItsOwner, IsConfiguration, StandsFor, Permits, InReach;
    PostedEntryGrants(d, e, core, c, v, a);
    OnlyStarKept(all, one);
    WildcardPatterns(a);
    PlainPatterns("/oic/d", ["oic.wk.d"], 1, a);
    NobodyIsLet(v.(aces := []), a);
  }

  lemma NobodyIsLet(d: Device, a: Access)
    requires d.aces == [] && !ByItsOwner(d, a)
    ensures !Granted(d, a)
  {
    hide Granted, ByItsOwner, InReach;
    GrantedLiterally(d, a);
  }

  lemma OnlyStarKept(all: Pattern, one: Pattern)
    requires all == Pattern(None, None, 0, 0x111) && one == Pattern(Some("/oic/d"), None, 0, 0xFFFF)
    ensures Kept([all, one]) == [all]
  {
    StarTakesAll(all, one);
    hide TakenFor;
    assert [all, one][..1] == [all] && [all][..0] == [];
    assert Kept([all]) == [all];
  }

  lemma StarTakesAll(all: Pattern, one: Pattern)
    requires all == Pattern(None, None, 0, 0x111) && one == Pattern(Some("/oic/d"), None, 0, 0xFFFF)
    ensures TakenFor(all, one)
  {
    assert (0x111 as bv16) & 0xFFFF != 0;
  }

  // ----- removal

  // Removal takes the entry with the identifier and no other.
  lemma {:induction false} RemovalKeepsOthers(aces: seq<Ace>, aceid: int, ace: Ace)
    requires DistinctAceIds(aces)
    ensures ace in RemoveAce(aces, aceid) <==> ace in aces && ace.aceid != aceid
  {
    if aces != [] {
      var rest := aces[1..];
      assert aces == [aces[0]] + rest && forall i :: 0 <= i < |rest| ==> rest[i] == aces[i + 1];
      RemovalKeepsOthers(rest, aceid, ace);
    }
  }

  // A DELETE of one entry, outside normal operation: it goes when there is one, else nothing changes.
  lemma DeletedEntry(d: Device, id: int, core: seq<Resource>, c: Chance, ace: Ace)
    requires d.pstat.s != 3 && DistinctAceIds(d.aces) && id != 0
    ensures var (after, status) := Step(d, AclDelete(Some(id)), core, c);
            && (if exists i :: 0 <= i < |d.aces| && d.aces[i].aceid == id then status == Deleted
                else status == NotFound && after == d)
            && after == d.(aces := after.aces) && (ace in after.aces <==> ace in d.aces && ace.aceid != id)
  {
    RemovalKeepsOthers(d.aces, id, ace);
    if id !in AceIds(d.aces) {
      FreshIdIsNew(d.aces, id);
    }
  }
}
