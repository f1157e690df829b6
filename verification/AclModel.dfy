/** The access control list: entries, their resources, and the operations of
    security/oc_acl.c as functions on a list of entries. */
module AclModel {
  import opened Payload

  const AUTH_CRYPT := 0
  const ANON_CLEAR := 1

  datatype Subject = OfUuid(uuid: Uuid) | OfRole(role: string, authority: string) | OfConn(conn: int)

  const WC_NONE: bv16 := 0xFFFF
  const WC_ALL: bv16 := 0x111
  const WC_SECURED: bv16 := 0x01
  const WC_PUBLIC: bv16 := 0x10

  datatype AceRes = AceRes(href: string, types: seq<string>, interfaces: bv8, wildcard: bv16)

  datatype Ace = Ace(aceid: int, subject: Subject, permission: bv16, resources: seq<AceRes>)

  // A resource of the device. `slot` is its place in the core resource table.
  datatype Resource = Resource(slot: Option<nat>, uri: string, types: seq<string>, interfaces: bv8,
                               discoverable: bool, secure: bool)

  // What a request to match or add a resource entry carries.
  datatype Pattern = Pattern(href: Option<string>, types: Option<seq<string>>, interfaces: bv8, wildcard: bv16)

  // ----- bit masks

  predicate Overlap(x: bv16, y: bv16) {
    x & y != 0
  }

  predicate InterfacesOverlap(x: bv8, y: bv8) {
    x & y != 0
  }

  function Or(x: bv16, y: bv16): bv16 {
    x | y
  }

  // ----- matching one resource entry

  // An href without a leading slash is compared with the entry's href past its first character.
  function HrefSkip(href: string): nat {
    if href != "" && href[0] == '/' then 0 else 1
  }

  predicate HrefApplies(res: AceRes, p: Pattern) {
    p.href.Some? && res.href != ""
  }

  predicate HrefAgrees(res: AceRes, p: Pattern)
    requires HrefApplies(res, p)
  {
    res.href[HrefSkip(p.href.value)..] == p.href.value
  }

  predicate TypesApply(res: AceRes, p: Pattern) {
    p.types.Some? && |res.types| > 0
  }

  // A "*" among the entry's types ends the comparison: it hides the types after it.
  predicate TypeListed(t: string, types: seq<string>) {
    exists j :: 0 <= j < |types| && types[j] == t && forall k :: 0 <= k <= j ==> types[k] != "*"
  }

  predicate TypesAgree(res: AceRes, p: Pattern)
    requires TypesApply(res, p)
  {
    exists i :: 0 <= i < |p.types.value| && TypeListed(p.types.value[i], res.types)
  }

  predicate InterfacesApply(res: AceRes, p: Pattern) {
    p.interfaces != 0 && res.interfaces != 0
  }

  predicate WildcardApplies(res: AceRes, p: Pattern) {
    p.wildcard != 0 && res.wildcard != 0
  }

  predicate WildcardAgrees(res: AceRes, p: Pattern) {
    if p.wildcard == WC_ALL then res.wildcard == WC_ALL else Overlap(p.wildcard, res.wildcard)
  }

  // An entry matches when every criterion that both sides carry agrees, and there is one.
  predicate ResMatches(res: AceRes, p: Pattern) {
    && (HrefApplies(res, p) ==> HrefAgrees(res, p))
    && (TypesApply(res, p) ==> TypesAgree(res, p))
    && (InterfacesApply(res, p) ==> InterfacesOverlap(p.interfaces, res.interfaces))
    && (WildcardApplies(res, p) ==> WildcardAgrees(res, p))
    && (HrefApplies(res, p) || TypesApply(res, p) || InterfacesApply(res, p) || WildcardApplies(res, p))
  }

  predicate AnyResMatches(resources: seq<AceRes>, p: Pattern) {
    exists i :: 0 <= i < |resources| && ResMatches(resources[i], p)
  }

  // ----- finding an entry

  // `aceid` -1 and `permission` 0 leave that field open.
  predicate AceMatches(ace: Ace, subject: Subject, aceid: int, permission: bv16) {
    && (aceid == -1 || ace.aceid == aceid)
    && (permission == 0 || ace.permission == permission)
    && ace.subject == subject
  }

  // Index of the first match at or after i, or |aces|.
  function FindAce(aces: seq<Ace>, i: nat, subject: Subject, aceid: int, permission: bv16): (k: nat)
    requires i <= |aces|
    ensures i <= k <= |aces|
    ensures k < |aces| ==> AceMatches(aces[k], subject, aceid, permission)
    ensures forall j :: i <= j < k ==> !AceMatches(aces[j], subject, aceid, permission)
    decreases |aces| - i
  {
    if i == |aces| || AceMatches(aces[i], subject, aceid, permission) then i
    else FindAce(aces, i + 1, subject, aceid, permission)
  }

  function AceIds(aces: seq<Ace>): set<int> {
    set i | 0 <= i < |aces| :: aces[i].aceid
  }

  predicate DistinctAceIds(aces: seq<Ace>) {
    forall i, j :: 0 <= i < j < |aces| ==> aces[i].aceid != aces[j].aceid
  }

  // ----- changing the list

  function RemoveAce(aces: seq<Ace>, aceid: int): (r: seq<Ace>) {
    if aces == [] then []
    else if aces[0].aceid == aceid then aces[1..]
    else [aces[0]] + RemoveAce(aces[1..], aceid)
  }

  function NewRes(p: Pattern): AceRes {
    AceRes(if p.href.Some? then p.href.value else "",
           if p.types.Some? then p.types.value else [],
           p.interfaces,
           if p.wildcard == WC_NONE then 0 else p.wildcard)
  }

  // Allocation requests 2n and 2n+1 are those of the n-th resource of a request.
  function UpdateRes(aces: seq<Ace>, subject: Subject, p: Pattern, aceid: int, permission: bv16,
                     c: Chance, n: nat): (r: seq<Ace>)
  {
    var k := FindAce(aces, 0, subject, aceid, permission);
    if k < |aces| then
      if AnyResMatches(aces[k].resources, p) || !c.alloc(2 * n + 1) then aces
      else aces[k := aces[k].(resources := aces[k].resources + [NewRes(p)])]
    else if !c.alloc(2 * n) then aces
    else
      var id := if aceid == -1 then c.id(AceIds(aces)) else aceid;
      aces + [Ace(id, subject, permission, if c.alloc(2 * n + 1) then [NewRes(p)] else [])]
  }

  // ----- the ACL after a reset

  const OCF_RES := 4
  const OCF_SEC_DOXM := 5
  const OCF_SEC_PSTAT := 6
  const OCF_SEC_ACL := 7
  const OCF_SEC_CRED := 8
  const OCF_D := 9

  function CorePattern(r: Resource): Pattern {
    Pattern(Some(r.uri), Some(r.types), r.interfaces, WC_NONE)
  }

  // What one core resource contributes: read access, or read-write-delete for the security resources.
  function AddDefaultAce(aces: seq<Ace>, r: Resource, i: nat, c: Chance): seq<Ace> {
    if r.uri == "" then aces
    else if i < OCF_SEC_DOXM || i > OCF_SEC_CRED then
      UpdateRes(aces, OfConn(ANON_CLEAR), CorePattern(r), 1, 2, c, i)
    else
      UpdateRes(aces, OfConn(ANON_CLEAR), CorePattern(r), 2, 14, c, i)
  }

  function DefaultAces(core: seq<Resource>, c: Chance): (r: seq<Ace>)
  {
    if core == [] then []
    else AddDefaultAce(DefaultAces(core[..|core| - 1], c), core[|core| - 1], |core| - 1, c)
  }

  lemma NoDefaultAces(c: Chance)
    ensures DefaultAces([], c) == []
  {
  }

  lemma DefaultAcesOneMore(core: seq<Resource>, i: nat, c: Chance)
    requires i < |core|
    ensures DefaultAces(core[..i + 1], c) == AddDefaultAce(DefaultAces(core[..i], c), core[i], i, c)
  {
    hide AddDefaultAce;
    assert core[..i + 1][..i] == core[..i];
  }

  // ----- provisioning by POST

  // An entry of a posted list. A missing subject reads as the nil UUID.
  datatype AceEntry = AceEntry(subject: Subject, permission: bv16, aceid: int, resources: seq<Pattern>)

  // The list, and how many resource entries have been handled.
  datatype AclAcc = AclAcc(aces: seq<Ace>, n: nat)

  function ApplyPatterns(a: AclAcc, e: AceEntry, ps: seq<Pattern>, c: Chance): AclAcc
    decreases |ps|
  {
    if ps == [] then a
    else ApplyPatterns(AclAcc(UpdateRes(a.aces, e.subject, ps[0], e.aceid, e.permission, c, a.n), a.n + 1),
                       e, ps[1..], c)
  }

  function ApplyAceEntry(a: AclAcc, e: AceEntry, c: Chance): AclAcc {
    var cleared := if e.aceid != -1 then RemoveAce(a.aces, e.aceid) else a.aces;
    ApplyPatterns(a.(aces := cleared), e, e.resources, c)
  }

  function ApplyAceEntries(a: AclAcc, es: seq<AceEntry>, c: Chance): AclAcc
    decreases |es|
  {
    if es == [] then a else ApplyAceEntries(ApplyAceEntry(a, es[0], c), es[1..], c)
  }

  // ----- identifiers stay distinct

  lemma FreshIdIsNew(aces: seq<Ace>, id: int)
    requires id !in AceIds(aces)
    ensures forall i :: 0 <= i < |aces| ==> aces[i].aceid != id
  {
    forall i | 0 <= i < |aces| ensures aces[i].aceid != id {
      assert aces[i].aceid in AceIds(aces);
    }
  }

  lemma {:induction false} RemoveAceDropsId(aces: seq<Ace>, aceid: int)
    requires DistinctAceIds(aces)
    ensures DistinctAceIds(RemoveAce(aces, aceid))
    ensures forall i :: 0 <= i < |RemoveAce(aces, aceid)| ==>
              RemoveAce(aces, aceid)[i] in aces && RemoveAce(aces, aceid)[i].aceid != aceid
  {
    if aces != [] && aces[0].aceid != aceid {
      RemoveAceDropsId(aces[1..], aceid);
      var rest := RemoveAce(aces[1..], aceid);
      forall i | 0 <= i < |rest| ensures aces[0].aceid != rest[i].aceid {
        var j :| 0 <= j < |aces[1..]| && aces[1..][j] == rest[i];
        assert aces[j + 1] == rest[i];
      }
    }
  }

  lemma {:induction false} RemoveAceAbsent(aces: seq<Ace>, aceid: int)
    requires forall j :: 0 <= j < |aces| ==> aces[j].aceid != aceid
    ensures RemoveAce(aces, aceid) == aces
  {
    if aces != [] {
      RemoveAceAbsent(aces[1..], aceid);
    }
  }

  // The identifiers after one resource entry: unchanged, or with one that was not there.
  lemma UpdateResKeepsIdsDistinct(aces: seq<Ace>, subject: Subject, p: Pattern, aceid: int, permission: bv16,
                                  c: Chance, n: nat)
    requires Fair(c) && DistinctAceIds(aces)
    requires aceid == -1
          || (forall i :: 0 <= i < |aces| ==> aces[i].aceid != aceid)
          || FindAce(aces, 0, subject, aceid, permission) < |aces|
    ensures DistinctAceIds(UpdateRes(aces, subject, p, aceid, permission, c, n))
  {
    if aceid == -1 {
      FreshIdIsNew(aces, c.id(AceIds(aces)));
    }
  }

  // While the resources of one entry are added, its identifier is either
  // absent or on an entry that the next addition finds.
  predicate Settled(aces: seq<Ace>, e: AceEntry) {
    || e.aceid == -1
    || (forall i :: 0 <= i < |aces| ==> aces[i].aceid != e.aceid)
    || FindAce(aces, 0, e.subject, e.aceid, e.permission) < |aces|
  }

  lemma UpdateResSettles(aces: seq<Ace>, e: AceEntry, p: Pattern, c: Chance, n: nat)
    requires Settled(aces, e)
    ensures Settled(UpdateRes(aces, e.subject, p, e.aceid, e.permission, c, n), e)
  {
    var after := UpdateRes(aces, e.subject, p, e.aceid, e.permission, c, n);
    var k := FindAce(aces, 0, e.subject, e.aceid, e.permission);
    if e.aceid != -1 && k < |after| {
      assert AceMatches(after[k], e.subject, e.aceid, e.permission);
    }
  }

  lemma {:induction false} ApplyPatternsKeepsIdsDistinct(a: AclAcc, e: AceEntry, ps: seq<Pattern>, c: Chance)
    requires Fair(c) && DistinctAceIds(a.aces) && Settled(a.aces, e)
    ensures DistinctAceIds(ApplyPatterns(a, e, ps, c).aces)
    decreases |ps|
  {
    if ps != [] {
      UpdateResKeepsIdsDistinct(a.aces, e.subject, ps[0], e.aceid, e.permission, c, a.n);
      UpdateResSettles(a.aces, e, ps[0], c, a.n);
      ApplyPatternsKeepsIdsDistinct(
        AclAcc(UpdateRes(a.aces, e.subject, ps[0], e.aceid, e.permission, c, a.n), a.n + 1), e, ps[1..], c);
    }
  }

  // Section "aceid" of a POST: distinct before, distinct after, whatever is posted.
  lemma {:induction false} PostedAceIdsDistinct(a: AclAcc, es: seq<AceEntry>, c: Chance)
    requires Fair(c) && DistinctAceIds(a.aces)
    ensures DistinctAceIds(ApplyAceEntries(a, es, c).aces)
    decreases |es|
  {
    if es != [] {
      RemoveAceDropsId(a.aces, es[0].aceid);
      var cleared := if es[0].aceid != -1 then RemoveAce(a.aces, es[0].aceid) else a.aces;
      ApplyPatternsKeepsIdsDistinct(a.(aces := cleared), es[0], es[0].resources, c);
      PostedAceIdsDistinct(ApplyAceEntry(a, es[0], c), es[1..], c);
    }
  }

  // The default list holds at most the read entry 1 and the security entry 2.
  predicate DefaultShape(aces: seq<Ace>) {
    && DistinctAceIds(aces)
    && forall i :: 0 <= i < |aces| ==>
         && aces[i].subject == OfConn(ANON_CLEAR)
         && ((aces[i].aceid == 1 && aces[i].permission == 2) || (aces[i].aceid == 2 && aces[i].permission == 14))
  }

  lemma {:induction false} DefaultAcesShape(core: seq<Resource>, c: Chance)
    ensures DefaultShape(DefaultAces(core, c))
  {
    if core != [] {
      DefaultAcesShape(core[..|core| - 1], c);
      var before := DefaultAces(core[..|core| - 1], c);
      var i := |core| - 1;
      var id, permission := if i < OCF_SEC_DOXM || i > OCF_SEC_CRED then 1 else 2,
                            if i < OCF_SEC_DOXM || i > OCF_SEC_CRED then 2 as bv16 else 14;
      var k := FindAce(before, 0, OfConn(ANON_CLEAR), id, permission);
      assert k == |before| ==> forall j :: 0 <= j < |before| ==> before[j].aceid != id;
    }
  }
}
