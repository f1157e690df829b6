/** The access decision (oc_sec_check_acl) against the rule it implements. */
module AccessControl {
  import opened Payload
  import opened AclModel
  import opened CredModel
  import opened DeviceModel
  import DeviceRuns

  datatype Method = Get | Post | Put | Delete

  // The TLS peer behind a request: its identity, and whether it authenticated with a pre-shared key.
  datatype Peer = Peer(uuid: Uuid, psk: bool)

  const PERM_CREATE: bv16 := 1
  const PERM_RETRIEVE: bv16 := 2
  const PERM_UPDATE: bv16 := 4
  const PERM_DELETE: bv16 := 8
  const PERM_NOTIFY: bv16 := 16

  // A request as the decision sees it.
  datatype Access = Access(verb: Method, resource: Resource, interfaces: bv8, peer: Option<Peer>, secured: bool)

  // ----- the rule

  // The platform resource and the device configuration resources, which end with the device resource.
  predicate IsDcr(r: Resource) {
    r.slot.Some? && (r.slot.value == 0 || OCF_RES <= r.slot.value <= OCF_D)
  }

  function WildcardOf(r: Resource): bv16 {
    if IsDcr(r) then 0
    else if !r.discoverable then WC_ALL
    else if r.secure then WC_SECURED
    else WC_PUBLIC | WC_SECURED
  }

  function PatternOf(a: Access): Pattern {
    Pattern(Some(a.resource.uri), Some(a.resource.types), a.interfaces, WildcardOf(a.resource))
  }

  function NeededBits(m: Method): bv16 {
    match m
    case Get => PERM_RETRIEVE | PERM_NOTIFY
    case Post => PERM_CREATE | PERM_UPDATE
    case Put => PERM_CREATE | PERM_UPDATE
    case Delete => PERM_DELETE
  }

  // Each security resource lets its own resource owner in.
  predicate IsRowner(d: Device, uuid: Uuid, uri: string) {
    || (uri == ACL_URI && uuid == d.aclRowner)
    || (uri == DOXM_URI && uuid == d.doxm.rowner)
    || (uri == PSTAT_URI && uuid == d.pstat.rowner)
    || (uri == CRED_URI && uuid == d.credRowner)
  }

  predicate SubjectApplies(d: Device, a: Access, s: Subject) {
    match s
    case OfUuid(uuid) => a.peer.Some? && a.peer.value.uuid == uuid
    case OfRole(role, authority) =>
      && a.peer.Some? && a.peer.value.psk
      && var k := Find(d.creds, ByPsk(a.peer.value.uuid));
      && k < |d.creds| && d.creds[k].role != "" && role == d.creds[k].role && authority == d.creds[k].authority
    case OfConn(conn) => conn == ANON_CLEAR || (conn == AUTH_CRYPT && a.secured)
  }

  predicate AceGrants(d: Device, a: Access, ace: Ace) {
    && SubjectApplies(d, a, ace.subject)
    && AnyResMatches(ace.resources, PatternOf(a))
    && Overlap(ace.permission, NeededBits(a.verb))
  }

  predicate Granted(d: Device, a: Access) {
    && (IsDcr(a.resource) || d.pstat.s == RFNOP)
    && (|| (a.peer.Some? && IsRowner(d, a.peer.value.uuid, a.resource.uri))
        || exists i :: 0 <= i < |d.aces| && AceGrants(d, a, d.aces[i]))
  }

  // ----- the permissions that the entries of one subject add up to

  function AcePermission(ace: Ace, p: Pattern): bv16 {
    if AnyResMatches(ace.resources, p) then ace.permission else 0
  }

  function Collected(aces: seq<Ace>, s: Subject, p: Pattern): bv16 {
    if aces == [] then 0
    else
      var last := aces[|aces| - 1];
      Or(Collected(aces[..|aces| - 1], s, p), if AceMatches(last, s, -1, 0) then AcePermission(last, p) else 0)
  }

  lemma OrBits(x: bv16, y: bv16, m: bv16)
    ensures Overlap(Or(x, y), m) <==> Overlap(x, m) || Overlap(y, m)
    ensures Or(x, 0) == x && Or(0, x) == x && !Overlap(0, m)
  {
    assert (x | y) & m == (x & m) | (y & m);
    OrZero(x & m, y & m);
  }

  lemma OrZero(u: bv16, v: bv16)
    ensures u | v == 0 <==> u == 0 && v == 0
  {
    assert (u | v) & u == u && (u | v) & v == v;
  }

  // The entry is about subject s, matches, and carries one of the bits in m.
  predicate Contributes(ace: Ace, s: Subject, p: Pattern, m: bv16) {
    ace.subject == s && AnyResMatches(ace.resources, p) && Overlap(ace.permission, m)
  }

  lemma ContributesBits(ace: Ace, s: Subject, p: Pattern, m: bv16)
    ensures Contributes(ace, s, p, m) <==> Overlap(if AceMatches(ace, s, -1, 0) then AcePermission(ace, p) else 0, m)
  {
    hide AnyResMatches, Overlap;
    OrBits(0, 0, m);
  }

  lemma {:induction false} CollectedBits(aces: seq<Ace>, s: Subject, p: Pattern, m: bv16)
    ensures Overlap(Collected(aces, s, p), m) <==> exists i :: 0 <= i < |aces| && Contributes(aces[i], s, p, m)
  {
    hide Contributes, AcePermission, AceMatches, Overlap, Or;
    if aces != [] {
      var init, last := aces[..|aces| - 1], aces[|aces| - 1];
      CollectedBits(init, s, p, m);
      ContributesBits(last, s, p, m);
      OrBits(Collected(init, s, p), if AceMatches(last, s, -1, 0) then AcePermission(last, p) else 0, m);
      assert forall i :: 0 <= i < |init| ==> init[i] == aces[i];
      assert forall i :: 0 <= i < |aces| ==> aces[i] == if i < |init| then init[i] else last;
    } else {
      OrBits(0, 0, m);
    }
  }

  // Skipped entries add nothing.
  lemma {:induction false} CollectedSkip(aces: seq<Ace>, i: nat, k: nat, s: Subject, p: Pattern)
    requires i <= k <= |aces| && forall j :: i <= j < k ==> !AceMatches(aces[j], s, -1, 0)
    ensures Collected(aces[..k], s, p) == Collected(aces[..i], s, p)
    decreases k
  {
    if i < k {
      assert aces[..k][..k - 1] == aces[..k - 1];
      OrBits(Collected(aces[..k - 1], s, p), 0, 0);
      CollectedSkip(aces, i, k - 1, s, p);
    }
  }

  lemma CollectedNone(aces: seq<Ace>, s: Subject, p: Pattern)
    ensures Collected(aces[..0], s, p) == 0 && aces[..|aces|] == aces
  {
  }

  lemma CollectedStep(aces: seq<Ace>, k: nat, s: Subject, p: Pattern)
    requires k < |aces| && AceMatches(aces[k], s, -1, 0)
    ensures Collected(aces[..k + 1], s, p) == Or(Collected(aces[..k], s, p), AcePermission(aces[k], p))
  {
    hide Or, AcePermission;
    assert aces[..k + 1][..k] == aces[..k];
  }

  // ----- the code

  method TypesMatch(types: seq<string>, listed: seq<string>) returns (found: bool)
    ensures found <==> exists i :: 0 <= i < |types| && TypeListed(types[i], listed)
  {
    found := false;
    for i := 0 to |types|
      invariant found <==> exists x :: 0 <= x < i && TypeListed(types[x], listed)
    {
      var j := 0;
      while j < |listed| && listed[j] != "*" && listed[j] != types[i]
        invariant j <= |listed| && forall k :: 0 <= k < j ==> listed[k] != "*" && listed[k] != types[i]
      {
        j := j + 1;
      }
      if j < |listed| && listed[j] != "*" {
        assert TypeListed(types[i], listed);
        found := true;
      } else {
        assert !TypeListed(types[i], listed);
      }
    }
  }

  // The body of the search: does this entry match on everything both sides carry?
  method EntryMatches(res: AceRes, p: Pattern) returns (found: bool)
    ensures found <==> ResMatches(res, p)
  {
    hide Overlap, InterfacesOverlap, TypeListed;
    var positive, matching := false, true;
    if p.href.Some? && |res.href| > 0 {
      var skip := HrefSkip(p.href.value);
      if |p.href.value| + skip != |res.href| || res.href[skip..] != p.href.value {
        matching := false;
      } else {
        positive := true;
      }
    }
    if matching && p.types.Some? && |res.types| > 0 {
      var listed := TypesMatch(p.types.value, res.types);
      if !listed {
        matching := false;
      } else {
        positive := true;
      }
    }
    if matching && p.interfaces != 0 && res.interfaces != 0 {
      if !InterfacesOverlap(p.interfaces, res.interfaces) {
        matching := false;
      } else {
        positive := true;
      }
    }
    if matching && p.wildcard != 0 && res.wildcard != 0 {
      if p.wildcard != WC_ALL && Overlap(p.wildcard, res.wildcard) {
        positive := true;
      } else if p.wildcard == WC_ALL && res.wildcard == WC_ALL {
        positive := true;
      } else {
        matching := false;
      }
    }
    found := matching && positive;
  }

  // Resumes after `start`; -1 starts at the head. Returns |resources| when nothing is left.
  method FindResource(start: int, resources: seq<AceRes>, p: Pattern) returns (k: nat)
    requires -1 <= start && (start < |resources| || start == -1)
    ensures start < k <= |resources|
    ensures k < |resources| ==> ResMatches(resources[k], p)
    ensures forall j :: start < j < k ==> !ResMatches(resources[j], p)
  {
    hide ResMatches;
    k := start + 1;
    while k < |resources|
      invariant start < k <= |resources| && forall j :: start < j < k ==> !ResMatches(resources[j], p)
    {
      var found := EntryMatches(resources[k], p);
      if found {
        return;
      }
      k := k + 1;
    }
  }

  method GetPermission(ace: Ace, p: Pattern) returns (permission: bv16)
    ensures permission == AcePermission(ace, p)
  {
    hide ResMatches;
    permission := 0;
    var k := FindResource(-1, ace.resources, p);
    while k < |ace.resources|
      invariant k <= |ace.resources| && (k < |ace.resources| ==> ResMatches(ace.resources[k], p))
      invariant permission == if exists j :: 0 <= j < k && ResMatches(ace.resources[j], p) then ace.permission else 0
      decreases |ace.resources| - k
    {
      OrSame(permission, ace.permission);
      permission := Or(permission, ace.permission);
      k := FindResource(k, ace.resources, p);
    }
  }

  lemma OrSame(x: bv16, y: bv16)
    requires x == 0 || x == y
    ensures Or(x, y) == y
  {
  }

  // Resumes after `start`; -1 starts at the head.
  method FindSubject(start: int, aces: seq<Ace>, s: Subject, aceid: int, permission: bv16) returns (k: nat)
    requires -1 <= start < |aces|
    ensures k == FindAce(aces, start + 1, s, aceid, permission)
  {
    k := start + 1;
    while k < |aces| && !AceMatches(aces[k], s, aceid, permission)
      invariant start < k <= |aces| && FindAce(aces, start + 1, s, aceid, permission) == FindAce(aces, k, s, aceid, permission)
    {
      k := k + 1;
    }
  }

  // The loop over the entries of one subject.
  method SubjectPermission(aces: seq<Ace>, s: Subject, p: Pattern) returns (permission: bv16)
    ensures permission == Collected(aces, s, p)
  {
    permission := 0;
    hide Or, AcePermission, Collected;
    CollectedNone(aces, s, p);
    if |aces| > 0 {
      var k := FindSubject(-1, aces, s, -1, 0);
      CollectedSkip(aces, 0, k, s, p);
      while k < |aces|
        invariant k <= |aces| && (k < |aces| ==> AceMatches(aces[k], s, -1, 0))
        invariant permission == Collected(aces[..k], s, p)
        decreases |aces| - k
      {
        var more := GetPermission(aces[k], p);
        CollectedStep(aces, k, s, p);
        permission := Or(permission, more);
        var next := FindSubject(k, aces, s, -1, 0);
        CollectedSkip(aces, k + 1, next, s, p);
        k := next;
      }
    }
  }

  method FindCred(creds: seq<Cred>, uuid: Uuid) returns (k: nat)
    ensures k == Find(creds, ByPsk(uuid))
  {
    k := 0;
    while k < |creds| && (creds[k].credtype != CREDTYPE_PSK || creds[k].subject != uuid)
      invariant k <= |creds| && forall j :: 0 <= j < k ==> !Fits(creds[j], ByPsk(uuid))
    {
      k := k + 1;
    }
  }

  method IsCoreDcr(r: Resource) returns (found: bool)
    ensures found <==> IsDcr(r)
  {
    if r.slot == Some(0) {
      return true;
    }
    for i := OCF_RES to OCF_D + 1
      invariant r.slot != Some(0) && (r.slot.Some? ==> !(OCF_RES <= r.slot.value < i))
    {
      if r.slot == Some(i) {
        return true;
      }
    }
    return false;
  }

  // Does any entry of the subject carry one of the needed bits?
  predicate SubjectGrants(d: Device, a: Access, s: Subject) {
    Overlap(Collected(d.aces, s, PatternOf(a)), NeededBits(a.verb))
  }

  // The role that the peer's own pre-shared key carries, if any.
  predicate RoleGrants(d: Device, a: Access)
    requires a.peer.Some?
  {
    && a.peer.value.psk
    && var k := Find(d.creds, ByPsk(a.peer.value.uuid));
    && k < |d.creds| && d.creds[k].role != ""
    && SubjectGrants(d, a, OfRole(d.creds[k].role, d.creds[k].authority))
  }

  // An entry grants access exactly when it belongs to one of the subjects that the code looks up.
  lemma SubjectGrantsByAce(d: Device, a: Access, s: Subject)
    requires SubjectApplies(d, a, s)
    ensures SubjectGrants(d, a, s) <==> exists i :: 0 <= i < |d.aces| && d.aces[i].subject == s && AceGrants(d, a, d.aces[i])
  {
    hide AnyResMatches, SubjectApplies, NeededBits, Collected, PatternOf, Overlap;
    CollectedBits(d.aces, s, PatternOf(a), NeededBits(a.verb));
    assert forall i :: 0 <= i < |d.aces| && d.aces[i].subject == s ==>
      (Contributes(d.aces[i], s, PatternOf(a), NeededBits(a.verb)) <==> AceGrants(d, a, d.aces[i]));
  }

  lemma SomeAceGrants(d: Device, a: Access)
    ensures (exists i :: 0 <= i < |d.aces| && AceGrants(d, a, d.aces[i])) <==> (
              || (a.peer.Some? && (SubjectGrants(d, a, OfUuid(a.peer.value.uuid)) || RoleGrants(d, a)))
              || (a.secured && SubjectGrants(d, a, OfConn(AUTH_CRYPT)))
              || SubjectGrants(d, a, OfConn(ANON_CLEAR)))
  {
    hide AnyResMatches, NeededBits, SubjectGrants, PatternOf;
    SubjectGrantsByAce(d, a, OfConn(ANON_CLEAR));
    if a.secured {
      SubjectGrantsByAce(d, a, OfConn(AUTH_CRYPT));
    }
    if a.peer.Some? {
      SubjectGrantsByAce(d, a, OfUuid(a.peer.value.uuid));
      var k := Find(d.creds, ByPsk(a.peer.value.uuid));
      if a.peer.value.psk && k < |d.creds| && d.creds[k].role != "" {
        SubjectGrantsByAce(d, a, OfRole(d.creds[k].role, d.creds[k].authority));
      }
    }
  }

  method CheckAcl(d: Device, a: Access) returns (granted: bool)
    ensures granted <==> Granted(d, a)
  {
    hide AceGrants, PatternOf, NeededBits, Collected, Overlap, Or;
    var dcr := IsCoreDcr(a.resource);
    if !dcr && d.pstat.s != RFNOP {
      return false;
    }
    var p := PatternOf(a);
    SomeAceGrants(d, a);
    var permission: bv16 := 0;
    ghost var m := NeededBits(a.verb);
    OrBits(0, 0, m);
    if a.peer.Some? {
      var uuid := a.peer.value.uuid;
      if IsRowner(d, uuid, a.resource.uri) {
        return true;
      }
      permission := SubjectPermission(d.aces, OfUuid(uuid), p);
      if a.peer.value.psk {
        var k := FindCred(d.creds, uuid);
        if k < |d.creds| && d.creds[k].role != "" {
          var more := SubjectPermission(d.aces, OfRole(d.creds[k].role, d.creds[k].authority), p);
          OrBits(permission, more, m);
          permission := Or(permission, more);
        }
      }
    }
    if a.secured {
      var more := SubjectPermission(d.aces, OfConn(AUTH_CRYPT), p);
      OrBits(permission, more, m);
      permission := Or(permission, more);
    }
    var last := SubjectPermission(d.aces, OfConn(ANON_CLEAR), p);
    OrBits(permission, last, m);
    permission := Or(permission, last);
    granted := Overlap(permission, NeededBits(a.verb));
  }

  // ----- consequences

  // Adding an entry anywhere never takes access away.
  lemma MoreAcesGrantMore(d: Device, a: Access, ace: Ace, k: nat)
    requires k <= |d.aces| && Granted(d, a)
    ensures Granted(d.(aces := d.aces[..k] + [ace] + d.aces[k..]), a)
  {
    var e := d.(aces := d.aces[..k] + [ace] + d.aces[k..]);
    if !(a.peer.Some? && IsRowner(d, a.peer.value.uuid, a.resource.uri)) {
      var i :| 0 <= i < |d.aces| && AceGrants(d, a, d.aces[i]);
      var j := if i < k then i else i + 1;
      assert e.aces[j] == d.aces[i] && AceGrants(e, a, e.aces[j]);
    }
  }

  // After any run from start-up, whoever reaches an application resource reaches a device that
  // is owned and has a stored credential for each of its resource owners.
  lemma ServesOnlyWhenProvisioned(zero: Device, es: seq<DeviceRuns.Event>, core: seq<Resource>, c: Chance, a: Access)
    requires Fair(c) && DeviceRuns.FairRun(es)
    requires a.resource.slot.None? && Granted(DeviceRuns.Run(Default(zero, core, c), es, core), a)
    ensures var d := DeviceRuns.Run(Default(zero, core, c), es, core);
            DeviceRuns.Owned(d) && DeviceRuns.RownersSet(d) && DeviceRuns.RownersHaveCreds(d)
  {
    DeviceRuns.OperationalMeansProvisioned(zero, es, core, c);
  }
}
