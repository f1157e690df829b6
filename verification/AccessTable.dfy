/** The access rule written out with the numbers and addresses of the wire (security/oc_acl.c), and
    what it makes of the default list. */
module AccessTable {
  import opened Payload
  import opened AclModel
  import opened CredModel
  import opened DeviceModel
  import opened AccessControl

  // ----- the rule

  // Slot 0 is the platform, slots 4 to 9 are for configuration; state 3 is normal operation.
  predicate IsConfiguration(r: Resource) {
    r.slot == Some(0) || (r.slot.Some? && 4 <= r.slot.value <= 9)
  }

  predicate InReach(d: Device, r: Resource) {
    d.pstat.s == 3 || IsConfiguration(r)
  }

  predicate ByItsOwner(d: Device, a: Access) {
    a.peer.Some?
    && var u := a.peer.value.uuid;
    || (a.resource.uri == "/oic/sec/acl2" && u == d.aclRowner)
    || (a.resource.uri == "/oic/sec/doxm" && u == d.doxm.rowner)
    || (a.resource.uri == "/oic/sec/pstat" && u == d.pstat.rowner)
    || (a.resource.uri == "/oic/sec/cred" && u == d.credRowner)
  }

  // Credential k is the peer's first pre-shared key.
  predicate FirstKeyAt(creds: seq<Cred>, uuid: Uuid, k: nat) {
    k < |creds| && creds[k].credtype == 1 && creds[k].subject == uuid
    && forall j :: 0 <= j < k ==> !(creds[j].credtype == 1 && creds[j].subject == uuid)
  }

  // The request is one that the subject stands for: 1 is anon-clear, 0 auth-crypt.
  predicate StandsFor(s: Subject, creds: seq<Cred>, a: Access) {
    match s
    case OfUuid(uuid) => a.peer.Some? && a.peer.value.uuid == uuid
    case OfRole(role, authority) =>
      role != "" && a.peer.Some? && a.peer.value.psk
      && exists k :: 0 <= k < |creds| && FirstKeyAt(creds, a.peer.value.uuid, k)
                  && creds[k].role == role && creds[k].authority == authority
    case OfConn(conn) => conn == 1 || (conn == 0 && a.secured)
  }

  // Reading takes RETRIEVE or NOTIFY, writing CREATE or UPDATE, deleting DELETE.
  predicate Permits(x: bv16, m: Method) {
    match m
    case Get => x & 18 != 0
    case Post => x & 5 != 0
    case Put => x & 5 != 0
    case Delete => x & 8 != 0
  }

  // An address that begins with a slash is compared as it is, any other behind the first character.
  predicate SameAddress(href: string, uri: string) {
    if uri != "" && uri[0] == '/' then href == uri else href != "" && href[1..] == uri
  }

  predicate SharesType(listed: seq<string>, types: seq<string>) {
    exists i, j :: 0 <= i < |types| && 0 <= j < |listed| && types[i] == listed[j]
                && forall k :: 0 <= k <= j ==> listed[k] != "*"
  }

  // 0x111 is for every resource, 1 and 0x10 for discoverable ones: 0x10 only for those without security.
  predicate WildcardFor(w: bv16, r: Resource) {
    if !r.discoverable then w == 0x111
    else if r.secure then w & 0x1 != 0
    else w & 0x11 != 0
  }

  // What an entry says of resources is for this request: everything it says agrees, and something does.
  predicate IsFor(href: string, types: seq<string>, interfaces: bv8, wildcard: bv16, a: Access) {
    var both, wild := interfaces != 0 && a.interfaces != 0, wildcard != 0 && !IsConfiguration(a.resource);
    && (href != "" ==> SameAddress(href, a.resource.uri))
    && (types != [] ==> SharesType(types, a.resource.types))
    && (both ==> interfaces & a.interfaces != 0)
    && (wild ==> WildcardFor(wildcard, a.resource))
    && (href != "" || types != [] || both || wild)
  }

  predicate ResIsFor(res: AceRes, a: Access) {
    IsFor(res.href, res.types, res.interfaces, res.wildcard, a)
  }

  predicate EntryIsFor(ace: Ace, a: Access) {
    exists j :: 0 <= j < |ace.resources| && ResIsFor(ace.resources[j], a)
  }

  predicate Lets(d: Device, ace: Ace, a: Access) {
    StandsFor(ace.subject, d.creds, a) && EntryIsFor(ace, a) && Permits(ace.permission, a.verb)
  }

  // ----- it is the rule that the code decides

  lemma BitsAgree(x: bv16, m: Method)
    ensures Overlap(x, NeededBits(m)) <==> Permits(x, m)
  {
  }

  lemma SubjectAgrees(d: Device, a: Access, s: Subject)
    ensures SubjectApplies(d, a, s) <==> StandsFor(s, d.creds, a)
  {
    if s.OfRole? && a.peer.Some? {
      var k := Find(d.creds, ByPsk(a.peer.value.uuid));
      assert k < |d.creds| ==> FirstKeyAt(d.creds, a.peer.value.uuid, k);
      assert forall j :: 0 <= j < |d.creds| && FirstKeyAt(d.creds, a.peer.value.uuid, j) ==>
        d.creds[j].credtype == 1 && d.creds[j].subject == a.peer.value.uuid && j == k;
    }
  }

  lemma AddressAgrees(href: string, uri: string)
    requires href != ""
    ensures href[HrefSkip(uri)..] == uri <==> SameAddress(href, uri)
  {
    assert href[0..] == href;
  }

  lemma TypesAgreeToo(listed: seq<string>, types: seq<string>)
    ensures (exists i :: 0 <= i < |types| && TypeListed(types[i], listed)) <==> SharesType(listed, types)
  {
    if i :| 0 <= i < |types| && TypeListed(types[i], listed) {
      var j :| 0 <= j < |listed| && listed[j] == types[i] && forall k :: 0 <= k <= j ==> listed[k] != "*";
      assert types[i] == listed[j];
    }
    if i, j :| 0 <= i < |types| && 0 <= j < |listed| && types[i] == listed[j] && forall k :: 0 <= k <= j ==> listed[k] != "*" {
      assert TypeListed(types[i], listed);
    }
  }

  lemma WildcardAgreesToo(w: bv16, r: Resource)
    ensures IsConfiguration(r) <==> IsDcr(r)
    ensures IsDcr(r) <==> WildcardOf(r) == 0
    ensures !IsDcr(r) ==> (
              (if WildcardOf(r) == WC_ALL then w == WC_ALL else Overlap(WildcardOf(r), w)) <==> WildcardFor(w, r))
  {
    WildcardBits(w);
  }

  lemma WildcardBits(w: bv16)
    ensures 0x10 | 0x01 == 0x11 as bv16 && 0x11 & w == w & 0x11 && 0x01 & w == w & 0x01
  {
  }

  lemma ResAgrees(res: AceRes, a: Access)
    ensures ResMatches(res, PatternOf(a)) <==> ResIsFor(res, a)
  {
    if res.href != "" {
      AddressAgrees(res.href, a.resource.uri);
    }
    TypesAgreeToo(res.types, a.resource.types);
    WildcardAgreesToo(res.wildcard, a.resource);
    InterfacesCommute(res.interfaces, a.interfaces);
    hide WildcardOf, IsDcr, IsConfiguration, WildcardFor, Overlap, SameAddress, HrefSkip, TypeListed, SharesType,
         InterfacesOverlap;
  }

  lemma InterfacesCommute(x: bv8, y: bv8)
    ensures InterfacesOverlap(y, x) <==> x & y != 0
  {
    assert x & y == y & x;
  }

  lemma EntryAgrees(d: Device, a: Access, ace: Ace)
    ensures AceGrants(d, a, ace) <==> Lets(d, ace, a)
  {
    BitsAgree(ace.permission, a.verb);
    SubjectAgrees(d, a, ace.subject);
    hide SubjectApplies, StandsFor, ResMatches, ResIsFor, Permits, Overlap, NeededBits, PatternOf;
    forall j | 0 <= j < |ace.resources| ensures ResMatches(ace.resources[j], PatternOf(a)) <==> ResIsFor(ace.resources[j], a) {
      ResAgrees(ace.resources[j], a);
    }
  }

  // The decision, without the names of its parts.
  lemma GrantedLiterally(d: Device, a: Access)
    ensures Granted(d, a)
       <==> InReach(d, a.resource) && (ByItsOwner(d, a) || exists i :: 0 <= i < |d.aces| && Lets(d, d.aces[i], a))
  {
    WildcardAgreesToo(0, a.resource);
    hide AceGrants, Lets, IsDcr, IsConfiguration;
    forall i | 0 <= i < |d.aces| ensures AceGrants(d, a, d.aces[i]) <==> Lets(d, d.aces[i], a) {
      EntryAgrees(d, a, d.aces[i]);
    }
  }

  // When one entry alone speaks to the request, its permission decides.
  lemma OneEntryDecides(d: Device, a: Access, i: nat)
    requires i < |d.aces| && !ByItsOwner(d, a) && StandsFor(d.aces[i].subject, d.creds, a) && EntryIsFor(d.aces[i], a)
    requires forall j :: 0 <= j < |d.aces| && j != i ==>
               !(StandsFor(d.aces[j].subject, d.creds, a) && EntryIsFor(d.aces[j], a))
    ensures var x := d.aces[i].permission;
            Granted(d, a) <==> InReach(d, a.resource) && match a.verb
                                                        case Get => x & 18 != 0
                                                        case Post => x & 5 != 0
                                                        case Put => x & 5 != 0
                                                        case Delete => x & 8 != 0
  {
    GrantedLiterally(d, a);
    hide Granted, InReach, StandsFor, EntryIsFor;
  }
}
