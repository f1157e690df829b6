/** What the list after a reset lets anybody do with the core resources that are not security
    resources: read them, and nothing else. */
module DefaultReads {
  import opened Payload
  import opened AclModel
  import opened CredModel
  import opened DeviceModel
  import opened AccessControl
  import opened DefaultAcl
  import opened AccessTable

  // Core resources have addresses of their own, which begin with a slash.
  predicate WellAddressed(core: seq<Resource>) {
    && (forall i :: 0 <= i < |core| && core[i].uri != "" ==> core[i].uri[0] == '/')
    && (forall i, j :: 0 <= i < j < |core| && core[i].uri != "" ==> core[i].uri != core[j].uri)
  }

  predicate IsReadEntry(ace: Ace) {
    ace.aceid == 1 && ace.subject == OfConn(ANON_CLEAR) && ace.permission == 2
  }

  // The read entry carries this resource.
  predicate Listed(aces: seq<Ace>, r: Resource) {
    exists j :: 0 <= j < |aces| && IsReadEntry(aces[j]) && AceRes(r.uri, r.types, r.interfaces, 0) in aces[j].resources
  }

  predicate HasAddress(core: seq<Resource>, n: nat, href: string)
    requires n <= |core|
  {
    exists m :: 0 <= m < n && core[m].uri != "" && href == core[m].uri
  }

  // And it carries resources of the first n slots only.
  predicate OnlyEarlier(aces: seq<Ace>, core: seq<Resource>, n: nat)
    requires n <= |core|
  {
    forall j, x :: 0 <= j < |aces| && aces[j].aceid == 1 && x in aces[j].resources ==> HasAddress(core, n, x.href)
  }

  lemma StaysListed(aces: seq<Ace>, r: Resource, s: Resource, i: nat, c: Chance)
    requires Listed(aces, r)
    ensures Listed(AddDefaultAce(aces, s, i, c), r)
  {
    hide AnyResMatches, NewRes, CorePattern;
    var j :| 0 <= j < |aces| && IsReadEntry(aces[j]) && AceRes(r.uri, r.types, r.interfaces, 0) in aces[j].resources;
    var after := AddDefaultAce(aces, s, i, c);
    assert j < |after| && IsReadEntry(after[j]) && AceRes(r.uri, r.types, r.interfaces, 0) in after[j].resources;
  }

  // A security resource does not touch the read entry.
  lemma OtherEntry(aces: seq<Ace>, core: seq<Resource>, n: nat, c: Chance)
    requires n < |core| && OnlyEarlier(aces, core, n) && OCF_SEC_DOXM <= n <= OCF_SEC_CRED
    ensures OnlyEarlier(AddDefaultAce(aces, core[n], n, c), core, n + 1)
  {
    hide AnyResMatches, NewRes, CorePattern;
    var after := AddDefaultAce(aces, core[n], n, c);
    forall j, x | 0 <= j < |after| && after[j].aceid == 1 && x in after[j].resources
      ensures HasAddress(core, n + 1, x.href)
    {
      assert j < |aces| && x in aces[j].resources && aces[j].aceid == 1 && HasAddress(core, n, x.href);
    }
  }

  // Another core resource joins the read entry, because its address is new there.
  lemma JoinsReadEntry(aces: seq<Ace>, core: seq<Resource>, n: nat, c: Chance)
    requires Plentiful(c) && WellAddressed(core) && n < |core| && core[n].uri != ""
    requires OnlyEarlier(aces, core, n) && (n < OCF_SEC_DOXM || n > OCF_SEC_CRED)
    ensures var after := AddDefaultAce(aces, core[n], n, c); OnlyEarlier(after, core, n + 1) && Listed(after, core[n])
  {
    var r := core[n];
    var k := FindAce(aces, 0, OfConn(ANON_CLEAR), 1, 2);
    var res := AceRes(r.uri, r.types, r.interfaces, 0);
    assert NewRes(CorePattern(r)) == res;
    if k < |aces| {
      forall x | x in aces[k].resources ensures !ResMatches(x, CorePattern(r)) {
        assert aces[k].aceid == 1 && HasAddress(core, n, x.href);
        var m :| 0 <= m < n && core[m].uri != "" && x.href == core[m].uri;
        OtherHrefDiffers(x, r);
      }
    }
    hide ResMatches, CorePattern, NewRes, WellAddressed;
    assert c.alloc(2 * n) && c.alloc(2 * n + 1);
    var after := AddDefaultAce(aces, r, n, c);
    assert k < |after| && IsReadEntry(after[k]) && res in after[k].resources;
    forall j, x | 0 <= j < |after| && after[j].aceid == 1 && x in after[j].resources
      ensures HasAddress(core, n + 1, x.href)
    {
      if j < |aces| && x in aces[j].resources {
        assert aces[j].aceid == 1 && HasAddress(core, n, x.href);
      } else {
        assert x == res;
      }
    }
  }

  lemma EmptySlot(aces: seq<Ace>, core: seq<Resource>, n: nat)
    requires n < |core| && OnlyEarlier(aces, core, n)
    ensures OnlyEarlier(aces, core, n + 1)
  {
    forall j, x | 0 <= j < |aces| && aces[j].aceid == 1 && x in aces[j].resources ensures HasAddress(core, n + 1, x.href) {
      assert HasAddress(core, n, x.href);
    }
  }

  lemma {:induction false} CoreIsListed(core: seq<Resource>, n: nat, i: nat, c: Chance)
    requires Plentiful(c) && WellAddressed(core) && n <= |core|
    ensures OnlyEarlier(DefaultAces(core[..n], c), core, n)
    ensures i < n && (i < OCF_SEC_DOXM || i > OCF_SEC_CRED) && core[i].uri != "" ==> Listed(DefaultAces(core[..n], c), core[i])
  {
    hide Plentiful, WellAddressed, OnlyEarlier, Listed, AddDefaultAce, DefaultAces;
    if n == 0 {
      assert core[..0] == [];
      NothingListed(core, c);
    } else {
      CoreIsListed(core, n - 1, i, c);
      var before := DefaultAces(core[..n - 1], c);
      DefaultAcesOneMore(core, n - 1, c);
      if core[n - 1].uri == "" {
        NothingAdded(before, core[n - 1], n - 1, c);
        EmptySlot(before, core, n - 1);
      } else if OCF_SEC_DOXM <= n - 1 <= OCF_SEC_CRED {
        OtherEntry(before, core, n - 1, c);
      } else {
        JoinsReadEntry(before, core, n - 1, c);
      }
      if i < n - 1 && (i < OCF_SEC_DOXM || i > OCF_SEC_CRED) && core[i].uri != "" {
        StaysListed(before, core[i], core[n - 1], n - 1, c);
      }
    }
  }

  lemma NothingListed(core: seq<Resource>, c: Chance)
    ensures OnlyEarlier(DefaultAces([], c), core, 0)
  {
  }

  lemma NothingAdded(aces: seq<Ace>, r: Resource, i: nat, c: Chance)
    requires r.uri == ""
    ensures AddDefaultAce(aces, r, i, c) == aces
  {
  }

  // The security entry says nothing about other addresses.
  lemma SecurityIsElsewhere(a: Access)
    requires a.resource.uri != "" && a.resource.uri[0] == '/' && !IsSecurityUri(a.resource.uri)
    ensures forall j :: 0 <= j < |SecurityEntries(4)| ==> !ResIsFor(SecurityEntries(4)[j], a)
  {
    SecurityEntriesHrefs(4);
    hide SecurityEntries, SharesType, WildcardFor, IsConfiguration;
  }

  // The request names the resource by an interface that it has, and its types are plain.
  predicate Plain(r: Resource, a: Access) {
    a.resource == r && "*" !in r.types && (r.interfaces == 0 || a.interfaces == 0 || r.interfaces & a.interfaces != 0)
  }

  lemma PlainIsFor(r: Resource, a: Access)
    requires Plain(r, a) && r.uri != "" && r.uri[0] == '/'
    ensures ResIsFor(AceRes(r.uri, r.types, r.interfaces, 0), a)
  {
    if r.types != [] {
      assert r.types[0] == a.resource.types[0] && forall k :: 0 <= k <= 0 ==> r.types[k] != "*";
      assert SharesType(r.types, a.resource.types);
    }
  }

  // With the default list anybody may read a core resource outside the four security resources,
  // and nobody may write or delete it.
  lemma AnybodyReads(d: Device, core: seq<Resource>, c: Chance, i: nat, a: Access)
    requires Plentiful(c) && CoreTable(core) && WellAddressed(core) && d.aces == DefaultAces(core, c)
    requires i < |core| && (i < 5 || i > 8) && core[i].uri != "" && core[i].slot == Some(i) && Plain(core[i], a)
    requires d.pstat.s == 3 || i == 0 || i == 4 || i == 9
    ensures Granted(d, a) <==> a.verb == Get
  {
    GrantedLiterally(d, a);
    assert core[..|core|] == core;
    CoreIsListed(core, |core|, i, c);
    DefaultLayout(core, |core|, c);
    PlainIsFor(core[i], a);
    SecurityIsElsewhere(a);
    assert !ByItsOwner(d, a);
    assert InReach(d, a.resource);
    hide Granted, Plentiful, CoreTable, WellAddressed, DefaultAces, ResIsFor, SecurityEntries, InReach, ByItsOwner, Plain;
    forall j | 0 <= j < |d.aces| ensures Lets(d, d.aces[j], a) ==> a.verb == Get {
      if d.aces[j].aceid == 2 {
        assert d.aces[j].resources == SecurityEntries(4);
      }
    }
    var j :| 0 <= j < |d.aces| && IsReadEntry(d.aces[j])
          && AceRes(core[i].uri, core[i].types, core[i].interfaces, 0) in d.aces[j].resources;
    assert EntryIsFor(d.aces[j], a);
  }
}
