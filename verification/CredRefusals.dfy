/** What a POST to cred leaves behind when it is refused (security/oc_cred.c). */
module CredRefusals {
  import opened Payload
  import opened CredModel
  import opened DeviceModel
  import opened Lists
  import Base64

  // ----- which entry fails

  // The entries of a payload, in the order in which they are handled.
  function Entries(rep: seq<Prop<CredEntry>>): seq<CredEntry> {
    if rep == [] then []
    else
      var p := rep[0];
      (if p.value.ObjectArray? && (p.name == "creds" || p.name == "roles") then p.value.items else [])
      + Entries(rep[1..])
  }

  // There is nothing to store, or it can be stored.
  predicate Storable(e: CredEntry, room: bool) {
    e.EmptyEntry? || (e.Entry? && e.subject.Some? && room && EntrySecret(e).Some?)
  }

  // Index of the first entry that cannot be stored, or |es|; n entries asked for memory before.
  function FailsAt(es: seq<CredEntry>, n: nat, c: Chance): (f: nat)
    ensures f <= |es|
  {
    if es == [] || !Storable(es[0], c.alloc(n)) then 0
    else 1 + FailsAt(es[1..], if es[0].Entry? then n + 1 else n, c)
  }

  // The entry takes the place of the stored credential with this identifier.
  predicate Names(e: CredEntry, credid: int) {
    e.Entry? && e.subject.Some? && e.credid == credid
  }

  predicate Keyless(e: CredEntry) {
    e.Entry? && e.credtype == CREDTYPE_PSK && e.data == []
  }

  // One more than the index of the last keyless entry among the first f, the one that waits for
  // the owner's key; 0 when there is none.
  function Waiting(es: seq<CredEntry>, f: nat): (k: nat)
    requires f <= |es|
    ensures k <= f && (k > 0 ==> Keyless(es[k - 1]))
  {
    if f == 0 then 0
    else
      var k := Waiting(es[1..], f - 1);
      if k > 0 then k + 1 else if Keyless(es[0]) then 1 else 0
  }

  // The failing entry, or the one that waits for the owner's key, names the credential.
  predicate Lost(es: seq<CredEntry>, c: Chance, credid: int) {
    var f := FailsAt(es, 0, c);
    var k := Waiting(es, f);
    (f < |es| && Names(es[f], credid)) || (k > 0 && Names(es[k - 1], credid))
  }

  // No entry that is handled, the failing one included, names the credential.
  predicate Unnamed(es: seq<CredEntry>, c: Chance, n: nat, credid: int) {
    forall j :: 0 <= j < |es| && j <= FailsAt(es, n, c) ==> !Names(es[j], credid)
  }

  // ----- a payload is applied as the list of its entries

  lemma {:induction false} EntriesConcat(a: CredAcc, x: seq<CredEntry>, y: seq<CredEntry>, c: Chance)
    ensures var (b, ok) := ApplyCredEntries(a, x, c);
            ApplyCredEntries(a, x + y, c) == if ok then ApplyCredEntries(b, y, c) else (b, false)
    decreases |x|
  {
    if x == [] {
      assert x + y == y;
    } else {
      assert (x + y)[0] == x[0] && (x + y)[1..] == x[1..] + y;
      var (b, ok) := ApplyCredEntry(a, x[0], c);
      if ok {
        EntriesConcat(b, x[1..], y, c);
      }
    }
  }

  lemma {:induction false} EntriesIgnoreRowner(a: CredAcc, es: seq<CredEntry>, c: Chance, rowner: Uuid)
    ensures var (b, ok) := ApplyCredEntries(a, es, c);
            b.rowner == a.rowner && ApplyCredEntries(a.(rowner := rowner), es, c) == (b.(rowner := rowner), ok)
    decreases |es|
  {
    hide AddCred;
    if es != [] {
      var (b, ok) := ApplyCredEntry(a, es[0], c);
      assert ApplyCredEntry(a.(rowner := rowner), es[0], c) == (b.(rowner := rowner), ok);
      if ok {
        EntriesIgnoreRowner(b, es[1..], c, rowner);
      }
    }
  }

  lemma {:induction false} PropsAreEntries(a: CredAcc, rep: seq<Prop<CredEntry>>, c: Chance)
    ensures var (b, ok) := ApplyCredProps(a, rep, c);
            ApplyCredEntries(a.(rowner := b.rowner), Entries(rep), c) == (b, ok)
    decreases |rep|
  {
    hide ApplyCredEntry;
    if rep != [] {
      var p := rep[0];
      var (m, good) := ApplyCredProp(a, p, c);
      var (b, ok) := ApplyCredProps(a, rep, c);
      if p.value.ObjectArray? && (p.name == "creds" || p.name == "roles") {
        EntriesIgnoreRowner(a, p.value.items, c, b.rowner);
        EntriesConcat(a.(rowner := b.rowner), p.value.items, Entries(rep[1..]), c);
      } else {
        assert Entries(rep) == Entries(rep[1..]);
      }
      if good {
        PropsAreEntries(m, rep[1..], c);
      }
    }
  }

  // ----- one entry

  lemma RemovalKeepsOthers(creds: seq<Cred>, credid: int)
    ensures forall i :: 0 <= i < |creds| && creds[i].credid != credid ==> creds[i] in RemoveFirst(creds, ByCredid(credid))
    ensures HasCredid(creds, credid) <==> RemoveFirst(creds, ByCredid(credid)) != creds
  {
    var k := Find(creds, ByCredid(credid));
    if k < |creds| {
      var after := RemoveAt(creds, k);
      forall i | 0 <= i < |creds| && creds[i].credid != credid ensures creds[i] in after {
        assert creds[i] == after[if i < k then i else i - 1];
      }
    }
  }

  lemma RemovalTakesOne(creds: seq<Cred>, removed: int, credid: int)
    requires ProperIds(creds)
    ensures HasCredid(RemoveFirst(creds, ByCredid(removed)), credid) <==> HasCredid(creds, credid) && credid != removed
  {
    RemoveCredidKeepsIds(creds, removed);
    RemovalKeepsOthers(creds, removed);
  }

  // An entry that is stored keeps every identifier; one that fails takes away the one it names.
  lemma EntryStep(a: CredAcc, e: CredEntry, c: Chance, x: Cred)
    requires Fair(c) && ProperIds(a.creds) && x in a.creds
    ensures var (b, ok) := ApplyCredEntry(a, e, c);
            && ProperIds(b.creds) && b.n == (if e.Entry? then a.n + 1 else a.n)
            && (ok <==> Storable(e, c.alloc(a.n)))
            && (HasCredid(b.creds, x.credid) <==> ok || !Names(e, x.credid))
            && (!Names(e, x.credid) ==> x in b.creds)
            && (b.owner == Some(x.credid) <==>
                  if ok && Keyless(e) then Names(e, x.credid) else a.owner == Some(x.credid))
  {
    hide EntrySecret, EntryRole, EntryAuthority, MakeWay, RemoveFirst;
    var i :| 0 <= i < |a.creds| && a.creds[i] == x;
    assert HasCredid(a.creds, x.credid);
    if e.Entry? && e.subject.Some? {
      AddCredKeepsIds(a.creds, e, c.alloc(a.n), c);
      MakeWayOnce(a.creds, e);
      RemovalKeepsOthers(a.creds, e.credid);
      var base := MakeWay(a.creds, e);
      RemovalTakesOne(a.creds, e.credid, x.credid);
      assert e.credid != x.credid ==> x in base && x.credid in CredIds(base);
      var (b, ok) := ApplyCredEntry(a, e, c);
      assert ok ==> b.creds[..|base|] == base && |b.creds| == |base| + 1;
      assert ok && Names(e, x.credid) ==> b.creds[|base|].credid == x.credid;
    }
  }

  // ----- all entries

  lemma {:induction false} EntriesKeepId(a: CredAcc, es: seq<CredEntry>, c: Chance, credid: int)
    requires Fair(c) && ProperIds(a.creds) && HasCredid(a.creds, credid)
    ensures var (b, ok) := ApplyCredEntries(a, es, c);
            var f := FailsAt(es, a.n, c);
            var k := Waiting(es, f);
            && ProperIds(b.creds) && (ok <==> f == |es|)
            && (HasCredid(b.creds, credid) <==> ok || !Names(es[f], credid))
            && (b.owner == Some(credid) <==> if k > 0 then Names(es[k - 1], credid) else a.owner == Some(credid))
    decreases |es|
  {
    hide ApplyCredEntry, Storable, Names;
    if es != [] {
      var i :| 0 <= i < |a.creds| && a.creds[i].credid == credid;
      EntryStep(a, es[0], c, a.creds[i]);
      var (b, ok) := ApplyCredEntry(a, es[0], c);
      if ok {
        EntriesKeepId(b, es[1..], c, credid);
      }
    }
  }

  lemma {:induction false} EntriesKeepCred(a: CredAcc, es: seq<CredEntry>, c: Chance, x: Cred)
    requires Fair(c) && ProperIds(a.creds) && x in a.creds && Unnamed(es, c, a.n, x.credid)
    ensures x in ApplyCredEntries(a, es, c).0.creds
    decreases |es|
  {
    hide ApplyCredEntry, Storable, Names;
    if es != [] {
      EntryStep(a, es[0], c, x);
      var (b, ok) := ApplyCredEntry(a, es[0], c);
      if ok {
        assert Unnamed(es[1..], c, b.n, x.credid) by {
          forall j | 0 <= j < |es[1..]| && j <= FailsAt(es[1..], b.n, c) ensures !Names(es[1..][j], x.credid) {
            assert es[1..][j] == es[j + 1];
          }
        }
        EntriesKeepCred(b, es[1..], c, x);
      }
    }
  }

  // ----- the whole request

  // A stored identifier survives a refused POST exactly when the state refused the payload, or
  // neither the entry that failed nor the one that waits for the owner's key names it.
  lemma RefusedPostKeepsId(d: Device, rep: seq<Prop<CredEntry>>, session: Option<nat>, c: Chance, credid: int)
    requires Fair(c) && ProperIds(d.creds) && HasCredid(d.creds, credid)
    requires PostCred(d, rep, session, c).1 == BadRequest
    ensures HasCredid(PostCred(d, rep, session, c).0.creds, credid)
       <==> !CredAllowed(d.pstat.s, rep) || !Lost(Entries(rep), c, credid)
  {
    hide ApplyCredProps, FailsAt, Waiting, Names, CredAllowed;
    var start := CredAcc(d.creds, d.credRowner, None, 0);
    var (a, ok) := ApplyCredProps(start, rep, c);
    PropsAreEntries(start, rep, c);
    EntriesKeepId(start.(rowner := a.rowner), Entries(rep), c, credid);
    if a.owner.Some? {
      RemovalTakesOne(a.creds, a.owner.value, credid);
    }
  }

  // A stored credential that no handled entry names is still there, as it was.
  lemma RefusedPostKeepsCred(d: Device, rep: seq<Prop<CredEntry>>, session: Option<nat>, c: Chance, x: Cred)
    requires Fair(c) && ProperIds(d.creds) && x in d.creds
    requires PostCred(d, rep, session, c).1 == BadRequest && Unnamed(Entries(rep), c, 0, x.credid)
    ensures x in PostCred(d, rep, session, c).0.creds
  {
    hide ApplyCredProps, FailsAt, Names, CredAllowed;
    var start := CredAcc(d.creds, d.credRowner, None, 0);
    var (a, ok) := ApplyCredProps(start, rep, c);
    PropsAreEntries(start, rep, c);
    var i :| 0 <= i < |d.creds| && d.creds[i] == x;
    EntriesKeepId(start.(rowner := a.rowner), Entries(rep), c, x.credid);
    EntriesKeepCred(start.(rowner := a.rowner), Entries(rep), c, x);
    if a.owner.Some? {
      RemovalKeepsOthers(a.creds, a.owner.value);
    }
  }

  // ----- the entry that waits for the owner's key

  predicate HoldsKeyless(creds: seq<Cred>, credid: int) {
    exists i :: 0 <= i < |creds| && creds[i].credid == credid
             && creds[i].credtype == CREDTYPE_PSK && creds[i].secret == NoSecret
  }

  // One of the entries from number k to number f names the credential.
  predicate NamedLater(es: seq<CredEntry>, k: nat, f: nat, credid: int) {
    exists j :: k <= j <= f && j < |es| && Names(es[j], credid)
  }

  lemma HoldsWithout(creds: seq<Cred>, removed: int, credid: int)
    requires ProperIds(creds)
    ensures HoldsKeyless(RemoveFirst(creds, ByCredid(removed)), credid) <==> HoldsKeyless(creds, credid) && credid != removed
  {
    RemoveCredidKeepsIds(creds, removed);
    RemovalKeepsOthers(creds, removed);
    var after := RemoveFirst(creds, ByCredid(removed));
    forall i | 0 <= i < |after| ensures after[i] in creds && after[i].credid != removed {
    }
  }

  lemma HoldsOneMore(creds: seq<Cred>, x: Cred, credid: int)
    ensures HoldsKeyless(creds + [x], credid)
       <==> HoldsKeyless(creds, credid) || (x.credid == credid && x.credtype == CREDTYPE_PSK && x.secret == NoSecret)
  {
    var all := creds + [x];
    assert all[|creds|] == x && forall i :: 0 <= i < |creds| ==> all[i] == creds[i];
  }

  // One entry takes the keyless credential away exactly when it names it; a keyless one is stored itself.
  lemma EntryKeepsKeyless(a: CredAcc, e: CredEntry, c: Chance, credid: int)
    requires Fair(c) && ProperIds(a.creds) && credid != -1
    ensures var (b, ok) := ApplyCredEntry(a, e, c);
            && (ok && Keyless(e) ==> b.owner.Some? && HoldsKeyless(b.creds, b.owner.value))
            && (!ok || !Keyless(e) ==> b.owner == a.owner)
            && (!ok || !Keyless(e) ==>
                  (HoldsKeyless(b.creds, credid) <==> HoldsKeyless(a.creds, credid) && !Names(e, credid)))
  {
    hide EntryRole, EntryAuthority, MakeWay, RemoveFirst, HoldsKeyless, Base64.WellFormed, Base64.Decoded;
    if e.Entry? && e.subject.Some? {
      MakeWayOnce(a.creds, e);
      HoldsWithout(a.creds, e.credid, credid);
      var base := MakeWay(a.creds, e);
      var (b, ok) := ApplyCredEntry(a, e, c);
      if ok {
        var x := b.creds[|base|];
        assert b.creds == base + [x];
        HoldsOneMore(base, x, credid);
        HoldsOneMore(base, x, x.credid);
      }
    }
  }

  lemma NamedShift(es: seq<CredEntry>, k: nat, f: nat, credid: int)
    requires es != []
    ensures NamedLater(es, k + 1, f + 1, credid) <==> NamedLater(es[1..], k, f, credid)
    ensures NamedLater(es, 0, f + 1, credid) <==> Names(es[0], credid) || NamedLater(es[1..], 0, f, credid)
  {
    var rest := es[1..];
    assert forall j :: 0 <= j < |rest| ==> rest[j] == es[j + 1];
    if j :| k + 1 <= j <= f + 1 && j < |es| && Names(es[j], credid) {
      assert Names(rest[j - 1], credid);
    }
    if j :| 0 <= j <= f + 1 && j < |es| && Names(es[j], credid) {
      assert j > 0 ==> Names(rest[j - 1], credid);
    }
    if j :| k <= j <= f && j < |rest| && Names(rest[j], credid) {
      assert Names(es[j + 1], credid);
    }
    if j :| 0 <= j <= f && j < |rest| && Names(rest[j], credid) {
      assert Names(es[j + 1], credid);
    }
  }

  lemma {:induction false} KeylessStays(a: CredAcc, es: seq<CredEntry>, c: Chance)
    requires Fair(c) && ProperIds(a.creds) && (a.owner.Some? ==> a.owner.value != -1)
    ensures var b := ApplyCredEntries(a, es, c).0;
            var f := FailsAt(es, a.n, c);
            var k := Waiting(es, f);
            && (k > 0 ==> b.owner.Some?) && (k == 0 ==> b.owner == a.owner) && (b.owner.Some? ==> b.owner.value != -1)
            && (b.owner.Some? ==>
                  (HoldsKeyless(b.creds, b.owner.value)
                   <==> !NamedLater(es, k, f, b.owner.value) && (k == 0 ==> HoldsKeyless(a.creds, b.owner.value))))
    decreases |es|
  {
    hide ApplyCredEntry, Storable, Names, HoldsKeyless, NamedLater, Keyless;
    if es != [] {
      EntryRuns(a, es[0], c);
      var (m, ok) := ApplyCredEntry(a, es[0], c);
      if ok {
        KeylessStays(m, es[1..], c);
        var b := ApplyCredEntries(a, es, c).0;
        if b.owner.Some? {
          EntryKeepsKeyless(a, es[0], c, b.owner.value);
          var f := FailsAt(es[1..], m.n, c);
          NamedShift(es, Waiting(es[1..], f), f, b.owner.value);
        }
      } else if a.owner.Some? {
        EntryKeepsKeyless(a, es[0], c, a.owner.value);
        FailedNames(es, a.owner.value);
      }
    } else if a.owner.Some? {
      NoneNamed(a.owner.value);
    }
  }

  lemma EntryRuns(a: CredAcc, e: CredEntry, c: Chance)
    requires Fair(c) && ProperIds(a.creds) && (a.owner.Some? ==> a.owner.value != -1)
    ensures var (b, ok) := ApplyCredEntry(a, e, c);
            && ProperIds(b.creds) && b.n == (if e.Entry? then a.n + 1 else a.n)
            && (ok <==> Storable(e, c.alloc(a.n)))
            && (b.owner.Some? ==> b.owner.value != -1)
            && (b.owner == a.owner || (ok && Keyless(e) && b.owner.Some?)) && (ok && Keyless(e) ==> b.owner.Some?)
  {
    hide EntrySecret, EntryRole, EntryAuthority, MakeWay;
    if e.Entry? && e.subject.Some? {
      AddCredKeepsIds(a.creds, e, c.alloc(a.n), c);
    }
  }

  lemma FailedNames(es: seq<CredEntry>, credid: int)
    requires es != []
    ensures NamedLater(es, 0, 0, credid) <==> Names(es[0], credid)
  {
  }

  lemma NoneNamed(credid: int)
    ensures !NamedLater([], 0, 0, credid)
  {
  }

  // The source keeps a pointer to the credential that waits for the owner's key. It is still that
  // credential exactly when no entry handled after it names its identifier.
  lemma OwnerEntryStays(d: Device, rep: seq<Prop<CredEntry>>, c: Chance)
    requires Fair(c) && ProperIds(d.creds)
    ensures var (a, ok) := ApplyCredProps(CredAcc(d.creds, d.credRowner, None, 0), rep, c);
            var es := Entries(rep);
            var f := FailsAt(es, 0, c);
            var k := Waiting(es, f);
            && (a.owner.Some? <==> k > 0)
            && (a.owner.Some? ==> (HoldsKeyless(a.creds, a.owner.value) <==> !NamedLater(es, k, f, a.owner.value)))
  {
    hide ApplyCredProps, FailsAt, Waiting, HoldsKeyless, NamedLater, Entries;
    var start := CredAcc(d.creds, d.credRowner, None, 0);
    var (a, ok) := ApplyCredProps(start, rep, c);
    PropsAreEntries(start, rep, c);
    KeylessStays(start.(rowner := a.rowner), Entries(rep), c);
  }

  // ----- what stays as it was

  // Only a rowneruuid changes the resource owner, and RFPRO does not allow one.
  lemma {:induction false} RownerKept(a: CredAcc, rep: seq<Prop<CredEntry>>, c: Chance, s: int)
    requires CredAllowed(s, rep)
    requires s == RFPRO || forall i :: 0 <= i < |rep| ==> rep[i].name != "rowneruuid"
    ensures ApplyCredProps(a, rep, c).0.rowner == a.rowner
    decreases |rep|
  {
    hide ApplyCredEntry;
    if rep != [] {
      assert CredPropAllowed(s, rep[0]);
      if rep[0].value.ObjectArray? {
        EntriesIgnoreRowner(a, rep[0].value.items, c, a.rowner);
      }
      var (b, ok) := ApplyCredProp(a, rep[0], c);
      if ok {
        RownerKept(b, rep[1..], c, s);
      }
    }
  }

  // Empty entries do nothing, and the entry that fails after them only takes away what it names.
  lemma {:induction false} FirstToFail(a: CredAcc, es: seq<CredEntry>, c: Chance)
    requires Fair(c) && ProperIds(a.creds) && FailsAt(es, a.n, c) < |es|
    requires forall j :: 0 <= j < FailsAt(es, a.n, c) ==> es[j].EmptyEntry?
    ensures var (b, ok) := ApplyCredEntries(a, es, c);
            var e := es[FailsAt(es, a.n, c)];
            !ok && b.owner == a.owner
            && b.creds == if e.Entry? && e.subject.Some? then RemoveFirst(a.creds, ByCredid(e.credid)) else a.creds
    decreases |es|
  {
    hide EntrySecret, EntryRole, EntryAuthority, MakeWay;
    if !Storable(es[0], c.alloc(a.n)) {
      if es[0].Entry? && es[0].subject.Some? {
        MakeWayOnce(a.creds, es[0]);
      }
    } else {
      assert es[0].EmptyEntry?;
      forall j | 0 <= j < FailsAt(es[1..], a.n, c) ensures es[1..][j].EmptyEntry? {
        assert es[1..][j] == es[j + 1];
      }
      FirstToFail(a, es[1..], c);
    }
  }

  // When nothing takes effect before the entry that fails, the credentials stay as they were
  // exactly when that entry has no subject or its identifier is not stored.
  lemma RefusedPostChangesNothing(d: Device, rep: seq<Prop<CredEntry>>, session: Option<nat>, c: Chance)
    requires Fair(c) && ProperIds(d.creds) && CredAllowed(d.pstat.s, rep)
    requires d.pstat.s == RFPRO || forall i :: 0 <= i < |rep| ==> rep[i].name != "rowneruuid"
    requires var es := Entries(rep); FailsAt(es, 0, c) < |es| && forall j :: 0 <= j < FailsAt(es, 0, c) ==> es[j].EmptyEntry?
    ensures var e := Entries(rep)[FailsAt(Entries(rep), 0, c)];
            var (after, status) := PostCred(d, rep, session, c);
            && status == BadRequest
            && (after == d <==> !e.Entry? || e.subject.None? || !HasCredid(d.creds, e.credid))
  {
    hide ApplyCredProps, FailsAt, CredAllowed, EntrySecret;
    var start := CredAcc(d.creds, d.credRowner, None, 0);
    RownerKept(start, rep, c, d.pstat.s);
    PropsAreEntries(start, rep, c);
    FirstToFail(start, Entries(rep), c);
    var e := Entries(rep)[FailsAt(Entries(rep), 0, c)];
    if e.Entry? {
      RemovalKeepsOthers(d.creds, e.credid);
    }
  }

  lemma OneEntryApplied(a: CredAcc, e: CredEntry, c: Chance)
    ensures ApplyCredProps(a, [Prop("creds", ObjectArray([e]))], c) == ApplyCredEntry(a, e, c)
  {
    hide ApplyCredEntry;
    assert [e][1..] == [];
    assert ApplyCredEntries(a, [e], c) == ApplyCredEntry(a, e, c);
  }

  // A refused POST of one entry leaves the device as it was exactly when the entry has no
  // subject or its identifier is not stored, whether the key is malformed, memory is short
  // or the owner's key cannot be derived.
  lemma OneEntryRefused(d: Device, e: CredEntry, session: Option<nat>, c: Chance)
    requires Fair(c) && ProperIds(d.creds) && e.Entry?
    requires var rep := [Prop("creds", ObjectArray([e]))];
             CredAllowed(d.pstat.s, rep) && PostCred(d, rep, session, c).1 == BadRequest
    ensures PostCred(d, [Prop("creds", ObjectArray([e]))], session, c).0 == d
       <==> e.subject.None? || !HasCredid(d.creds, e.credid)
  {
    hide EntrySecret, EntryRole, EntryAuthority, MakeWay, RemoveFirst;
    var start := CredAcc(d.creds, d.credRowner, None, 0);
    var rep := [Prop("creds", ObjectArray([e]))];
    OneEntryApplied(start, e, c);
    if e.subject.Some? {
      MakeWayOnce(d.creds, e);
      RemovalKeepsOthers(d.creds, e.credid);
      var (a, ok) := ApplyCredEntry(start, e, c);
      if a.owner.Some? {
        LastRemoved(MakeWay(d.creds, e), a.creds[|a.creds| - 1]);
      }
    }
  }

  // Taking away a credential just added, whose identifier is new, undoes the addition.
  lemma LastRemoved(base: seq<Cred>, x: Cred)
    requires !HasCredid(base, x.credid)
    ensures RemoveFirst(base + [x], ByCredid(x.credid)) == base
  {
    var k := Find(base + [x], ByCredid(x.credid));
    assert (base + [x])[|base|] == x;
    assert k == |base|;
  }

  // ----- examples

  // The second entry is malformed, the first has been stored.
  lemma RefusedPostMayStore(d: Device, c: Chance)
    requires Plentiful(c) && d.pstat.s == RFOTM && d.creds == []
    ensures var entry := Entry(5, CREDTYPE_PSK, Some(1), Raw, [7], None, None);
            var (after, status) := PostCred(d, [Prop("creds", ObjectArray([entry, UnsupportedEncoding]))], None, c);
            status == BadRequest && after.creds == [Cred(5, CREDTYPE_PSK, 1, Provisioned(Raw, [7]), "", "")]
  {
    var entry := Entry(5, CREDTYPE_PSK, Some(1), Raw, [7], None, None);
    var rep := [Prop("creds", ObjectArray([entry, UnsupportedEncoding]))];
    var start := CredAcc([], d.credRowner, None, 0);
    var (b, ok) := ApplyCredEntry(start, entry, c);
    assert [entry, UnsupportedEncoding][1..] == [UnsupportedEncoding];
    assert ApplyCredEntries(b, [UnsupportedEncoding], c) == (b, false);
    assert ApplyCredEntries(start, [entry, UnsupportedEncoding], c) == (b, false);
    assert ApplyCredProps(start, rep, c) == (b, false);
  }

  // The malformed entry replaces nothing, but what it names is gone.
  lemma RefusedPostMayRemove(d: Device, x: Cred, c: Chance)
    requires d.pstat.s == RFPRO && d.creds == [x] && x.credid == 5
    ensures var entry := Entry(5, CREDTYPE_PSK, Some(1), Base64Text, [7], None, None);
            var (after, status) := PostCred(d, [Prop("creds", ObjectArray([entry]))], None, c);
            status == BadRequest && after.creds == []
  {
    var entry := Entry(5, CREDTYPE_PSK, Some(1), Base64Text, [7], None, None);
    assert RemoveFirst([x], ByCredid(5)) == [];
    OneEntryApplied(CredAcc([x], d.credRowner, None, 0), entry, c);
  }

  // The second entry takes the place of the first, which waits for the owner's key.
  lemma OwnerEntryReplaced(d: Device, c: Chance)
    requires Plentiful(c) && ProperIds(d.creds)
    ensures var keyless := Entry(5, CREDTYPE_PSK, Some(1), Raw, [], None, None);
            var keyed := Entry(5, CREDTYPE_PSK, Some(1), Raw, [7], None, None);
            var a := ApplyCredProps(CredAcc(d.creds, d.credRowner, None, 0), [Prop("creds", ObjectArray([keyless, keyed]))], c).0;
            a.owner == Some(5) && !HoldsKeyless(a.creds, 5)
  {
    var keyless := Entry(5, CREDTYPE_PSK, Some(1), Raw, [], None, None);
    var keyed := Entry(5, CREDTYPE_PSK, Some(1), Raw, [7], None, None);
    var es := [keyless, keyed];
    var rep := [Prop("creds", ObjectArray(es))];
    PairRuns(keyless, keyed, c);
    OwnerOfPair(CredAcc(d.creds, d.credRowner, None, 0), keyless, keyed, c);
    hide ApplyCredProps, FailsAt, Waiting, Entries, HoldsKeyless;
    OwnerEntryStays(d, rep, c);
    assert Names(es[1], 5);
  }

  lemma PairRuns(x: CredEntry, y: CredEntry, c: Chance)
    requires Keyless(x) && y.Entry? && !Keyless(y) && Storable(x, c.alloc(0)) && Storable(y, c.alloc(1))
    ensures Entries([Prop("creds", ObjectArray([x, y]))]) == [x, y]
    ensures FailsAt([x, y], 0, c) == 2 && Waiting([x, y], 2) == 1
  {
    hide Storable;
    assert [Prop("creds", ObjectArray([x, y]))][1..] == [] && [x, y][1..] == [y] && [y][1..] == [];
    Nothing([x, y]);
    assert FailsAt([y], 1, c) == 1 && Waiting([y], 1) == 0;
  }

  lemma OwnerOfPair(a: CredAcc, x: CredEntry, y: CredEntry, c: Chance)
    requires Plentiful(c) && Keyless(x) && x.subject.Some? && x.credid != -1 && y.Entry? && !Keyless(y)
    ensures ApplyCredProps(a, [Prop("creds", ObjectArray([x, y]))], c).0.owner == Some(x.credid)
  {
    hide MakeWay, EntryRole, EntryAuthority, Base64.WellFormed, Base64.Decoded;
    assert [x, y][1..] == [y] && [y][1..] == [];
    var (m, ok) := ApplyCredEntry(a, x, c);
    assert ok && m.owner == Some(x.credid);
    assert ApplyCredEntries(m, [y], c).0.owner == Some(x.credid);
  }
}
