/** What a POST to cred stores: the entry as it was posted, its key decoded, and the owner's key
    (security/oc_cred.c). */
module StoredKeys {
  import opened Payload
  import opened CredModel
  import opened DeviceModel
  import opened CredRefusals
  import AclModel
  import Base64

  function PostOf(e: CredEntry, session: Option<nat>): Request {
    CredPost([Prop("creds", ObjectArray([e]))], session)
  }

  // Text is decoded only for a pre-shared key (type 1) that says it is base64.
  predicate IsKeyText(e: CredEntry)
    requires e.Entry?
  {
    e.credtype == 1 && e.encoding == Base64Text
  }

  function TextOr(t: Option<string>): string {
    if t.Some? then t.value else ""
  }

  // The credential is what the entry says.
  predicate IsStoredAs(x: Cred, e: CredEntry)
    requires e.Entry?
  {
    && e.subject == Some(x.subject) && x.credtype == e.credtype && (e.credid != -1 ==> x.credid == e.credid)
    && x.role == TextOr(e.role) && x.authority == (if e.role.Some? then TextOr(e.authority) else "")
    && if IsKeyText(e) then |e.data| == 24 && x.secret == Secret.Provisioned(Raw, Base64.Decoded(e.data))
       else x.secret == Secret.Provisioned(e.encoding, e.data)
  }

  lemma AddedIs(creds: seq<Cred>, e: CredEntry, room: bool, c: Chance)
    requires Fair(c) && ProperIds(creds) && e.Entry? && e.data != []
    ensures var (after, id) := AddCred(creds, e, room, c);
            && (id != -1 <==> e.subject.Some? && room && (IsKeyText(e) ==> |e.data| == 24 && Base64.WellFormed(e.data)))
            && (id != -1 ==>
                  && |after| > 0 && IsStoredAs(after[|after| - 1], e)
                  && after[..|after| - 1] == RemoveFirst(creds, ByCredid(e.credid))
                  && !HasCredid(after[..|after| - 1], after[|after| - 1].credid))
  {
    if e.subject.Some? {
      MakeWayOnce(creds, e);
      var base := MakeWay(creds, e);
      hide MakeWay, Base64.WellFormed, Base64.Decoded, ProperIds, RemoveFirst;
      var (after, id) := AddCred(creds, e, room, c);
      if id != -1 {
        assert after[..|base|] == base;
        if e.credid == -1 {
          forall i | 0 <= i < |base| ensures base[i].credid != id {
            assert base[i].credid in CredIds(base);
          }
        }
      }
    }
  }

  lemma OthersRemain(creds: seq<Cred>, credid: int, y: Cred)
    requires ProperIds(creds)
    ensures y in RemoveFirst(creds, ByCredid(credid)) <==> y in creds && y.credid != credid
  {
    RemovalKeepsOthers(creds, credid);
    RemoveCredidKeepsIds(creds, credid);
    var after := RemoveFirst(creds, ByCredid(credid));
    if y in after {
      var i :| 0 <= i < |after| && after[i] == y;
    }
  }

  // An entry with data is accepted, outside normal operation, exactly when it has a subject, memory
  // suffices and a base64 key is 24 well-formed characters. It is then stored as it was posted, in
  // place of the credential with its identifier, and no other credential goes.
  lemma EntryIsStored(d: Device, e: CredEntry, session: Option<nat>, core: seq<AclModel.Resource>, c: Chance, y: Cred)
    requires Fair(c) && ProperIds(d.creds) && (d.pstat.s == 1 || d.pstat.s == 2 || d.pstat.s == 4)
    requires e.Entry? && e.data != []
    ensures var (after, status) := Step(d, PostOf(e, session), core, c);
            && (status == Changed
                <==> e.subject.Some? && c.alloc(0) && (IsKeyText(e) ==> |e.data| == 24 && Base64.WellFormed(e.data)))
            && (status == Changed ==>
                  && after == d.(creds := after.creds) && |after.creds| > 0
                  && var others, x := after.creds[..|after.creds| - 1], after.creds[|after.creds| - 1];
                  && IsStoredAs(x, e) && !HasCredid(others, x.credid)
                  && (y in others <==> y in d.creds && y.credid != e.credid))
  {
    AddedIs(d.creds, e, c.alloc(0), c);
    OthersRemain(d.creds, e.credid, y);
    var start := CredAcc(d.creds, d.credRowner, None, 0);
    OneEntryApplied(start, e, c);
    var rep := [Prop("creds", ObjectArray([e]))];
    assert rep[0].value.ObjectArray? && (CredAllowed(d.pstat.s, rep) <==> CredPropAllowed(d.pstat.s, rep[0]));
    hide AddCred, IsStoredAs, ApplyCredProps, ProperIds, RemoveFirst, Base64.WellFormed, HasCredid;
  }

  // A posted base64 key is stored as the bytes it encodes.
  lemma KeyIsDecoded(d: Device, e: CredEntry, k: seq<bv8>, session: Option<nat>, core: seq<AclModel.Resource>, c: Chance)
    requires Fair(c) && ProperIds(d.creds) && (d.pstat.s == 1 || d.pstat.s == 2 || d.pstat.s == 4) && c.alloc(0)
    requires e.Entry? && e.subject.Some? && e.credtype == 1 && e.encoding == Base64Text
    requires e.data == Base64.Encoded(k) && |e.data| == 24
    ensures var (after, status) := Step(d, PostOf(e, session), core, c);
            && status == Changed && |after.creds| > 0
            && var x := after.creds[|after.creds| - 1];
            && x.subject == e.subject.value && x.credtype == 1 && (e.credid != -1 ==> x.credid == e.credid)
            && x.secret == Secret.Provisioned(Raw, k) && 16 <= |k| <= 18
  {
    Base64.DecodeEncode(k);
    KeyLength(k);
    hide Base64.Encoded, Base64.Decoded, Base64.WellFormed, Step;
    EntryIsStored(d, e, session, core, c, Cred(0, 0, 0, NoSecret, "", ""));
  }

  lemma KeyLength(k: seq<bv8>)
    requires |Base64.Encoded(k)| == 24
    ensures 16 <= |k| <= 18
  {
  }

  // ----- the owner's key

  // The first key that an owner gets: an entry without data, and the owner named as resource owner.
  function OwnerPost(credid: int, owner: Uuid, session: Option<nat>): Request {
    CredPost([Prop("creds", ObjectArray([Entry(credid, 1, Some(owner), Raw, [], None, None)])),
              Prop("rowneruuid", Text(owner))], session)
  }

  lemma OwnerEntryApplied(a: CredAcc, credid: int, owner: Uuid, c: Chance)
    requires Plentiful(c) && ProperIds(a.creds)
    ensures var entry := Entry(credid, 1, Some(owner), Raw, [], None, None);
            var base := RemoveFirst(a.creds, ByCredid(credid));
            var (b, ok) := ApplyCredEntry(a, entry, c);
            && ok && b.owner.Some? && (credid != -1 ==> b.owner.value == credid) && !HasCredid(base, b.owner.value)
            && b == CredAcc(base + [Cred(b.owner.value, 1, owner, NoSecret, "", "")], a.rowner, b.owner, a.n + 1)
  {
    var entry := Entry(credid, 1, Some(owner), Raw, [], None, None);
    MakeWayOnce(a.creds, entry);
    var base := MakeWay(a.creds, entry);
    hide MakeWay, RemoveFirst, ProperIds;
    assert c.alloc(a.n);
    if credid == -1 {
      var id := c.id(CredIds(base) + {0});
      forall i | 0 <= i < |base| ensures base[i].credid != id {
        assert base[i].credid in CredIds(base);
      }
    }
  }

  lemma OwnerPostApplied(a: CredAcc, credid: int, owner: Uuid, session: Option<nat>, c: Chance)
    requires Plentiful(c) && ProperIds(a.creds)
    ensures var (b, ok) := ApplyCredEntry(a, Entry(credid, 1, Some(owner), Raw, [], None, None), c);
            ApplyCredProps(a, OwnerPost(credid, owner, session).cred, c) == (b.(rowner := owner), true)
  {
    OwnerEntryApplied(a, credid, owner, c);
    var rep := OwnerPost(credid, owner, session).cred;
    var e := rep[0].value.items[0];
    hide ApplyCredEntry, ProperIds, RemoveFirst;
    assert rep[1..] == [rep[1]] && rep[1..][1..] == [] && [e][1..] == [];
    var (b, ok) := ApplyCredEntry(a, e, c);
    assert ApplyCredEntries(a, [e], c) == (b, true);
    assert ApplyCredProps(b, [rep[1]], c) == (b.(rowner := owner), true);
  }

  lemma LastIs(base: seq<Cred>, x: Cred)
    requires !HasCredid(base, x.credid)
    ensures Find(base + [x], ByCredid(x.credid)) == |base|
    ensures forall y :: (base + [x])[|base| := y] == base + [y]
  {
    assert (base + [x])[|base|] == x;
  }

  // The key is derived from the session, the label of the selected transfer method, the device's and
  // the owner's identity. Without a session the POST is refused and the entry withdrawn.
  lemma OwnerKey(d: Device, credid: int, owner: Uuid, session: Option<nat>, core: seq<AclModel.Resource>, c: Chance)
    requires Plentiful(c) && ProperIds(d.creds) && (d.pstat.s == 1 || d.pstat.s == 4)
    ensures var (after, status) := Step(d, OwnerPost(credid, owner, session), core, c);
            var others := RemoveFirst(d.creds, ByCredid(credid));
            var oxm := if d.doxm.oxmsel == 0 then "oic.sec.doxm.jw" else "oic.sec.doxm.rdp";
            if (d.doxm.oxmsel == 0 || d.doxm.oxmsel == 1) && session.None? then
              status == BadRequest && after == d.(creds := others, credRowner := owner)
            else
              status == Changed && |after.creds| == |others| + 1
              && after == d.(creds := others + [after.creds[|others|]], credRowner := owner)
              && var x := after.creds[|others|];
              && x == Cred(x.credid, 1, owner, x.secret, "", "") && (credid != -1 ==> x.credid == credid)
              && x.secret == if d.doxm.oxmsel == 0 || d.doxm.oxmsel == 1
                             then Derived(KdfArgs(session.value, oxm, d.doxm.deviceuuid, owner)) else Unset
  {
    var start := CredAcc(d.creds, d.credRowner, None, 0);
    OwnerEntryApplied(start, credid, owner, c);
    OwnerPostApplied(start, credid, owner, session, c);
    var rep := OwnerPost(credid, owner, session).cred;
    assert CredPropAllowed(d.pstat.s, rep[0]) && CredPropAllowed(d.pstat.s, rep[1]);
    assert CredAllowed(d.pstat.s, rep);
    var others := RemoveFirst(d.creds, ByCredid(credid));
    var b := ApplyCredEntry(start, Entry(credid, 1, Some(owner), Raw, [], None, None), c).0;
    var x := Cred(b.owner.value, 1, owner, NoSecret, "", "");
    LastIs(others, x);
    LastRemoved(others, x);
    hide ApplyCredProps, ApplyCredEntry, CredAllowed, ProperIds, RemoveFirst, HasCredid;
  }

  // ----- removal

  // A DELETE of one credential, outside normal operation: it goes when there is one, else nothing changes.
  lemma DeletedCred(d: Device, id: int, core: seq<AclModel.Resource>, c: Chance, y: Cred)
    requires d.pstat.s != 3 && ProperIds(d.creds) && id != 0
    ensures var (after, status) := Step(d, CredDelete(Some(id)), core, c);
            && (if exists i :: 0 <= i < |d.creds| && d.creds[i].credid == id then status == Deleted
                else status == NotFound && after == d)
            && after == d.(creds := after.creds) && (y in after.creds <==> y in d.creds && y.credid != id)
  {
    OthersRemain(d.creds, id, y);
    RemovalKeepsOthers(d.creds, id);
    hide RemoveFirst, ProperIds;
    if !HasCredid(d.creds, id) && y in d.creds {
      var i :| 0 <= i < |d.creds| && d.creds[i] == y;
    }
  }
}
