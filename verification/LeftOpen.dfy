/** A run from a reset to normal operation that ends with the credentials open to anybody:
    the owner provisions a list on which tightening stops too soon. */
module LeftOpen {
  import opened Payload
  import opened AclModel
  import opened CredModel
  import opened DeviceModel
  import opened AccessControl
  import opened Tightening
  import opened DefaultAcl
  import opened Transfer
  import M = ObtModel

  function OpenEntry(aceid: int, uri: string): AceEntry {
    AceEntry(OfConn(ANON_CLEAR), 14, aceid, [Pattern(Some(uri), None, 0, WC_NONE)])
  }

  function OpenAce(aceid: int, uri: string): Ace {
    Ace(aceid, OfConn(ANON_CLEAR), 14, [AceRes(uri, [], 0, 0)])
  }

  // What the owner asks for: an empty list, two entries on it, and normal operation.
  function OwnerAsks(i: nat): M.ToolRequest
    requires i < 3
  {
    if i == 0 then M.Send(AclDelete(None))
    else if i == 1 then M.Send(AclPost([Prop("aclist2", ObjectArray([OpenEntry(7, ACL_URI), OpenEntry(8, CRED_URI)]))]))
    else M.SwitchTo(RFNOP)
  }

  // The owner's authenticated connection.
  ghost predicate ByOwner(l: Link, me: Uuid) {
    l.peer == Some(Peer(me, true)) && Plentiful(l.chance)
  }

  // One posted entry, with an identifier that is new.
  lemma OneEntry(a: AclAcc, aceid: int, uri: string, c: Chance)
    requires Plentiful(c) && aceid != -1 && forall i :: 0 <= i < |a.aces| ==> a.aces[i].aceid != aceid
    ensures ApplyAceEntry(a, OpenEntry(aceid, uri), c) == AclAcc(a.aces + [OpenAce(aceid, uri)], a.n + 1)
  {
    var e := OpenEntry(aceid, uri);
    RemoveAceAbsent(a.aces, aceid);
    var k := FindAce(a.aces, 0, e.subject, aceid, 14);
    assert k == |a.aces|;
    assert c.alloc(2 * a.n) && c.alloc(2 * a.n + 1);
    var p := e.resources[0];
    var after := UpdateRes(a.aces, e.subject, p, aceid, 14, c, a.n);
    assert after == a.aces + [Ace(aceid, OfConn(ANON_CLEAR), 14, [NewRes(p)])];
    assert NewRes(p) == AceRes(uri, [], 0, 0);
    hide UpdateRes, RemoveAce, FindAce;
    assert e.resources[1..] == [];
    assert ApplyPatterns(a, e, e.resources, c) == AclAcc(after, a.n + 1);
  }

  lemma OnPostedPair(d: Device, core: seq<Resource>, c: Chance)
    requires Plentiful(c) && d.pstat.s != RFNOP && d.aces == []
    ensures Step(d, OwnerAsks(1).request, core, c) == (d.(aces := [OpenAce(7, ACL_URI), OpenAce(8, CRED_URI)]), Changed)
  {
    var first, second := OpenEntry(7, ACL_URI), OpenEntry(8, CRED_URI);
    var rep := OwnerAsks(1).request.acl;
    OneEntry(AclAcc([], 0), 7, ACL_URI, c);
    OneEntry(AclAcc([OpenAce(7, ACL_URI)], 1), 8, CRED_URI, c);
    assert [] + [OpenAce(7, ACL_URI)] == [OpenAce(7, ACL_URI)];
    hide ApplyAceEntry, OpenEntry, OpenAce;
    assert [OpenAce(7, ACL_URI)] + [OpenAce(8, CRED_URI)] == [OpenAce(7, ACL_URI), OpenAce(8, CRED_URI)];
    TwoEntries(AclAcc([], 0), first, second, c);
    assert rep[1..] == [];
    var start := AclState(AclAcc([], 0), d.aclRowner);
    assert ApplyAclProp(start, rep[0], c) == start.(acc := AclAcc([OpenAce(7, ACL_URI), OpenAce(8, CRED_URI)], 2));
  }

  lemma TwoEntries(a: AclAcc, first: AceEntry, second: AceEntry, c: Chance)
    ensures ApplyAceEntries(a, [first, second], c) == ApplyAceEntry(ApplyAceEntry(a, first, c), second, c)
  {
    hide ApplyAceEntry;
    assert [first, second][1..] == [second] && [second][1..] == [];
    assert ApplyAceEntries(ApplyAceEntry(a, first, c), [second], c) == ApplyAceEntry(ApplyAceEntry(a, first, c), second, c);
  }

  function AnybodyPosts(): Access {
    Access(Post, CRED_RES, IF_BASELINE, None, false)
  }

  lemma EntryMatchesCred()
    ensures ResMatches(OpenAce(8, CRED_URI).resources[0], PatternOf(AnybodyPosts()))
  {
    assert OpenAce(8, CRED_URI).resources[0].href[0..] == CRED_URI;
  }

  lemma OpenAceGrants(d: Device)
    ensures AceGrants(d, AnybodyPosts(), OpenAce(8, CRED_URI))
  {
    EntryMatchesCred();
    assert (14 as bv16) & NeededBits(Post) != 0;
    hide ResMatches, PatternOf;
    assert AnyResMatches(OpenAce(8, CRED_URI).resources, PatternOf(AnybodyPosts()));
  }

  // The entry on cred lets an anonymous peer post credentials.
  lemma CredIsOpen(d: Device)
    requires d.aces == [OpenAce(8, CRED_URI)]
    ensures Granted(d, AnybodyPosts())
  {
    hide AceGrants, OpenAce, IsRowner;
    OpenAceGrants(d);
    assert AceGrants(d, AnybodyPosts(), d.aces[0]);
  }

  // The three requests, made when the transfer has set the owner.
  function Afterwards(d: Device, i: nat, l: Link, session: nat, core: seq<Resource>): Device
    requires i <= 3
  {
    if i == 0 then d else Answer(Afterwards(d, i - 1, l, session, core), OwnerAsks(i - 1), l, session, core).0
  }

  function OwnerAnswer(d: Device, i: nat, l: Link, session: nat, core: seq<Resource>): M.Response
    requires i < 3
  {
    Answer(Afterwards(d, i, l, session, core), OwnerAsks(i), l, session, core).1
  }

  lemma OwnerGranted(d: Device, i: nat, l: Link, me: Uuid)
    requires i < 3 && ByOwner(l, me) && d.aclRowner == me && d.pstat.rowner == me
    ensures Granted(d, AccessOf(OwnerAsks(i), l))
  {
  }

  lemma AskStep(d: Device, i: nat, l: Link, me: Uuid, session: nat, core: seq<Resource>)
    requires i < 3 && ByOwner(l, me) && d.aclRowner == me && d.pstat.rowner == me
    requires var status := Step(d, OwnerAsks(i).request, core, l.chance).1; status == Changed || status == Deleted
    ensures Answer(d, OwnerAsks(i), l, session, core)
         == (Step(d, OwnerAsks(i).request, core, l.chance).0, M.Response(true, []))
  {
    OwnerGranted(d, i, l, me);
    hide Granted, AccessOf, Step, M.SwitchTo;
    assert i == 2 ==> OwnerAsks(i).request.PstatPost? by { SwitchIsPost(RFNOP); }
  }

  lemma SwitchIsPost(s: int)
    ensures M.SwitchTo(s).Send? && M.SwitchTo(s).request.PstatPost?
  {
  }

  // Entry into normal operation, with the pair on the list and the tightening still to be done.
  lemma OnOperate(d: Device, core: seq<Resource>, c: Chance)
    requires (d.pstat.s == RFOTM || d.pstat.s == RFPRO) && DeviceModel.Provisioned(d, d.pstat) && d.postOtm
    requires d.aces == [OpenAce(7, ACL_URI), OpenAce(8, CRED_URI)]
    ensures var (after, status) := Step(d, OwnerAsks(2).request, core, c);
            status == Changed && after.pstat.s == RFNOP && after.aces == [OpenAce(8, CRED_URI)]
  {
    OnSwitch(d, RFNOP, core, c);
    hide Step, DeviceModel.Provisioned, PostOtm, Tightened;
    LoopMayStopTooSoon();
  }

  lemma OwnerLeavesCredOpen(d: Device, k: nat, me: Uuid, w: Setting, l: Link)
    requires Undisturbed(w) && DeviceAt(d, k, me, w) && 8 <= k <= 10 && me != NIL && ByOwner(l, me)
    ensures forall i :: 0 <= i < 3 ==> OwnerAnswer(d, i, l, w.session, w.core).ok
    ensures var end := Afterwards(d, 3, l, w.session, w.core);
            && end.pstat.s == RFNOP && end.aces == [OpenAce(8, CRED_URI)]
            && Granted(end, Access(Post, CRED_RES, IF_BASELINE, None, false))
  {
    OwnerIsProvisioned(d, k, me, w);
    OwnerOfAll(d, k, me, w);
    PlentifulOwner(l, me);
    var c := l.chance;
    var a, b := d.(aces := []), d.(aces := [OpenAce(7, ACL_URI), OpenAce(8, CRED_URI)]);
    hide *;
    OnClear(d, w.core, c);
    AskStep(d, 0, l, me, w.session, w.core);
    OnPostedPair(a, w.core, c);
    AskStep(a, 1, l, me, w.session, w.core);
    StillProvisioned(d, b);
    OnOperate(b, w.core, c);
    AskStep(b, 2, l, me, w.session, w.core);
    ThreeAnswers(d, l, w.session, w.core);
    CredIsOpen(Afterwards(d, 3, l, w.session, w.core));
  }

  lemma OwnerOfAll(d: Device, k: nat, me: Uuid, w: Setting)
    requires DeviceAt(d, k, me, w) && 8 <= k <= 10
    ensures d.postOtm && d.aclRowner == me && d.pstat.rowner == me && (d.pstat.s == RFOTM || d.pstat.s == RFPRO)
    ensures RFNOP != RFOTM && RFNOP != RFPRO
  {
    hide DefaultAces, Tightened;
  }

  lemma ThreeAnswers(d: Device, l: Link, session: nat, core: seq<Resource>)
    ensures var (a, r) := Answer(d, OwnerAsks(0), l, session, core);
            var (b, s) := Answer(a, OwnerAsks(1), l, session, core);
            var (e, t) := Answer(b, OwnerAsks(2), l, session, core);
            && Afterwards(d, 3, l, session, core) == e
            && (r.ok && s.ok && t.ok ==> forall i :: 0 <= i < 3 ==> OwnerAnswer(d, i, l, session, core).ok)
  {
    hide Answer, OwnerAsks;
    assert Afterwards(d, 1, l, session, core) == Answer(d, OwnerAsks(0), l, session, core).0;
    assert Afterwards(d, 2, l, session, core)
        == Answer(Afterwards(d, 1, l, session, core), OwnerAsks(1), l, session, core).0;
  }

  lemma PlentifulOwner(l: Link, me: Uuid)
    requires ByOwner(l, me)
    ensures Plentiful(l.chance)
  {
  }

  lemma OnClear(d: Device, core: seq<Resource>, c: Chance)
    requires d.pstat.s != RFNOP
    ensures Step(d, OwnerAsks(0).request, core, c) == (d.(aces := []), Deleted)
  {
  }

  lemma StillProvisioned(d: Device, b: Device)
    requires DeviceModel.Provisioned(d, d.pstat) && b == d.(aces := b.aces)
    ensures DeviceModel.Provisioned(b, b.pstat)
  {
  }

  // From any device state: the first k exchanges of an undisturbed transfer, eight to ten of
  // them, and three requests by the new owner. All are answered; cred is open to everybody.
  lemma RunLeavesCredOpen(d: Device, t: M.Tool, uuid: Uuid, e: M.Env, u: M.Tool, o: M.Id, k: nat, w: Setting, l: Link)
    requires Undisturbed(w) && t.uuid != NIL && M.StartOtm(t, uuid, e) == (u, Some(o))
    requires Granted(d, AccessOf(M.ToRfotm(), w.links(0))) && 8 <= k <= 10 && ByOwner(l, t.uuid)
    ensures AllAccepted(System(d, u), o + 1, k, w)
    ensures var taken := Play(System(d, u), o + 1, k, w).device;
            var end := Afterwards(taken, 3, l, w.session, w.core);
            && (forall i :: 0 <= i < 3 ==> OwnerAnswer(taken, i, l, w.session, w.core).ok)
            && end.pstat.s == RFNOP && Granted(end, Access(Post, CRED_RES, IF_BASELINE, None, false))
  {
    ToolStarts(t, uuid, e, w);
    FirstRequest(t.uuid, w.session);
    FirstExchanges(System(d, u), t, o, k, w);
    var taken := Play(System(d, u), o + 1, k, w).device;
    assert DeviceAt(taken, k, t.uuid, w);
    hide *;
    OwnerLeavesCredOpen(taken, k, t.uuid, w, l);
  }
}
