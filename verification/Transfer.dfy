/** The onboarding tool and the device together: an undisturbed just-works
    ownership transfer, request by request, through the device's access control. */
module Transfer {
  import opened Payload
  import opened AclModel
  import opened CredModel
  import opened DeviceModel
  import opened AccessControl
  import opened Tightening
  import opened DefaultAcl
  import M = ObtModel
  import ObtKeys

  // How one request reaches the device: who the device takes the sender for, whether
  // the connection is secured, and the randomness and memory its handler meets.
  datatype Link = Link(peer: Option<Peer>, secured: bool, chance: Chance)

  datatype System = System(device: Device, tool: M.Tool)

  function AccessOf(q: M.ToolRequest, l: Link): Access {
    match q
    case GetPstat => Access(Get, PSTAT_RES, IF_BASELINE, l.peer, l.secured)
    case GetDoxm => Access(Get, DOXM_RES, IF_BASELINE, l.peer, l.secured)
    case Send(PstatPost(_)) => Access(Post, PSTAT_RES, IF_BASELINE, l.peer, l.secured)
    case Send(DoxmPost(_)) => Access(Post, DOXM_RES, IF_BASELINE, l.peer, l.secured)
    case Send(AclPost(_)) => Access(Post, ACL_RES, IF_BASELINE, l.peer, l.secured)
    case Send(AclDelete(_)) => Access(Delete, ACL_RES, IF_BASELINE, l.peer, l.secured)
    case Send(CredPost(_, _)) => Access(Post, CRED_RES, IF_BASELINE, l.peer, l.secured)
    case Send(CredDelete(_)) => Access(Delete, CRED_RES, IF_BASELINE, l.peer, l.secured)
  }

  function PstatView(d: Device): seq<Prop<()>> {
    [Prop("dos", Object([OtherMember("p"), IntMember("s", d.pstat.s)])),
     Prop("cm", Integer(d.pstat.cm)), Prop("tm", Integer(d.pstat.tm)), Prop("om", Integer(d.pstat.om)),
     Prop("sm", Integer(d.pstat.sm)), Prop("isop", Boolean(d.pstat.isop)), Prop("rowneruuid", Text(d.pstat.rowner))]
  }

  function DoxmView(d: Device): seq<Prop<()>> {
    [Prop("oxms", IntArray), Prop("oxmsel", Integer(d.doxm.oxmsel)), Prop("sct", Integer(d.doxm.sct)),
     Prop("owned", Boolean(d.doxm.owned)), Prop("devowneruuid", Text(d.doxm.devowner)),
     Prop("deviceuuid", Text(d.doxm.deviceuuid)), Prop("rowneruuid", Text(d.doxm.rowner))]
  }

  // The handler's view of a request: the session is that of the connection it arrived on.
  function Received(r: Request, session: nat): Request {
    if r.CredPost? then r.(session := Some(session)) else r
  }

  function Answer(d: Device, q: M.ToolRequest, l: Link, session: nat, core: seq<Resource>): (Device, M.Response) {
    if !Granted(d, AccessOf(q, l)) then (d, M.Response(false, []))
    else match q
      case GetPstat => (d, M.Response(true, PstatView(d)))
      case GetDoxm => (d, M.Response(true, DoxmView(d)))
      case Send(r) =>
        var (after, status) := Step(d, Received(r, session), core, l.chance);
        (after, M.Response(status == Changed || status == Deleted, []))
  }

  // One request goes to the device, its answer to the tool.
  function Exchange(s: System, q: M.Id, l: Link, session: nat, core: seq<Resource>, e: M.Env): System
    requires q in s.tool.outstanding
  {
    var (d, r) := Answer(s.device, s.tool.outstanding[q].request, l, session, core);
    System(d, M.Deliver(s.tool, q, r, e))
  }

  // ----- what the device makes of each request

  lemma OnReset(d: Device, core: seq<Resource>, c: Chance)
    ensures var (after, status) := Step(d, M.ToRfotm().request, core, c);
            && status == Changed && after == Cleared(d, core, c).(pstat := after.pstat)
            && after.pstat.s == RFOTM && !after.pstat.isop
  {
    var members := [IntMember("s", RESET)];
    assert members[1..] == [];
    assert ScanDos(d.pstat, false, members) == Scanned(d.pstat.(s := RESET), true);
    var rep: seq<Prop<()>> := [Prop("dos", Object(members))];
    assert rep[1..] == [];
    assert ScanPstat(d.pstat, false, rep) == Scanned(d.pstat.(s := RESET), true);
  }

  lemma OnSwitch(d: Device, to: int, core: seq<Resource>, c: Chance)
    requires to == RFPRO || to == RFNOP
    requires d.pstat.s == RFOTM || d.pstat.s == RFPRO
    requires DeviceModel.Provisioned(d, d.pstat)
    ensures var (after, status) := Step(d, M.SwitchTo(to).request, core, c);
            && status == Changed
            && after.pstat == d.pstat.(s := to, p := false, cm := 0, tm := 0, isop := to == RFNOP)
            && after == Operate(d.(pstat := after.pstat))
  {
    var members := [IntMember("s", to)];
    assert members[1..] == [];
    assert ScanDos(d.pstat, false, members) == Scanned(d.pstat.(s := to), true);
    var rep: seq<Prop<()>> := [Prop("dos", Object(members))];
    assert rep[1..] == [];
    assert ScanPstat(d.pstat, false, rep) == Scanned(d.pstat.(s := to), true);
  }

  lemma OnTakeDoxm(d: Device, me: Uuid, core: seq<Resource>, c: Chance)
    requires d.pstat.s == RFOTM && me != NIL
    ensures Step(d, M.TakeDoxm(me).request, core, c)
         == (d.(doxm := d.doxm.(oxmsel := 0, rowner := me, devowner := me, deviceuuid := c.uuid(2))), Changed)
  {
    var rep := M.TakeDoxm(me).request.doxm;
    assert rep[..2][..1] == rep[..1] && rep[..1][..0] == [];
    assert ApplyDoxm(d.doxm, rep[..1], c) == d.doxm.(oxmsel := 0);
    assert ApplyDoxm(d.doxm, rep[..2], c) == d.doxm.(oxmsel := 0, rowner := me);
  }

  lemma OnTakeAcl(d: Device, me: Uuid, core: seq<Resource>, c: Chance)
    requires d.pstat.s == RFOTM
    ensures Step(d, M.TakeAcl(me).request, core, c) == (d.(aclRowner := me), Changed)
  {
    var rep := M.TakeAcl(me).request.acl;
    var start := AclState(AclAcc(d.aces, 0), d.aclRowner);
    assert rep[1..] == [];
    assert ApplyAcl(start, rep, c) == ApplyAcl(start.(rowner := me), [], c) == start.(rowner := me);
  }

  // The credential for the tool is stored and keyed with what both ends know.
  lemma OnTakeCred(d: Device, me: Uuid, session: nat, core: seq<Resource>, c: Chance)
    requires d.pstat.s == RFOTM && d.creds == [] && d.doxm.oxmsel == OXM_JW && Plentiful(c)
    ensures var (after, status) := Step(d, Received(M.TakeCred(me, None).request, session), core, c);
            && status == Changed
            && after == d.(creds := after.creds, credRowner := me) && |after.creds| == 1
            && after.creds[0].subject == me && after.creds[0].credtype == CREDTYPE_PSK
            && after.creds[0].secret == Derived(KdfArgs(session, OXM_JUST_WORKS, d.doxm.deviceuuid, me))
  {
    var entry := Entry(-1, CREDTYPE_PSK, Some(me), Raw, [], None, None);
    var rep := M.TakeCred(me, None).request.cred;
    assert rep[1..] == [rep[1]] && rep[1..][1..] == [] && [entry][1..] == [];
    var start := CredAcc(d.creds, d.credRowner, None, 0);
    var (b, ok) := ApplyCredEntry(start, entry, c);
    var id := c.id(CredIds([]) + {0});
    assert ok && b.creds == [Cred(id, CREDTYPE_PSK, me, NoSecret, "", "")] && b.owner == Some(id);
    assert ApplyCredEntries(start, [entry], c) == (b, true);
    assert ApplyCredProps(b, [rep[1]], c) == (b.(rowner := me), true);
    assert ApplyCredProps(start, rep, c) == (b.(rowner := me), true);
  }

  lemma OnTakePstat(d: Device, me: Uuid, core: seq<Resource>, c: Chance)
    requires d.pstat.s == RFOTM
    ensures Step(d, M.TakePstat(me).request, core, c) == (d.(pstat := d.pstat.(rowner := me)), Changed)
  {
    var rep := M.TakePstat(me).request.pstat;
    assert rep[1..] == [];
    assert ScanPstat(d.pstat, false, rep) == ScanPstat(d.pstat.(rowner := me), false, []);
  }

  lemma OnSetOwned(d: Device, core: seq<Resource>, c: Chance)
    requires d.pstat.s == RFOTM
    ensures Step(d, M.SetOwned().request, core, c) == (d.(doxm := d.doxm.(owned := true)), Changed)
  {
    var rep := M.SetOwned().request.doxm;
    assert rep[..0] == [];
    assert ApplyDoxm(d.doxm, rep, c) == ApplyDoxmProp(d.doxm, rep[0], c.uuid(0));
  }

  lemma PstatViewTells(d: Device)
    ensures M.ParseDos(0, PstatView(d)) == d.pstat.s
  {
    var v := PstatView(d);
    var m := v[0].value.members;
    assert m[1..] == [IntMember("s", d.pstat.s)] && m[1..][1..] == [];
    assert M.LastDos(0, m) == M.LastDos(0, m[1..]) == d.pstat.s;
    ParseDosSkips(d.pstat.s, v[1..]);
  }

  lemma {:induction false} ParseDosSkips(s: int, rep: seq<Prop<()>>)
    requires forall i :: 0 <= i < |rep| ==> !rep[i].value.Object?
    ensures M.ParseDos(s, rep) == s
    decreases |rep|
  {
    if rep != [] {
      ParseDosSkips(s, rep[1..]);
    }
  }

  lemma DoxmViewTells(d: Device, stale: Uuid)
    ensures M.ParseDeviceUuid(stale, DoxmView(d)) == d.doxm.deviceuuid
  {
    var v := DoxmView(d);
    ParseUuidSkips(stale, v, 5);
    assert v[5..][0] == v[5] && v[5..][1..] == v[6..];
    ParseUuidSkips(d.doxm.deviceuuid, v[6..], 1);
  }

  lemma {:induction false} ParseUuidSkips(u: Uuid, rep: seq<Prop<()>>, n: nat)
    requires n <= |rep| && forall i :: 0 <= i < n ==> rep[i].name != "deviceuuid"
    ensures M.ParseDeviceUuid(u, rep) == M.ParseDeviceUuid(u, rep[n..])
    decreases n
  {
    if n > 0 {
      ParseUuidSkips(u, rep[1..], n - 1);
      assert rep[1..][n - 1..] == rep[n..];
    } else {
      assert rep[0..] == rep;
    }
  }

  // ----- the twelve exchanges

  // Everything that surrounds one transfer. Exchange k uses links(k) and envs(k).
  datatype Setting = Setting(links: nat -> Link, envs: nat -> M.Env, session: nat, core: seq<Resource>)

  // Nothing is lost, both ends are on one session, and memory and randomness suffice.
  ghost predicate Undisturbed(w: Setting) {
    && CoreTable(w.core)
    && (forall k: nat :: Plentiful(w.links(k).chance))
    && (forall k: nat :: w.envs(k).sent && w.envs(k).room && w.envs(k).session == Some(w.session))
  }

  // The state after n exchanges, the first of which answers request q.
  function Play(s: System, q: M.Id, n: nat, w: Setting): System {
    if n == 0 then s
    else
      var before := Play(s, q, n - 1, w);
      if q + n - 1 !in before.tool.outstanding then before
      else Exchange(before, q + n - 1, w.links(n - 1), w.session, w.core, w.envs(n - 1))
  }

  const EXCHANGES := 12

  function RequestAt(k: nat, me: Uuid, session: nat): M.ToolRequest
    requires k < EXCHANGES
  {
    if k == 0 then M.ToRfotm() else if k == 2 then M.TakeDoxm(me) else if k == 3 then M.GetDoxm
    else if k == 4 then M.TakeAcl(me) else if k == 5 then M.TakeCred(me, Some(session))
    else if k == 6 then M.TakePstat(me) else if k == 7 then M.SetOwned()
    else if k == 8 then M.SwitchTo(RFPRO) else if k == 10 then M.SwitchTo(RFNOP) else M.GetPstat
  }

  function HandlerAt(k: nat): M.Handler
    requires k < EXCHANGES
  {
    [M.Jw2, M.Jw3, M.Jw4, M.Jw5, M.Jw6, M.Jw7, M.Jw8, M.Jw9, M.Jw10, M.Jw11, M.Jw12, M.Jw13][k]
  }

  function StateAt(k: nat): int {
    if k <= 8 then RFOTM else if k <= 10 then RFPRO else RFNOP
  }

  // The identity that the device picks when it is given an owner.
  function NewUuid(w: Setting): Uuid {
    w.links(2).chance.uuid(2)
  }

  function SharedKey(me: Uuid, w: Setting): Secret {
    Derived(KdfArgs(w.session, OXM_JUST_WORKS, NewUuid(w), me))
  }

  // The device after k exchanges.
  ghost predicate DeviceAt(d: Device, k: nat, me: Uuid, w: Setting) {
    && d.pstat.s == StateAt(k) && d.doxm.oxmsel == OXM_JW && (d.doxm.owned <==> k >= 8)
    && (k < 6 ==> d.creds == [])
    && (k >= 3 ==> d.doxm.devowner == me && d.doxm.rowner == me && d.doxm.deviceuuid == NewUuid(w))
    && (k >= 5 ==> d.aclRowner == me)
    && (k >= 6 ==> && d.credRowner == me && |d.creds| == 1 && d.creds[0].subject == me
                   && d.creds[0].credtype == CREDTYPE_PSK && d.creds[0].secret == SharedKey(me, w))
    && (k >= 7 ==> d.pstat.rowner == me)
    && (d.postOtm <==> k < 11)
    && d.aces == var initial := DefaultAces(w.core, w.links(0).chance); if k < 11 then initial else Tightened(initial)
  }

  function SecurityLeft(k: nat): nat {
    if k < 11 then 4 else 2
  }

  lemma AclAt(d: Device, k: nat, me: Uuid, w: Setting)
    requires Undisturbed(w) && DeviceAt(d, k, me, w)
    ensures Layout(d.aces, SecurityEntries(SecurityLeft(k)))
  {
    assert w.core[..|w.core|] == w.core;
    hide Layout, Plentiful, CoreTable, SecurityEntries, Tightened;
    DefaultLayout(w.core, |w.core|, w.links(0).chance);
    if k >= 11 {
      TightenedLayout(DefaultAces(w.core, w.links(0).chance));
    }
  }

  // Every request after the reset passes the access check, whoever the device takes the sender for.
  lemma RequestGranted(d: Device, k: nat, me: Uuid, w: Setting)
    requires Undisturbed(w) && DeviceAt(d, k, me, w) && 1 <= k < EXCHANGES
    ensures Granted(d, AccessOf(RequestAt(k, me, w.session), w.links(k)))
  {
    AclAt(d, k, me, w);
    hide Granted, Layout, DeviceAt, Undisturbed, SecurityEntries;
    var i := if k == 2 || k == 3 || k == 7 then OCF_SEC_DOXM else if k == 4 then OCF_SEC_ACL
             else if k == 5 then OCF_SEC_CRED else OCF_SEC_PSTAT;
    var a := AccessOf(RequestAt(k, me, w.session), w.links(k));
    LayoutOpens(d, SecurityLeft(k), i, a);
  }

  // What the tool reads off the answer to exchange k.
  ghost predicate Tells(k: nat, r: M.Response, w: Setting) {
    && r.ok
    && (k == 1 || k == 9 || k == 11 ==> M.ParseDos(0, r.payload) == StateAt(k))
    && (k == 3 ==> forall stale :: M.ParseDeviceUuid(stale, r.payload) == NewUuid(w))
  }

  lemma ResetStep(d: Device, me: Uuid, w: Setting)
    requires Undisturbed(w) && Granted(d, AccessOf(RequestAt(0, me, w.session), w.links(0)))
    ensures var (after, r) := Answer(d, RequestAt(0, me, w.session), w.links(0), w.session, w.core);
            Tells(0, r, w) && DeviceAt(after, 1, me, w)
  {
    hide Granted, Undisturbed, Step, AccessOf, DefaultAces;
    OnReset(d, w.core, w.links(0).chance);
  }

  lemma ReadStep(d: Device, k: nat, me: Uuid, w: Setting)
    requires Undisturbed(w) && DeviceAt(d, k, me, w) && (k == 1 || k == 3 || k == 9 || k == 11)
    ensures var (after, r) := Answer(d, RequestAt(k, me, w.session), w.links(k), w.session, w.core);
            Tells(k, r, w) && DeviceAt(after, k + 1, me, w)
  {
    RequestGranted(d, k, me, w);
    hide Granted, Undisturbed, AccessOf, PstatView, DoxmView;
    PstatViewTells(d);
    forall stale: Uuid {
      DoxmViewTells(d, stale);
    }
  }

  lemma OwnerIsProvisioned(d: Device, k: nat, me: Uuid, w: Setting)
    requires Undisturbed(w) && DeviceAt(d, k, me, w) && 8 <= k <= 10 && me != NIL
    ensures DeviceModel.Provisioned(d, d.pstat)
  {
    hide DefaultAces, Tightened;
    assert Plentiful(w.links(2).chance);
    assert HasCredFor(d.creds, me);
  }

  lemma WriteStep(d: Device, k: nat, me: Uuid, w: Setting)
    requires Undisturbed(w) && DeviceAt(d, k, me, w) && me != NIL
    requires k == 2 || 4 <= k <= 7
    ensures var (after, r) := Answer(d, RequestAt(k, me, w.session), w.links(k), w.session, w.core);
            Tells(k, r, w) && DeviceAt(after, k + 1, me, w)
  {
    RequestGranted(d, k, me, w);
    var c := w.links(k).chance;
    if k == 2 {
      hide Granted, Undisturbed, AccessOf, Step, DefaultAces;
      OnTakeDoxm(d, me, w.core, c);
    } else if k == 4 {
      hide Granted, Undisturbed, AccessOf, Step, DefaultAces;
      OnTakeAcl(d, me, w.core, c);
    } else if k == 5 {
      hide Granted, AccessOf, Step, DefaultAces;
      OnTakeCred(d, me, w.session, w.core, c);
    } else if k == 6 {
      hide Granted, Undisturbed, AccessOf, Step, DefaultAces;
      OnTakePstat(d, me, w.core, c);
    } else {
      hide Granted, Undisturbed, AccessOf, Step, DefaultAces;
      OnSetOwned(d, w.core, c);
    }
  }

  // The device that has entered the next state is the one of the next exchange.
  lemma Switched(d: Device, after: Device, k: nat, me: Uuid, w: Setting)
    requires DeviceAt(d, k, me, w) && (k == 8 || k == 10)
    requires PostOtm(DefaultAces(w.core, w.links(0).chance), 0) == Tightened(DefaultAces(w.core, w.links(0).chance))
    requires var to := if k == 8 then RFPRO else RFNOP;
             after.pstat == d.pstat.(s := to, p := false, cm := 0, tm := 0, isop := to == RFNOP)
    requires after == Operate(d.(pstat := after.pstat))
    ensures DeviceAt(after, k + 1, me, w)
  {
    hide DefaultAces, Tightened, PostOtm, NewUuid, SharedKey;
  }

  lemma SwitchStep(d: Device, k: nat, me: Uuid, w: Setting)
    requires Undisturbed(w) && DeviceAt(d, k, me, w) && me != NIL && (k == 8 || k == 10)
    ensures var (after, r) := Answer(d, RequestAt(k, me, w.session), w.links(k), w.session, w.core);
            Tells(k, r, w) && DeviceAt(after, k + 1, me, w)
  {
    assert k < EXCHANGES;
    hide *;
    RequestGranted(d, k, me, w);
    OwnerIsProvisioned(d, k, me, w);
    DefaultIsTightened(w.core, w.links(0).chance);
    SwitchAt(d, k, me, w);
    var to := if k == 8 then RFPRO else RFNOP;
    OnSwitch(d, to, w.core, w.links(k).chance);
    PostAnswered(d, M.SwitchTo(to).request, w.links(k), w.session, w.core);
    Switched(d, Step(d, M.SwitchTo(to).request, w.core, w.links(k).chance).0, k, me, w);
  }

  lemma SwitchAt(d: Device, k: nat, me: Uuid, w: Setting)
    requires DeviceAt(d, k, me, w) && (k == 8 || k == 10)
    ensures var to := if k == 8 then RFPRO else RFNOP;
            && RequestAt(k, me, w.session) == M.SwitchTo(to)
            && M.SwitchTo(to).Send? && M.SwitchTo(to).request.PstatPost?
    ensures d.pstat.s == RFOTM || d.pstat.s == RFPRO
    ensures Tells(k, M.Response(true, []), w)
  {
    hide DefaultAces, Tightened;
  }

  // A POST that passes the access check and is carried out.
  lemma PostAnswered(d: Device, r: Request, l: Link, session: nat, core: seq<Resource>)
    requires Granted(d, AccessOf(M.Send(r), l)) && r.PstatPost? && Step(d, r, core, l.chance).1 == Changed
    ensures Answer(d, M.Send(r), l, session, core) == (Step(d, r, core, l.chance).0, M.Response(true, []))
  {
    hide Granted, AccessOf, Step;
  }

  // What k exchanges of transfer o, started in state t, have left in the tool.
  ghost predicate Underway(u: M.Tool, t: M.Tool, o: M.Id, k: nat, w: Setting) {
    && u.uuid == t.uuid && u.reports == t.reports && o in u.otms && u.otms[o].handle in u.handles
    && (k >= 4 ==> u.handles[u.otms[o].handle] == NewUuid(w))
    && (if k < 5 then u.creds == t.creds
        else && |u.creds| == |t.creds| + 1 && u.creds[..|t.creds|] == t.creds
             && u.creds[|t.creds|].subject == NewUuid(w) && u.creds[|t.creds|].credtype == 1
             && u.creds[|t.creds|].secret == SharedKey(t.uuid, w))
  }

  // The tool after k exchanges, with request k outstanding.
  ghost predicate ToolAt(u: M.Tool, t: M.Tool, o: M.Id, k: nat, w: Setting)
    requires k < EXCHANGES
  {
    && Underway(u, t, o, k, w) && u.nextId == o + k + 2 && o + k + 1 in u.outstanding
    && u.outstanding[o + k + 1] == M.Outstanding(HandlerAt(k), o, RequestAt(k, t.uuid, w.session))
  }

  lemma ToolStarts(t: M.Tool, uuid: Uuid, e: M.Env, w: Setting)
    requires M.StartOtm(t, uuid, e).1.Some?
    ensures ToolAt(M.StartOtm(t, uuid, e).0, t, M.StartOtm(t, uuid, e).1.value, 0, w)
  {
    ObtKeys.FindHandleFinds(t, t.cache, uuid);
  }

  lemma ToolStep(u: M.Tool, t: M.Tool, o: M.Id, k: nat, r: M.Response, w: Setting)
    requires Undisturbed(w) && k < EXCHANGES - 1 && ToolAt(u, t, o, k, w) && Tells(k, r, w)
    ensures ToolAt(M.Deliver(u, o + k + 1, r, w.envs(k)), t, o, k + 1, w)
  {
    hide M.ParseDos, M.ParseDeviceUuid, M.TakeDoxm, M.TakeAcl, M.TakeCred, M.TakePstat, M.SetOwned, M.SwitchTo, M.ToRfotm,
         M.FreeOtm, M.SwitchResponse, M.AceSent, M.JustWorks, NewUuid, SharedKey;
    var v, e := u.(outstanding := u.outstanding - {o + k + 1}), w.envs(k);
    assert M.Deliver(u, o + k + 1, r, e) == M.JustWorks(v, HandlerAt(k), o, r, e);
    HandlerStep(v, t, o, k, r, e, w);
  }

  // What handler k changes in the tool before it sends the next request.
  function Advanced(v: M.Tool, o: M.Id, k: nat, r: M.Response, e: M.Env): M.Tool
    requires o in v.otms && e.session.Some?
  {
    if k == 3 then M.LearnUuid(v, o, e, r)
    else if k == 4 then v.(creds := v.creds + [M.OwnerCred(v, o, e.session.value)], nextCredid := v.nextCredid + 1)
    else v
  }

  lemma HandlerPosts(v: M.Tool, o: M.Id, k: nat, r: M.Response, e: M.Env, w: Setting)
    requires k < EXCHANGES - 1 && Tells(k, r, w) && e.sent && e.room && e.session == Some(w.session) && o in v.otms
    ensures M.JustWorks(v, HandlerAt(k), o, r, e)
         == M.Post(Advanced(v, o, k, r, e), HandlerAt(k + 1), o, RequestAt(k + 1, v.uuid, w.session))
  {
    hide M.ParseDos, M.ParseDeviceUuid, M.TakeDoxm, M.TakeAcl, M.TakeCred, M.TakePstat, M.SetOwned, M.SwitchTo, M.ToRfotm,
         M.FreeOtm, M.OwnerCred, M.Post, M.LearnUuid, RequestAt, NewUuid;
    NextRequest(k, v.uuid, w.session);
    if k < 4 {
      assert k == 3 ==> M.LearnUuid(v, o, e, r).uuid == v.uuid && o in M.LearnUuid(v, o, e, r).otms by {
        LearningKeeps(v, o, e, r);
      }
    } else if k == 4 {
    } else if k < 8 {
    }
  }

  lemma LearningKeeps(v: M.Tool, o: M.Id, e: M.Env, r: M.Response)
    requires o in v.otms
    ensures M.LearnUuid(v, o, e, r).uuid == v.uuid && M.LearnUuid(v, o, e, r).otms == v.otms
  {
  }

  lemma HandlerStep(v: M.Tool, t: M.Tool, o: M.Id, k: nat, r: M.Response, e: M.Env, w: Setting)
    requires k < EXCHANGES - 1 && Tells(k, r, w) && e.sent && e.room && e.session == Some(w.session)
    requires v.nextId == o + k + 2 && Underway(v, t, o, k, w)
    ensures ToolAt(M.JustWorks(v, HandlerAt(k), o, r, e), t, o, k + 1, w)
  {
    HandlerPosts(v, o, k, r, e, w);
    hide M.ParseDeviceUuid, M.JustWorks, RequestAt, NewUuid, HandlerAt, SharedKey, Underway, Advanced, M.LearnUuid, M.OwnerCred;
    assert k == 3 ==> M.ParseDeviceUuid(e.stale, r.payload) == NewUuid(w);
    hide Tells;
    AdvancedUnderway(v, t, o, k, r, e, w);
    StillUnderway(Advanced(v, o, k, r, e), t, o, k + 1, w, HandlerAt(k + 1), RequestAt(k + 1, v.uuid, w.session));
  }

  lemma AdvancedUnderway(v: M.Tool, t: M.Tool, o: M.Id, k: nat, r: M.Response, e: M.Env, w: Setting)
    requires k < EXCHANGES - 1 && Underway(v, t, o, k, w) && e.session == Some(w.session)
    requires k == 3 ==> M.ParseDeviceUuid(e.stale, r.payload) == NewUuid(w)
    ensures var u := Advanced(v, o, k, r, e); Underway(u, t, o, k + 1, w) && u.nextId == v.nextId && u.uuid == v.uuid == t.uuid
  {
    hide M.ParseDeviceUuid, NewUuid;
  }

  lemma StillUnderway(u: M.Tool, t: M.Tool, o: M.Id, k: nat, w: Setting, h: M.Handler, q: M.ToolRequest)
    requires Underway(u, t, o, k, w)
    ensures Underway(M.Post(u, h, o, q), t, o, k, w)
  {
    hide NewUuid, SharedKey;
  }

  lemma NextRequest(k: nat, me: Uuid, session: nat)
    requires k < EXCHANGES - 1
    ensures RequestAt(k + 1, me, session) ==
            match k
            case 0 => M.GetPstat
            case 1 => M.TakeDoxm(me)
            case 2 => M.GetDoxm
            case 3 => M.TakeAcl(me)
            case 4 => M.TakeCred(me, Some(session))
            case 5 => M.TakePstat(me)
            case 6 => M.SetOwned()
            case 7 => M.SwitchTo(RFPRO)
            case 8 => M.GetPstat
            case 9 => M.SwitchTo(RFNOP)
            case _ => M.GetPstat
  {
  }

  // The answer to the last request completes the transfer.
  lemma ToolEnds(u: M.Tool, t: M.Tool, o: M.Id, r: M.Response, w: Setting)
    requires ToolAt(u, t, o, 11, w) && Tells(11, r, w)
    ensures var v := M.Deliver(u, o + 12, r, w.envs(11));
            && v.reports == t.reports + [M.Report(o, 0)] && o !in v.otms && v.creds == u.creds
            && v.handles == u.handles && u.otms[o].handle in v.devices
  {
    hide M.ParseDos, M.ParseDeviceUuid, M.Without, RequestAt;
  }

  // ----- the main result

  ghost predicate InStep(s: System, t: M.Tool, o: M.Id, k: nat, w: Setting)
    requires k < EXCHANGES
  {
    ToolAt(s.tool, t, o, k, w) && (k > 0 ==> DeviceAt(s.device, k, t.uuid, w))
  }

  // The answer that exchange k brings back.
  function AnswerAt(s: System, q: M.Id, k: nat, w: Setting): M.Response {
    var before := Play(s, q, k, w);
    if q + k !in before.tool.outstanding then M.Response(false, [])
    else Answer(before.device, before.tool.outstanding[q + k].request, w.links(k), w.session, w.core).1
  }

  predicate AllAccepted(s: System, q: M.Id, n: nat, w: Setting) {
    forall i :: 0 <= i < n ==> AnswerAt(s, q, i, w).ok
  }

  lemma DeviceStep(d: Device, k: nat, me: Uuid, w: Setting)
    requires Undisturbed(w) && k < EXCHANGES && me != NIL && (k > 0 ==> DeviceAt(d, k, me, w))
    requires k == 0 ==> Granted(d, AccessOf(RequestAt(0, me, w.session), w.links(0)))
    ensures var (after, r) := Answer(d, RequestAt(k, me, w.session), w.links(k), w.session, w.core);
            Tells(k, r, w) && DeviceAt(after, k + 1, me, w)
  {
    hide Granted, Undisturbed, DeviceAt, Tells, RequestAt, AccessOf, Answer;
    if k == 0 {
      ResetStep(d, me, w);
    } else if k == 1 || k == 3 || k == 9 || k == 11 {
      ReadStep(d, k, me, w);
    } else if k == 8 || k == 10 {
      SwitchStep(d, k, me, w);
    } else {
      WriteStep(d, k, me, w);
    }
  }

  lemma PlayUnfolds(s: System, q: M.Id, k: nat, w: Setting)
    requires q + k in Play(s, q, k, w).tool.outstanding
    ensures var before := Play(s, q, k, w);
            var (after, r) := Answer(before.device, before.tool.outstanding[q + k].request, w.links(k), w.session, w.core);
            && AnswerAt(s, q, k, w) == r
            && Play(s, q, k + 1, w) == System(after, M.Deliver(before.tool, q + k, r, w.envs(k)))
  {
    hide Answer, M.Deliver;
  }

  lemma OneExchange(s: System, t: M.Tool, o: M.Id, k: nat, w: Setting)
    requires Undisturbed(w) && k < EXCHANGES && t.uuid != NIL && InStep(Play(s, o + 1, k, w), t, o, k, w)
    requires k == 0 ==> Granted(s.device, AccessOf(RequestAt(0, t.uuid, w.session), w.links(0)))
    ensures Tells(k, AnswerAt(s, o + 1, k, w), w)
    ensures DeviceAt(Play(s, o + 1, k + 1, w).device, k + 1, t.uuid, w)
    ensures k < EXCHANGES - 1 ==> InStep(Play(s, o + 1, k + 1, w), t, o, k + 1, w)
  {
    hide Granted, Undisturbed, DeviceAt, Tells, RequestAt, AccessOf, Answer, AnswerAt, M.Deliver, NewUuid, SharedKey, HandlerAt;
    var before := Play(s, o + 1, k, w);
    DeviceStep(before.device, k, t.uuid, w);
    PlayUnfolds(s, o + 1, k, w);
    if k < EXCHANGES - 1 {
      ToolStep(before.tool, t, o, k, AnswerAt(s, o + 1, k, w), w);
    }
  }

  lemma {:induction false} FirstExchanges(s: System, t: M.Tool, o: M.Id, k: nat, w: Setting)
    requires Undisturbed(w) && k < EXCHANGES && t.uuid != NIL && ToolAt(s.tool, t, o, 0, w)
    requires Granted(s.device, AccessOf(RequestAt(0, t.uuid, w.session), w.links(0)))
    ensures InStep(Play(s, o + 1, k, w), t, o, k, w)
    ensures AllAccepted(s, o + 1, k, w)
  {
    hide Granted, Undisturbed, ToolAt, DeviceAt, RequestAt, AccessOf, Answer, AnswerAt, M.Deliver, Exchange;
    if k > 0 {
      hide AllAccepted, Tells, Play, InStep;
      FirstExchanges(s, t, o, k - 1, w);
      OneExchange(s, t, o, k - 1, w);
      OneMoreAccepted(s, o + 1, k - 1, w);
    }
  }

  // The device belongs to `me`, operates, and shares a key with it.
  ghost predicate TakenOver(d: Device, me: Uuid, key: Secret, identity: Uuid) {
    && d.pstat.s == RFNOP && d.doxm.owned && d.doxm.deviceuuid == identity && d.doxm.devowner == me
    && d.pstat.rowner == me && d.doxm.rowner == me && d.aclRowner == me && d.credRowner == me
    && |d.creds| == 1 && d.creds[0].subject == me && d.creds[0].credtype == 1 && d.creds[0].secret == key
  }

  lemma TransferRuns(d: Device, t: M.Tool, uuid: Uuid, e: M.Env, u: M.Tool, o: M.Id, w: Setting)
    requires Undisturbed(w) && t.uuid != NIL && M.StartOtm(t, uuid, e) == (u, Some(o))
    requires Granted(d, AccessOf(M.ToRfotm(), w.links(0)))
    ensures var start, q := System(d, u), o + 1;
            && AllAccepted(start, q, EXCHANGES, w)
            && InStep(Play(start, q, EXCHANGES - 1, w), t, o, EXCHANGES - 1, w)
            && Tells(EXCHANGES - 1, AnswerAt(start, q, EXCHANGES - 1, w), w)
            && DeviceAt(Play(start, q, EXCHANGES, w).device, EXCHANGES, t.uuid, w)
  {
    ToolStarts(t, uuid, e, w);
    FirstRequest(t.uuid, w.session);
    var start := System(d, u);
    hide *;
    FirstExchanges(start, t, o, EXCHANGES - 1, w);
    OneExchange(start, t, o, EXCHANGES - 1, w);
    assert Tells(EXCHANGES - 1, AnswerAt(start, o + 1, EXCHANGES - 1, w), w);
    OneMoreAccepted(start, o + 1, EXCHANGES - 1, w);
  }

  lemma OneMoreAccepted(s: System, q: M.Id, k: nat, w: Setting)
    requires AllAccepted(s, q, k, w) && Tells(k, AnswerAt(s, q, k, w), w)
    ensures AllAccepted(s, q, k + 1, w)
  {
    hide AnswerAt;
  }

  // The device is taken over, the tool was told of success once, and holds the same key for it.
  ghost predicate Completed(end: System, t: M.Tool, o: M.Id, w: Setting) {
    && NewUuid(w) != NIL && TakenOver(end.device, t.uuid, SharedKey(t.uuid, w), NewUuid(w))
    && end.tool.reports == t.reports + [M.Report(o, 0)]
    && |end.tool.creds| == |t.creds| + 1 && end.tool.creds[..|t.creds|] == t.creds
    && end.tool.creds[|t.creds|].subject == NewUuid(w) && end.tool.creds[|t.creds|].credtype == 1
    && end.tool.creds[|t.creds|].secret == SharedKey(t.uuid, w)
  }

  // From any device state: once the tool's first request gets through, every request of an
  // undisturbed transfer is accepted; the device ends operational and owned by the tool, and
  // both ends hold the key derived from the same arguments.
  lemma UndisturbedTransfer(d: Device, t: M.Tool, uuid: Uuid, e: M.Env, u: M.Tool, o: M.Id, w: Setting)
    requires Undisturbed(w) && t.uuid != NIL && M.StartOtm(t, uuid, e) == (u, Some(o))
    requires Granted(d, AccessOf(M.ToRfotm(), w.links(0)))
    ensures AllAccepted(System(d, u), o + 1, EXCHANGES, w)
    ensures Completed(Play(System(d, u), o + 1, EXCHANGES, w), t, o, w)
  {
    TransferRuns(d, t, uuid, e, u, o, w);
    assert Plentiful(w.links(2).chance);
    var start, q := System(d, u), o + 1;
    hide Granted, Undisturbed, RequestAt, AccessOf, Answer, M.Deliver, M.StartOtm, DefaultAces, Tightened, HandlerAt,
         NewUuid, SharedKey;
    ToolEnds(Play(start, q, 11, w).tool, t, o, AnswerAt(start, q, 11, w), w);
  }

  lemma FirstRequest(me: Uuid, session: nat)
    ensures RequestAt(0, me, session) == M.ToRfotm()
  {
  }

  // The same run: from its end on only the owner reaches acl2 and cred, while pstat and doxm stay open to all.
  lemma OnlyOwnerConfigures(d: Device, t: M.Tool, uuid: Uuid, e: M.Env, u: M.Tool, o: M.Id, w: Setting, a: Access)
    requires Undisturbed(w) && t.uuid != NIL && M.StartOtm(t, uuid, e) == (u, Some(o))
    requires Granted(d, AccessOf(M.ToRfotm(), w.links(0))) && a.interfaces == IF_BASELINE
    ensures var end := Play(System(d, u), o + 1, EXCHANGES, w).device;
            && (a.resource == ACL_RES || a.resource == CRED_RES ==> (
                  Granted(end, a) <==> a.peer.Some? && a.peer.value.uuid == t.uuid))
            && (a.resource == PSTAT_RES || a.resource == DOXM_RES ==> (a.verb == Get || a.verb == Post ==> Granted(end, a)))
  {
    TransferRuns(d, t, uuid, e, u, o, w);
    var end := Play(System(d, u), o + 1, EXCHANGES, w).device;
    AclAt(end, EXCHANGES, t.uuid, w);
    hide Granted, Layout, Undisturbed, SecurityEntries, DefaultAces, Tightened, M.StartOtm, Play;
    if a.resource == ACL_RES || a.resource == CRED_RES {
      LayoutCloses(end, 2, if a.resource == ACL_RES then OCF_SEC_ACL else OCF_SEC_CRED, a);
    } else if (a.resource == PSTAT_RES || a.resource == DOXM_RES) && (a.verb == Get || a.verb == Post) {
      LayoutOpens(end, 2, if a.resource == DOXM_RES then OCF_SEC_DOXM else OCF_SEC_PSTAT, a);
    }
  }
}
