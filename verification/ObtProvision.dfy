/** What a hard reset and a provisioning of the onboarding tool ask of the device, and what their
    success means (security/oc_obt.c). */
module ObtProvision {
  import opened Payload
  import opened AclModel
  import opened CredModel
  import opened DeviceModel
  import opened ObtModel
  import opened ObtRuns
  import ObtKeys

  // ----- the requests, as they go out

  function PostState(s: int): ToolRequest {
    Send(PstatPost([Prop("dos", Object([IntMember("s", s)]))]))
  }

  function PostAce(ace: AceEntry): ToolRequest {
    Send(AclPost([Prop("aclist2", ObjectArray([ace]))]))
  }

  // A switch asks for the state that its purpose needs: 0 is RESET, 2 RFPRO, 3 RFNOP.
  predicate Aimed(x: SwitchCtx) {
    match x.cb
    case HardReset(_) => x.dos == 0
    case ProvisionAce(_) => x.dos == 2
    case ProvisionDone(_) => x.dos == 3
  }

  // A request of a switch posts the switch's state or reads the state back; that of a provisioning
  // posts the entry the caller gave.
  predicate Asks(t: Tool, o: Outstanding) {
    match o.handler
    case SwitchPosted => o.ctx in t.switches ==> o.request == PostState(t.switches[o.ctx].dos)
    case SwitchRead => o.request == GetPstat
    case AclPosted => o.ctx in t.provs ==> o.request == PostAce(t.provs[o.ctx].ace)
    case _ => true
  }

  ghost predicate Aims(t: Tool) {
    && (forall d :: d in t.switches ==> Aimed(t.switches[d]))
    && (forall q :: q in t.outstanding ==> Asks(t, t.outstanding[q]))
  }

  // ----- every event keeps this

  // Switches and provisionings are old ones or new ones that are in order, and so are requests.
  ghost predicate InOrder(t: Tool, u: Tool) {
    && (forall d :: d in u.switches ==>
          (d in t.switches && u.switches[d] == t.switches[d]) || (d >= t.nextId && Aimed(u.switches[d])))
    && (forall p :: p in u.provs ==> (p in t.provs && u.provs[p].ace == t.provs[p].ace) || p >= t.nextId)
    && (forall q :: q in u.outstanding ==>
          (q in t.outstanding && u.outstanding[q] == t.outstanding[q]) || Asks(u, u.outstanding[q]))
  }

  lemma InOrderKeeps(t: Tool, u: Tool)
    requires Aims(t) && Waiting(t) && InOrder(t, u)
    ensures Aims(u)
  {
    forall q | q in u.outstanding ensures Asks(u, u.outstanding[q]) {
      if q in t.outstanding && u.outstanding[q] == t.outstanding[q] {
        assert Asks(t, t.outstanding[q]) && t.outstanding[q].ctx < t.nextId;
      }
    }
  }

  // Nothing but requests of transfers is added.
  ghost predicate SameWork(t: Tool, u: Tool) {
    && u.switches == t.switches && u.provs == t.provs && u.resets == t.resets
    && (forall q :: q in u.outstanding ==>
          (q in t.outstanding && u.outstanding[q] == t.outstanding[q]) || ObtKeys.IsTransfer(u.outstanding[q].handler))
  }

  lemma NothingNew(t: Tool, u: Tool)
    requires SameWork(t, u)
    ensures InOrder(t, u)
  {
  }

  lemma FreedOtm(t: Tool, u: Tool, o: Id)
    requires o in u.otms && SameWork(t, u)
    ensures forall status :: SameWork(t, FreeOtm(u, o, status))
  {
    hide Without, RemoveFirst, UuidOf;
  }

  lemma ContinueIsSame(t: Tool, u: Tool, e: Env, h: Handler, o: Id, request: ToolRequest)
    requires o in u.otms && SameWork(t, u) && ObtKeys.IsTransfer(h)
    ensures SameWork(t, Continue(u, e, h, o, request))
  {
    FreedOtm(t, u, o);
    hide FreeOtm;
  }

  lemma PairIsSame(t: Tool, o: Id, e: Env)
    requires o in t.otms
    ensures SameWork(t, PairWithDevice(t, o, e))
  {
    if !e.room {
      FreedOtm(t, t, o);
    } else if e.session.None? {
      FreedOtm(t, t.(creds := t.creds + [Cred(0, CREDTYPE_PSK, UuidOf(t, t.otms[o].handle), Unset, "", "")]), o);
    } else {
      var u := t.(creds := t.creds + [OwnerCred(t, o, e.session.value)], nextCredid := t.nextCredid + 1);
      ContinueIsSame(t, u, e, Jw7, o, TakeCred(t.uuid, e.session));
    }
    hide FreeOtm, Continue, UuidOf, OwnerCred, SameWork;
  }

  lemma TransferIsSame(t: Tool, h: Handler, o: Id, r: Response, e: Env)
    ensures SameWork(t, JustWorks(t, h, o, r, e))
  {
    hide FreeOtm, Continue, PairWithDevice, LearnUuid, ParseDos, SameWork;
    Unchanged(t);
    if o in t.otms {
      FreedOtm(t, t, o);
      if h == Jw5 {
        LearnIsSame(t, o, e, r);
        ContinueIsSame(t, LearnUuid(t, o, e, r), e, Jw6, o, TakeAcl(t.uuid));
      } else if h == Jw6 {
        PairIsSame(t, o, e);
      } else {
        forall k, q | ObtKeys.IsTransfer(k) ensures SameWork(t, Continue(t, e, k, o, q)) {
          ContinueIsSame(t, t, e, k, o, q);
        }
      }
    }
  }

  lemma LearnIsSame(t: Tool, o: Id, e: Env, r: Response)
    requires o in t.otms
    ensures SameWork(t, LearnUuid(t, o, e, r)) && o in LearnUuid(t, o, e, r).otms
  {
  }

  lemma TransferInOrder(t: Tool, h: Handler, o: Id, r: Response, e: Env)
    ensures InOrder(t, JustWorks(t, h, o, r, e))
  {
    hide *;
    TransferIsSame(t, h, o, r, e);
    NothingNew(t, JustWorks(t, h, o, r, e));
  }

  lemma Unchanged(t: Tool)
    ensures SameWork(t, t)
  {
  }

  lemma SwitchGone(t: Tool, d: Id, v: Tool)
    requires InOrder(t.(switches := t.switches - {d}), v)
    ensures InOrder(t, v)
  {
  }

  lemma ResetDoneInOrder(t: Tool, h: Id, status: int)
    ensures InOrder(t, HardResetDone(t, h, status))
  {
    hide Without, RemoveFirst, UuidOf;
  }

  lemma SendAceInOrder(t: Tool, p: Id, status: int, e: Env)
    ensures InOrder(t, SendAce(t, p, status, e))
  {
    if p in t.provs && status >= 0 && e.sent {
      hide FreeProv;
    } else if p in t.provs {
      ProvFreed(t, p);
      hide FreeProv, InOrder;
    }
  }

  lemma ProvisionOverInOrder(t: Tool, p: Id, status: int)
    ensures InOrder(t, ProvisionOver(t, p, status))
  {
  }

  lemma SwitchEndsInOrder(t: Tool, d: Id, status: int, e: Env)
    requires d in t.switches
    ensures InOrder(t, FreeSwitch(t, d, status, e))
  {
    ObtKeys.FreeSwitchIs(t, d, status, e);
    hide FreeSwitch, HardResetDone, SendAce, ProvisionOver, InOrder;
    var u := t.(switches := t.switches - {d});
    match t.switches[d].cb
    case HardReset(h) => ResetDoneInOrder(u, h, status);
    case ProvisionAce(p) => SendAceInOrder(u, p, status, e);
    case ProvisionDone(p) => ProvisionOverInOrder(u, p, status);
    SwitchGone(t, d, FreeSwitch(t, d, status, e));
  }

  lemma SwitchInOrder(t: Tool, h: Handler, d: Id, r: Response, e: Env)
    ensures InOrder(t, SwitchResponse(t, h, d, r, e))
  {
    if d in t.switches {
      SwitchEndsInOrder(t, d, -1, e);
      SwitchEndsInOrder(t, d, 0, e);
    }
    hide FreeSwitch, ParseDos;
  }

  lemma AceInOrder(t: Tool, p: Id, r: Response, e: Env)
    ensures InOrder(t, AceSent(t, p, r, e))
  {
    if p in t.provs && r.ok && e.room && e.sent {
      hide FreeProv, Released;
      var u := AceSent(t, p, r, e);
      assert u.switches == t.switches[t.nextId := SwitchCtx(t.provs[p].handle, RFNOP, ProvisionDone(p))];
      assert u.provs == t.provs[p := t.provs[p].(switch := Some(t.nextId))];
    } else if p in t.provs {
      hide StartSwitch;
      ProvFreed(t, p);
      NoSwitch(t, t.provs[p].handle, p, e);
    }
  }

  lemma ProvFreed(t: Tool, p: Id)
    requires p in t.provs
    ensures InOrder(t, FreeProv(t, p, -1)) && InOrder(t, FreeProv(Released(t, p), p, -1))
  {
  }

  lemma NoSwitch(t: Tool, handle: Id, p: Id, e: Env)
    ensures !e.room || !e.sent ==> StartSwitch(t, handle, RFNOP, ProvisionDone(p), e) == (t, None)
  {
  }

  lemma TimeoutInOrder(t: Tool, x: Id)
    ensures InOrder(t, Timeout(t, x))
  {
    hide FreeOtm, FreeReset, FreeProv;
    if x in t.timers && x in t.otms {
      FreedOtm(t, t, x);
    } else if x in t.timers && x in t.resets {
      ResetFreed(t, x);
    } else if x in t.timers && x in t.provs {
      ProvFreed(t, x);
    }
  }

  lemma ResetFreed(t: Tool, h: Id)
    requires h in t.resets
    ensures InOrder(t, FreeReset(t, h, -1))
  {
    hide Without, RemoveFirst, UuidOf;
  }

  lemma OtmStartInOrder(t: Tool, uuid: Uuid, e: Env)
    ensures InOrder(t, StartOtm(t, uuid, e).0)
  {
    hide FindHandle, HasCredFor, ToRfotm;
  }

  lemma ResetStartInOrder(t: Tool, uuid: Uuid, e: Env)
    ensures InOrder(t, StartReset(t, uuid, e).0)
  {
    hide FindHandle, HasCredFor;
  }

  lemma ProvisionStartInOrder(t: Tool, uuid: Uuid, ace: AceEntry, e: Env)
    ensures InOrder(t, StartProvision(t, uuid, ace, e).0)
  {
    hide FindHandle, HasCredFor;
  }

  lemma AnsweredKeeps(t: Tool, q: Id)
    requires Waiting(t) && Aims(t) && q in t.outstanding
    ensures var u := t.(outstanding := t.outstanding - {q}); Waiting(u) && Aims(u)
  {
    var u := t.(outstanding := t.outstanding - {q});
    InOrderKeeps(t, u);
    QuietKeepsWaiting(t, u);
  }

  lemma DeliverKeepsAims(t: Tool, q: Id, r: Response, e: Env)
    requires Inv(t) && Waiting(t) && Aims(t)
    ensures Aims(Deliver(t, q, r, e))
  {
    if q in t.outstanding {
      var x, u := t.outstanding[q], t.(outstanding := t.outstanding - {q});
      hide Inv, Waiting, Aims, InOrder, SwitchResponse, AceSent, JustWorks;
      AnsweredKeeps(t, q);
      if x.handler == SwitchPosted || x.handler == SwitchRead {
        SwitchInOrder(u, x.handler, x.ctx, r, e);
      } else if x.handler == AclPosted {
        AceInOrder(u, x.ctx, r, e);
      } else {
        TransferInOrder(u, x.handler, x.ctx, r, e);
      }
      InOrderKeeps(u, Deliver(t, q, r, e));
    }
  }

  lemma NextKeepsAims(t: Tool, ev: Event, e: Env)
    requires Inv(t) && Waiting(t) && Aims(t)
    ensures Aims(Next(t, ev, e))
  {
    hide Inv, Waiting, Aims, InOrder, StartOtm, StartReset, StartProvision, Deliver, Timeout, Found;
    match ev
    case BeginOtm(uuid) => OtmStartInOrder(t, uuid, e); InOrderKeeps(t, Next(t, ev, e));
    case BeginReset(uuid) => ResetStartInOrder(t, uuid, e); InOrderKeeps(t, Next(t, ev, e));
    case BeginProvision(uuid, ace) => ProvisionStartInOrder(t, uuid, ace, e); InOrderKeeps(t, Next(t, ev, e));
    case Respond(q, r) => DeliverKeepsAims(t, q, r, e);
    case Fire(x) => TimeoutInOrder(t, x); InOrderKeeps(t, Next(t, ev, e));
    case Discover(uuid, owned) =>
      ObtKeys.FoundOnly(t, uuid, owned, e);
      NothingNew(t, Next(t, ev, e));
      InOrderKeeps(t, Next(t, ev, e));
  }

  lemma {:induction false} RunKeepsAims(t: Tool, evs: seq<(Event, Env)>)
    requires Inv(t) && Waiting(t) && Aims(t)
    ensures Aims(Run(t, evs))
    decreases |evs|
  {
    hide Inv, Waiting, Aims, Next;
    if evs != [] {
      RunKeepsAims(t, evs[..|evs| - 1]);
      RunKeeps(t, evs[..|evs| - 1]);
      NextKeepsAims(Run(t, evs[..|evs| - 1]), evs[|evs| - 1].0, evs[|evs| - 1].1);
    }
  }

  // ----- what success means

  // The answer q to the last read of switch d says one of these states.
  ghost predicate LastAnswer(t: Tool, ev: Event, cb: SwitchCb, states: set<int>) {
    && ev.Respond? && ev.request in t.outstanding
    && var o := t.outstanding[ev.request];
    && o.handler == SwitchRead && o.request == GetPstat && o.ctx in t.switches && t.switches[o.ctx].cb == cb
    && ev.response.ok && ParseDos(0, ev.response.payload) in states
  }

  lemma NotToldYet(t: Tool, x: Id)
    requires Counted(t) && x in Live(t)
    ensures forall status :: Report(x, status) !in t.reports
  {
    forall i | 0 <= i < |t.reports| ensures t.reports[i].ctx != x {
      assert t.reports[i].ctx in Told(t.reports);
    }
  }

  // Success of x is told by nobody but the end of a switch that serves it.
  lemma SwitchEndTells(t: Tool, d: Id, status: int, e: Env, x: Id)
    requires d in t.switches && (forall s :: Report(x, s) !in t.reports)
    requires Report(x, 0) in FreeSwitch(t, d, status, e).reports
    ensures status >= 0 && (t.switches[d].cb == HardReset(x) || t.switches[d].cb == ProvisionDone(x))
    ensures t.switches[d].cb == HardReset(x) ==> status == 0
  {
    ObtKeys.FreeSwitchIs(t, d, status, e);
    var u := t.(switches := t.switches - {d});
    hide FreeSwitch, HardResetDone, SendAce, ProvisionOver;
    match t.switches[d].cb
    case HardReset(h) => ResetEndTells(u, h, status, x);
    case ProvisionAce(p) => ProvEndTells(u, p, status, e, x);
    case ProvisionDone(p) => ProvEndTells(u, p, status, e, x);
  }

  lemma ResetEndTells(t: Tool, h: Id, status: int, x: Id)
    requires forall s :: Report(x, s) !in t.reports
    ensures Report(x, 0) in HardResetDone(t, h, status).reports ==> status == 0 && h == x
  {
    hide Without, RemoveFirst, UuidOf;
  }

  lemma ProvEndTells(t: Tool, p: Id, status: int, e: Env, x: Id)
    requires forall s :: Report(x, s) !in t.reports
    ensures Report(x, 0) !in SendAce(t, p, status, e).reports
    ensures Report(x, 0) in ProvisionOver(t, p, status).reports ==> status >= 0 && p == x
  {
    hide AceRequest;
  }

  lemma SwitchAnswerTells(t: Tool, h: Handler, d: Id, r: Response, e: Env, x: Id)
    requires (forall s :: Report(x, s) !in t.reports) && (h == SwitchPosted || h == SwitchRead)
    requires Report(x, 0) in SwitchResponse(t, h, d, r, e).reports
    ensures d in t.switches && h == SwitchRead && r.ok
    ensures t.switches[d].cb == HardReset(x) || t.switches[d].cb == ProvisionDone(x)
    ensures var said, want := ParseDos(0, r.payload), t.switches[d].dos; said == want || (want == 0 && said == 1)
  {
    hide FreeSwitch, ParseDos;
    if d in t.switches {
      if Report(x, 0) in FreeSwitch(t, d, -1, e).reports {
        SwitchEndTells(t, d, -1, e, x);
      }
      if Report(x, 0) in FreeSwitch(t, d, 0, e).reports {
        SwitchEndTells(t, d, 0, e, x);
      }
    }
  }

  lemma AceTellsFailure(t: Tool, p: Id, r: Response, e: Env, x: Id)
    requires forall s :: Report(x, s) !in t.reports
    ensures Report(x, 0) !in AceSent(t, p, r, e).reports
  {
  }

  lemma TransferTellsOwn(t: Tool, h: Handler, o: Id, r: Response, e: Env, x: Id)
    requires (forall s :: Report(x, s) !in t.reports) && x !in t.otms
    ensures Report(x, 0) !in JustWorks(t, h, o, r, e).reports
  {
    ObtKeys.JustWorksTells(t, h, o, r, e);
    hide FreeOtm, ParseDos, ParseDeviceUuid, UuidOf, OwnerCred, PairWithDevice, Continue;
  }

  lemma TimeoutTellsFailure(t: Tool, y: Id, x: Id)
    requires forall s :: Report(x, s) !in t.reports
    ensures Report(x, 0) !in Timeout(t, y).reports
  {
    hide Without, RemoveFirst, UuidOf;
  }

  lemma AnswerTells(t: Tool, q: Id, r: Response, e: Env, x: Id)
    requires Aims(t) && (forall s :: Report(x, s) !in t.reports) && x !in t.otms
    requires Report(x, 0) in Deliver(t, q, r, e).reports
    ensures LastAnswer(t, Respond(q, r), ProvisionDone(x), {3}) || LastAnswer(t, Respond(q, r), HardReset(x), {0, 1})
  {
    if q in t.outstanding {
      var o, u := t.outstanding[q], t.(outstanding := t.outstanding - {q});
      assert Asks(t, o) && (o.ctx in t.switches ==> Aimed(t.switches[o.ctx]));
      hide SwitchResponse, AceSent, JustWorks, ParseDos, Aims;
      if o.handler == SwitchPosted || o.handler == SwitchRead {
        SwitchAnswerTells(u, o.handler, o.ctx, r, e, x);
      } else if o.handler == AclPosted {
        AceTellsFailure(u, o.ctx, r, e, x);
      } else {
        TransferTellsOwn(u, o.handler, o.ctx, r, e, x);
      }
    }
  }

  lemma SuccessOf(t: Tool, ev: Event, e: Env, x: Id)
    requires Inv(t) && Waiting(t) && Aims(t) && (x in t.provs || x in t.resets) && Report(x, 0) in Next(t, ev, e).reports
    ensures LastAnswer(t, ev, ProvisionDone(x), {3}) || LastAnswer(t, ev, HardReset(x), {0, 1})
  {
    NotToldYet(t, x);
    ObtKeys.KindsApart(t, x);
    hide Inv, Waiting, Aims, LastAnswer, StartOtm, StartReset, StartProvision, Deliver, Timeout, Found;
    match ev
    case Respond(q, r) => AnswerTells(t, q, r, e, x);
    case Fire(y) => TimeoutTellsFailure(t, y, x);
    case BeginOtm(uuid) => ObtKeys.StartsTellNothing(t, uuid, e);
    case BeginReset(uuid) => ObtKeys.StartsTellNothing(t, uuid, e);
    case BeginProvision(uuid, ace) => ObtKeys.StartsTellNothing(t, uuid, e);
    case Discover(uuid, owned) => ObtKeys.FoundOnly(t, uuid, owned, e);
  }

  // The switch that ended served one context only.
  lemma OneContext(t: Tool, ev: Event, x: Id, y: SwitchCb, states: set<int>)
    requires Inv(t) && LastAnswer(t, ev, y, states)
    ensures y == HardReset(x) ==> x in t.resets
    ensures y == ProvisionDone(x) ==> x in t.provs
  {
    assert SwitchServes(t, t.outstanding[ev.request].ctx);
  }

  lemma EitherKind(t: Tool, x: Id)
    requires Inv(t)
    ensures x in t.resets ==> x !in t.provs
  {
    NotBoth(t, x);
  }

  lemma IdleAims(t: Tool)
    requires Idle(t)
    ensures Aims(t)
  {
  }

  // After any run of an initialised tool: success of a provisioning is told only by the answer to its
  // last request, the reading of pstat, and only when that says RFNOP.
  lemma ProvisionedMeansOperational(t0: Tool, evs: seq<(Event, Env)>, ev: Event, e: Env, p: Id)
    requires Idle(t0) && p in Run(t0, evs).provs && Report(p, 0) in Next(Run(t0, evs), ev, e).reports
    ensures LastAnswer(Run(t0, evs), ev, ProvisionDone(p), {3})
  {
    IdleAims(t0);
    hide Inv, Waiting, Aims, LastAnswer, Run, Next;
    ObtKeys.IdleIsFine(t0);
    RunKeeps(t0, evs);
    RunKeepsAims(t0, evs);
    var t := Run(t0, evs);
    SuccessOf(t, ev, e, p);
    EitherKind(t, p);
    if LastAnswer(t, ev, HardReset(p), {0, 1}) {
      OneContext(t, ev, p, HardReset(p), {0, 1});
    }
  }

  // And success of a hard reset only by the answer that says RESET or RFOTM.
  lemma ResetMeansCleared(t0: Tool, evs: seq<(Event, Env)>, ev: Event, e: Env, h: Id)
    requires Idle(t0) && h in Run(t0, evs).resets && Report(h, 0) in Next(Run(t0, evs), ev, e).reports
    ensures LastAnswer(Run(t0, evs), ev, HardReset(h), {0, 1})
  {
    IdleAims(t0);
    hide Inv, Waiting, Aims, LastAnswer, Run, Next;
    ObtKeys.IdleIsFine(t0);
    RunKeeps(t0, evs);
    RunKeepsAims(t0, evs);
    var t := Run(t0, evs);
    SuccessOf(t, ev, e, h);
    EitherKind(t, h);
    if LastAnswer(t, ev, ProvisionDone(h), {3}) {
      OneContext(t, ev, h, ProvisionDone(h), {3});
    }
  }

  // ----- which calls are accepted

  // Some device on the list has the UUID.
  predicate Knows(t: Tool, list: seq<Id>, uuid: Uuid) {
    exists i :: 0 <= i < |list| && list[i] in t.handles && t.handles[list[i]] == uuid
  }

  lemma {:induction false} FoundExactly(t: Tool, list: seq<Id>, uuid: Uuid)
    ensures FindHandle(t, list, uuid).Some? <==> Knows(t, list, uuid)
  {
    if list != [] {
      FoundExactly(t, list[1..], uuid);
      assert forall i :: 0 <= i < |list[1..]| ==> list[1..][i] == list[i + 1];
      if i :| 0 <= i < |list| && list[i] in t.handles && t.handles[list[i]] == uuid {
        assert i > 0 ==> list[1..][i - 1] == list[i];
      }
    }
  }

  // A transfer is accepted for a known device that the tool has no credential for, a hard reset or a
  // provisioning for a known device that it has one for, when memory suffices and the request goes out.
  lemma AcceptedExactly(t: Tool, uuid: Uuid, ace: AceEntry, e: Env)
    ensures var owned := exists i :: 0 <= i < |t.creds| && t.creds[i].subject == uuid;
            && (StartOtm(t, uuid, e).1.Some? <==> !owned && Knows(t, t.cache, uuid) && e.room && e.sent)
            && (StartReset(t, uuid, e).1.Some? <==> owned && Knows(t, t.devices, uuid) && e.room && e.sent)
            && (StartProvision(t, uuid, ace, e).1.Some? <==> owned && Knows(t, t.devices, uuid) && e.room && e.sent)
  {
    FoundExactly(t, t.cache, uuid);
    FoundExactly(t, t.devices, uuid);
    hide FindHandle, Knows, ToRfotm, SwitchTo;
  }

  // ----- how a hard reset ends

  // It is reported; on success the first credential of the device goes, else all credentials stay.
  ghost predicate ResetOver(t: Tool, u: Tool, h: Id)
    requires h in t.resets
  {
    var device := UuidOf(t, t.resets[h].handle);
    || (u.reports == t.reports + [Report(h, -1)] && u.creds == t.creds)
    || (&& u.reports == t.reports + [Report(h, 0)]
        && forall x :: ObtKeys.Count(u.creds, x)
                    == ObtKeys.Count(t.creds, x) - if x == device && ObtKeys.Count(t.creds, x) > 0 then 1 else 0)
  }

  lemma FreeResetEnds(t: Tool, u: Tool, h: Id, status: int)
    requires h in t.resets && h in u.resets && u.resets[h].handle == t.resets[h].handle
    requires u.handles == t.handles && u.creds == t.creds && u.reports == t.reports
    ensures ResetOver(t, FreeReset(u, h, status), h)
  {
    var device := UuidOf(t, t.resets[h].handle);
    forall x {
      ObtKeys.CountRemove(t.creds, device, x);
    }
    hide Without, RemoveFirst, UuidOf, ObtKeys.Count;
  }

  lemma ResetSwitchEnds(t: Tool, d: Id, status: int, e: Env, h: Id)
    requires d in t.switches && h in t.resets && h !in FreeSwitch(t, d, status, e).resets
    ensures ResetOver(t, FreeSwitch(t, d, status, e), h)
  {
    ObtKeys.FreeSwitchIs(t, d, status, e);
    var u := t.(switches := t.switches - {d});
    hide FreeSwitch, FreeReset, ResetOver;
    match t.switches[d].cb
    case HardReset(x) =>
      if x in t.resets {
        var v := u.(resets := u.resets[x := u.resets[x].(switch := None)]);
        if x == h {
          FreeResetEnds(t, v, h, status);
        } else {
          OthersKeepResets(v, x, status, h);
        }
      }
    case ProvisionAce(p) =>
    case ProvisionDone(p) =>
  }

  lemma OthersKeepResets(t: Tool, x: Id, status: int, h: Id)
    requires x in t.resets && h in t.resets && h != x
    ensures h in FreeReset(t, x, status).resets
  {
    hide Without, RemoveFirst, UuidOf;
  }

  lemma TransferKeepsResets(t: Tool, h: Handler, o: Id, r: Response, e: Env)
    ensures JustWorks(t, h, o, r, e).resets == t.resets
  {
    hide JustWorks;
    TransferIsSame(t, h, o, r, e);
  }

  lemma StartsKeepResets(t: Tool, ev: Event, e: Env, h: Id)
    requires h in t.resets && !ev.Respond? && !ev.Fire?
    ensures h in Next(t, ev, e).resets
  {
    hide FindHandle, HasCredFor, Without;
  }

  // Whatever ends a hard reset, after any run: it is reported once, and the tool gives the device's
  // credential up exactly when the report is success.
  lemma ResetOutcome(t: Tool, ev: Event, e: Env, h: Id)
    requires h in t.resets && h !in Next(t, ev, e).resets
    requires Inv(t)
    ensures ResetOver(t, Next(t, ev, e), h)
  {
    hide Inv, ResetOver, FreeReset, FreeOtm, FreeProv, FreeSwitch, AceSent, JustWorks, ParseDos;
    match ev
    case Fire(x) =>
      ObtKeys.KindsApart(t, h);
      OtmEndKeepsResets(t, x);
      if x in t.timers && x !in t.otms && x in t.resets {
        if x == h {
          FreeResetEnds(t, t, h, -1);
        } else {
          OthersKeepResets(t, x, -1, h);
        }
      }
    case Respond(q, r) =>
      AnswerEndsReset(t, q, r, e, h);
    case _ =>
      StartsKeepResets(t, ev, e, h);
  }

  lemma OtmEndKeepsResets(t: Tool, x: Id)
    ensures x in t.otms ==> FreeOtm(t, x, -1).resets == t.resets
    ensures x in t.provs ==> FreeProv(t, x, -1).resets == t.resets
  {
    hide Without, RemoveFirst, UuidOf;
  }

  lemma AnswerEndsReset(t: Tool, q: Id, r: Response, e: Env, h: Id)
    requires h in t.resets && h !in Deliver(t, q, r, e).resets
    ensures ResetOver(t, Deliver(t, q, r, e), h)
  {
    if q in t.outstanding {
      var x, u := t.outstanding[q], t.(outstanding := t.outstanding - {q});
      hide FreeSwitch, AceSent, JustWorks, ParseDos, UuidOf;
      AceKeepsResets(u, x.ctx, r, e);
      TransferKeepsResets(u, x.handler, x.ctx, r, e);
      if (x.handler == SwitchPosted || x.handler == SwitchRead) && x.ctx in u.switches {
        if h !in FreeSwitch(u, x.ctx, -1, e).resets {
          ResetSwitchEnds(u, x.ctx, -1, e, h);
        }
        if h !in FreeSwitch(u, x.ctx, 0, e).resets {
          ResetSwitchEnds(u, x.ctx, 0, e, h);
        }
        SameDevice(t, u, h);
      }
    }
  }

  lemma SameDevice(t: Tool, u: Tool, h: Id)
    requires u == t.(outstanding := u.outstanding) && h in t.resets
    ensures forall v :: ResetOver(u, v, h) <==> ResetOver(t, v, h)
  {
  }

  lemma AceKeepsResets(t: Tool, p: Id, r: Response, e: Env)
    ensures AceSent(t, p, r, e).resets == t.resets
  {
  }
}
