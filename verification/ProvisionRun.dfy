/** Provisioning and hard reset, tool and device together: the requests one by one, through the
    device's access control (security/oc_obt.c against the device's handlers). */
module ProvisionRun {
  import opened Payload
  import opened AclModel
  import opened CredModel
  import opened DeviceModel
  import opened AccessControl
  import opened DefaultAcl
  import opened Transfer
  import opened StateTable
  import opened PostedAces
  import opened AccessTable
  import opened P = ObtProvision
  import DeviceRuns
  import ObtKeys
  import ObtRuns
  import M = ObtModel

  // ----- the tool, request by request

  // Names given out so far are below the next one.
  ghost predicate Fresh(t: M.Tool) {
    && (forall x :: x in t.switches || x in t.provs || x in t.resets || x in t.timers ==> x < t.nextId)
    && (forall q :: q in t.outstanding ==> q < t.nextId)
  }

  lemma InvIsFresh(t: M.Tool)
    requires ObtRuns.Inv(t) && ObtRuns.Waiting(t)
    ensures Fresh(t)
  {
    ObtRuns.IdsAreOld(t);
  }

  // The five requests of a provisioning, and the names they go out under.
  function AskedAt(ace: AceEntry, k: nat): M.ToolRequest
    requires k < 5
  {
    if k == 0 then PostState(2) else if k == 2 then PostAce(ace) else if k == 3 then PostState(3) else M.GetPstat
  }

  function NameAt(p: M.Id, k: nat): M.Id
    requires k < 5
  {
    if k < 3 then p + 2 + k else p + 3 + k
  }

  // The tool with request k outstanding, and nothing else changed since it was in t.
  function Stage(t: M.Tool, handle: M.Id, ace: AceEntry, k: nat): M.Tool
    requires k < 5
  {
    var p := t.nextId;
    var d := if k < 3 then p + 1 else p + 5;
    var cb := if k < 3 then M.ProvisionAce(p) else M.ProvisionDone(p);
    var handler := if k == 2 then M.AclPosted else if k == 0 || k == 3 then M.SwitchPosted else M.SwitchRead;
    t.(switches := if k == 2 then t.switches else t.switches[d := M.SwitchCtx(handle, if k < 3 then 2 else 3, cb)],
       provs := t.provs[p := M.ProvCtx(handle, ace, if k == 2 then None else Some(d))],
       timers := t.timers + {p},
       outstanding := t.outstanding[NameAt(p, k) := M.Outstanding(handler, if k == 2 then p else d, AskedAt(ace, k))],
       nextId := NameAt(p, k) + 1)
  }

  lemma ProvisionStarts(t: M.Tool, uuid: Uuid, ace: AceEntry, e: M.Env)
    ensures var (u, p) := M.StartProvision(t, uuid, ace, e);
            p.Some? ==> p.value == t.nextId && M.FindHandle(t, t.devices, uuid).Some?
                        && u == Stage(t, M.FindHandle(t, t.devices, uuid).value, ace, 0)
  {
    hide M.FindHandle, HasCredFor;
  }

  lemma MapBack<K, V>(m: map<K, V>, k: K, v: V)
    requires k !in m
    ensures m[k := v] - {k} == m
  {
  }

  lemma PostedStep(t: M.Tool, handle: M.Id, ace: AceEntry, k: nat, r: M.Response, e: M.Env)
    requires Fresh(t) && (k == 0 || k == 3) && r.ok && e.sent
    ensures M.Deliver(Stage(t, handle, ace, k), NameAt(t.nextId, k), r, e) == Stage(t, handle, ace, k + 1)
  {
    var p, u := t.nextId, Stage(t, handle, ace, k);
    var q := NameAt(p, k);
    MapBack(t.outstanding, q, u.outstanding[q]);
    hide M.ParseDos, M.FreeSwitch, M.AceSent, M.JustWorks;
    assert M.Deliver(u, q, r, e)
        == M.Post(u.(outstanding := t.outstanding), M.SwitchRead, if k < 3 then p + 1 else p + 5, M.GetPstat);
  }

  lemma ReadStep(t: M.Tool, handle: M.Id, ace: AceEntry, r: M.Response, e: M.Env)
    requires Fresh(t) && r.ok && e.sent && M.ParseDos(0, r.payload) == 2
    ensures M.Deliver(Stage(t, handle, ace, 1), NameAt(t.nextId, 1), r, e) == Stage(t, handle, ace, 2)
  {
    hide M.ParseDos, M.FreeSwitch, M.AceSent, M.JustWorks;
    var u, q := Stage(t, handle, ace, 1), NameAt(t.nextId, 1);
    MapBack(t.outstanding, q, u.outstanding[q]);
    SwitchToAce(t, u.(outstanding := t.outstanding), handle, ace, e);
  }

  lemma AceStep(t: M.Tool, handle: M.Id, ace: AceEntry, r: M.Response, e: M.Env)
    requires Fresh(t) && r.ok && e.sent && e.room
    ensures M.Deliver(Stage(t, handle, ace, 2), NameAt(t.nextId, 2), r, e) == Stage(t, handle, ace, 3)
  {
    var p, u := t.nextId, Stage(t, handle, ace, 2);
    var q := NameAt(p, 2);
    MapBack(t.outstanding, q, u.outstanding[q]);
    hide M.AceSent, M.SwitchResponse, M.JustWorks;
    SwitchBack(t, u.(outstanding := t.outstanding), handle, ace, r, e);
  }

  lemma SwitchBack(t: M.Tool, v: M.Tool, handle: M.Id, ace: AceEntry, r: M.Response, e: M.Env)
    requires Fresh(t) && r.ok && e.sent && e.room && v == Stage(t, handle, ace, 2).(outstanding := t.outstanding)
    ensures M.AceSent(v, t.nextId, r, e) == Stage(t, handle, ace, 3)
  {
    var p := t.nextId;
    hide M.FreeProv;
    assert t.provs[p := M.ProvCtx(handle, ace, None)][p := M.ProvCtx(handle, ace, Some(p + 5))]
        == t.provs[p := M.ProvCtx(handle, ace, Some(p + 5))];
  }

  // An answer that says what is wanted brings out the next request.
  lemma ProvisionStep(t: M.Tool, handle: M.Id, ace: AceEntry, k: nat, r: M.Response, e: M.Env)
    requires Fresh(t) && k < 4 && r.ok && e.sent && e.room && (k == 1 ==> M.ParseDos(0, r.payload) == 2)
    ensures M.Deliver(Stage(t, handle, ace, k), NameAt(t.nextId, k), r, e) == Stage(t, handle, ace, k + 1)
  {
    hide *;
    if k == 1 {
      ReadStep(t, handle, ace, r, e);
    } else if k == 2 {
      AceStep(t, handle, ace, r, e);
    } else {
      PostedStep(t, handle, ace, k, r, e);
    }
  }

  lemma SwitchToAce(t: M.Tool, v: M.Tool, handle: M.Id, ace: AceEntry, e: M.Env)
    requires Fresh(t) && e.sent && v == Stage(t, handle, ace, 1).(outstanding := t.outstanding)
    ensures M.FreeSwitch(v, t.nextId + 1, 0, e) == Stage(t, handle, ace, 2)
  {
    var p := t.nextId;
    MapBack(t.switches, p + 1, v.switches[p + 1]);
    assert t.provs[p := v.provs[p]][p := M.ProvCtx(handle, ace, None)] == t.provs[p := M.ProvCtx(handle, ace, None)];
    hide M.FreeProv;
  }

  // The answer to the last request completes the provisioning.
  lemma ProvisionEnds(t: M.Tool, handle: M.Id, ace: AceEntry, r: M.Response, e: M.Env)
    requires Fresh(t) && r.ok && M.ParseDos(0, r.payload) == 3
    ensures M.Deliver(Stage(t, handle, ace, 4), NameAt(t.nextId, 4), r, e)
         == t.(reports := t.reports + [M.Report(t.nextId, 0)], nextId := t.nextId + 8)
  {
    var p, u := t.nextId, Stage(t, handle, ace, 4);
    var q := NameAt(p, 4);
    MapBack(t.outstanding, q, u.outstanding[q]);
    MapBack(t.switches, p + 5, u.switches[p + 5]);
    MapBack(t.provs, p, M.ProvCtx(handle, ace, None));
    assert t.provs[p := u.provs[p]][p := M.ProvCtx(handle, ace, None)] == t.provs[p := M.ProvCtx(handle, ace, None)];
    assert t.timers + {p} - {p} == t.timers;
    hide M.ParseDos;
  }

  // ----- the device, request by request

  // The tool's own connection, as owner.
  ghost predicate Owners(w: Setting, me: Uuid) {
    && (forall k: nat :: w.links(k).peer == Some(Peer(me, true)) && Plentiful(w.links(k).chance))
    && (forall k: nat :: w.envs(k).sent && w.envs(k).room)
  }

  lemma OwnerReaches(d: Device, q: M.ToolRequest, l: Link, me: Uuid)
    requires l.peer == Some(Peer(me, true)) && d.pstat.rowner == me && d.aclRowner == me
    requires q.GetPstat? || (q.Send? && (q.request.PstatPost? || q.request.AclPost?))
    ensures Granted(d, AccessOf(q, l))
  {
  }

  lemma Answered(d: Device, r: Request, l: Link, me: Uuid, session: nat, core: seq<Resource>)
    requires l.peer == Some(Peer(me, true)) && d.pstat.rowner == me && d.aclRowner == me
    requires (r.PstatPost? || r.AclPost?) && Step(d, r, core, l.chance).1 == Changed
    ensures Answer(d, M.Send(r), l, session, core) == (Step(d, r, core, l.chance).0, M.Response(true, []))
  {
    OwnerReaches(d, M.Send(r), l, me);
    hide Granted, AccessOf, Step;
  }

  lemma StateRead(d: Device, l: Link, me: Uuid, session: nat, core: seq<Resource>)
    requires l.peer == Some(Peer(me, true)) && d.pstat.rowner == me && d.aclRowner == me
    ensures var (after, r) := Answer(d, M.GetPstat, l, session, core);
            after == d && r.ok && M.ParseDos(0, r.payload) == d.pstat.s
  {
    OwnerReaches(d, M.GetPstat, l, me);
    PstatViewTells(d);
    hide Granted, AccessOf, PstatView, M.ParseDos;
  }

  // The device in normal operation, owned by `me`.
  predicate Serves(d: Device, me: Uuid) {
    DeviceRuns.Inv(d) && d.pstat.s == 3 && d.pstat.rowner == me && d.aclRowner == me
  }

  function Out(d: Device): Device {
    d.(pstat := d.pstat.(s := 2, isop := false, cm := 0, tm := 0))
  }

  function PutOn(d: Device, ace: AceEntry, w: Setting): Device {
    Step(Out(d), PostOf(ace), w.core, w.links(2).chance).0
  }

  // The device with request k before it.
  function DeviceBefore(d: Device, ace: AceEntry, k: nat, w: Setting): Device {
    if k == 0 then d else if k < 3 then Out(d)
    else if k == 3 then PutOn(d, ace, w)
    else d.(pstat := d.pstat.(cm := 0, tm := 0), aces := PutOn(d, ace, w).aces)
  }

  lemma GoesOut(d: Device, me: Uuid, w: Setting)
    requires Serves(d, me) && Owners(w, me)
    ensures Step(d, AskFor(2), w.core, w.links(0).chance) == (Out(d), Changed) && DeviceRuns.Inv(Out(d))
  {
    OutAndBack(d, w.core, w.links(0).chance, w.links(3).chance);
    DeviceRuns.StepKeepsInv(d, AskFor(2), w.core, w.links(0).chance);
    hide Step, DeviceRuns.Inv;
  }

  lemma TakesEntry(d: Device, ace: AceEntry, me: Uuid, w: Setting)
    requires Serves(d, me) && Owners(w, me) && IsSeparate(d.aces, ace)
    ensures var after := PutOn(d, ace, w);
            && Step(Out(d), PostOf(ace), w.core, w.links(2).chance) == (after, Changed)
            && after == Out(d).(aces := after.aces) && IsPosted(Others(d.aces, ace), after.aces, ace) && DeviceRuns.Inv(after)
  {
    GoesOut(d, me, w);
    PostedList(Out(d), ace, w.core, w.links(2).chance);
    DeviceRuns.StepKeepsInv(Out(d), PostOf(ace), w.core, w.links(2).chance);
    hide Step, DeviceRuns.Inv, IsPosted, IsSeparate, Others;
  }

  lemma ComesBack(d: Device, ace: AceEntry, me: Uuid, w: Setting)
    requires Serves(d, me) && Owners(w, me) && IsSeparate(d.aces, ace)
    ensures Step(PutOn(d, ace, w), AskFor(3), w.core, w.links(3).chance) == (DeviceBefore(d, ace, 4, w), Changed)
  {
    TakesEntry(d, ace, me, w);
    var x := PutOn(d, ace, w);
    StateChanges(x, 3, w.core, w.links(3).chance);
    ReadyStays(d, x);
    hide Step, IsPosted, IsSeparate, Others, PutOn, PostOtm, Ready;
  }

  // Owners, identities and credentials are those of normal operation, and nothing is left to tighten.
  lemma ReadyStays(d: Device, x: Device)
    requires DeviceRuns.Inv(d) && d.pstat.s == 3 && x == Out(d).(aces := x.aces)
    ensures Ready(x) && d.pstat.isop && !d.pstat.p && !d.postOtm
  {
  }

  // Every request of the provisioning is granted and carried out.
  lemma DeviceServes(d: Device, ace: AceEntry, me: Uuid, w: Setting, k: nat)
    requires Serves(d, me) && Owners(w, me) && IsSeparate(d.aces, ace) && k < 5
    ensures var (after, r) := Answer(DeviceBefore(d, ace, k, w), AskedAt(ace, k), w.links(k), w.session, w.core);
            && after == DeviceBefore(d, ace, k + 1, w) && r.ok
            && (k == 1 ==> M.ParseDos(0, r.payload) == 2) && (k == 4 ==> M.ParseDos(0, r.payload) == 3)
  {
    GoesOut(d, me, w);
    TakesEntry(d, ace, me, w);
    ComesBack(d, ace, me, w);
    assert w.links(k).peer == Some(Peer(me, true));
    hide Step, DeviceRuns.Inv, IsPosted, IsSeparate, Others, PutOn, Answer, Owners, M.ParseDos;
    var x := DeviceBefore(d, ace, k, w);
    if k == 0 {
      Answered(x, AskFor(2), w.links(0), me, w.session, w.core);
    } else if k == 2 {
      Answered(x, PostOf(ace), w.links(2), me, w.session, w.core);
    } else if k == 3 {
      Answered(x, AskFor(3), w.links(3), me, w.session, w.core);
    } else {
      StateRead(x, w.links(k), me, w.session, w.core);
    }
  }

  // ----- both together

  // The first n requests of the provisioning that started under name p, one after the other.
  function Serve(s: System, p: M.Id, n: nat, w: Setting): System
    requires n <= 5
  {
    if n == 0 then s
    else
      var before := Serve(s, p, n - 1, w);
      if NameAt(p, n - 1) !in before.tool.outstanding then before
      else Exchange(before, NameAt(p, n - 1), w.links(n - 1), w.session, w.core, w.envs(n - 1))
  }

  lemma OneExchange(d: Device, t: M.Tool, handle: M.Id, ace: AceEntry, k: nat, w: Setting)
    requires Serves(d, t.uuid) && Owners(w, t.uuid) && IsSeparate(d.aces, ace) && Fresh(t) && k < 5
    ensures NameAt(t.nextId, k) in Stage(t, handle, ace, k).outstanding
    ensures Exchange(System(DeviceBefore(d, ace, k, w), Stage(t, handle, ace, k)), NameAt(t.nextId, k), w.links(k),
                     w.session, w.core, w.envs(k))
         == System(DeviceBefore(d, ace, k + 1, w),
                   if k < 4 then Stage(t, handle, ace, k + 1)
                   else t.(reports := t.reports + [M.Report(t.nextId, 0)], nextId := t.nextId + 8))
  {
    DeviceServes(d, ace, t.uuid, w, k);
    var u := Stage(t, handle, ace, k);
    assert u.outstanding[NameAt(t.nextId, k)].request == AskedAt(ace, k);
    assert w.envs(k).sent && w.envs(k).room;
    hide Answer, M.Deliver, DeviceBefore, AskedAt, Stage, NameAt, M.ParseDos, Serves, Owners, IsSeparate;
    var r := Answer(DeviceBefore(d, ace, k, w), AskedAt(ace, k), w.links(k), w.session, w.core).1;
    if k < 4 {
      ProvisionStep(t, handle, ace, k, r, w.envs(k));
    } else {
      ProvisionEnds(t, handle, ace, r, w.envs(4));
    }
  }

  lemma {:induction false} FirstRequests(d: Device, t: M.Tool, handle: M.Id, ace: AceEntry, n: nat, w: Setting)
    requires Serves(d, t.uuid) && Owners(w, t.uuid) && IsSeparate(d.aces, ace) && Fresh(t) && n <= 5
    ensures Serve(System(d, Stage(t, handle, ace, 0)), t.nextId, n, w)
         == System(DeviceBefore(d, ace, n, w),
                   if n < 5 then Stage(t, handle, ace, n)
                   else t.(reports := t.reports + [M.Report(t.nextId, 0)], nextId := t.nextId + 8))
  {
    if n == 0 {
      hide Stage;
    } else {
      hide Exchange, DeviceBefore, Stage, NameAt, Serves, Owners, IsSeparate, Fresh;
      FirstRequests(d, t, handle, ace, n - 1, w);
      OneExchange(d, t, handle, ace, n - 1, w);
    }
  }

  // A provisioning of a device in normal operation by its owner: all five requests are granted and
  // accepted, the tool reports success once and is otherwise as before, and the device is back in
  // normal operation with the entry on its list.
  lemma ProvisioningSucceeds(d: Device, t: M.Tool, uuid: Uuid, ace: AceEntry, e: M.Env, u: M.Tool, p: M.Id, w: Setting)
    requires Serves(d, t.uuid) && Owners(w, t.uuid) && IsSeparate(d.aces, ace)
    requires ObtRuns.Inv(t) && ObtRuns.Waiting(t) && M.StartProvision(t, uuid, ace, e) == (u, Some(p))
    ensures forall k :: 0 <= k < 5 ==> AcceptedAt(System(d, u), p, ace, k, w)
    ensures var end := Serve(System(d, u), p, 5, w);
            && end.tool == t.(reports := t.reports + [M.Report(p, 0)], nextId := p + 8)
            && end.device == d.(pstat := d.pstat.(cm := 0, tm := 0), aces := end.device.aces)
            && IsPosted(Others(d.aces, ace), end.device.aces, ace)
  {
    InvIsFresh(t);
    ProvisionStarts(t, uuid, ace, e);
    var handle := M.FindHandle(t, t.devices, uuid).value;
    TakesEntry(d, ace, t.uuid, w);
    FirstRequests(d, t, handle, ace, 5, w);
    hide Serve, Stage, PutOn, IsPosted, Others, Serves, Owners, IsSeparate, Fresh, M.StartProvision, ObtRuns.Inv, ObtRuns.Waiting;
    forall k | 0 <= k < 5 ensures AcceptedAt(System(d, u), p, ace, k, w) {
      IsAccepted(d, t, handle, ace, k, w);
    }
  }

  // Request k goes out as it should, and is granted and carried out.
  predicate AcceptedAt(s: System, p: M.Id, ace: AceEntry, k: nat, w: Setting)
    requires k < 5
  {
    var before := Serve(s, p, k, w);
    && NameAt(p, k) in before.tool.outstanding && before.tool.outstanding[NameAt(p, k)].request == AskedAt(ace, k)
    && Answer(before.device, AskedAt(ace, k), w.links(k), w.session, w.core).1.ok
  }

  lemma IsAccepted(d: Device, t: M.Tool, handle: M.Id, ace: AceEntry, k: nat, w: Setting)
    requires Serves(d, t.uuid) && Owners(w, t.uuid) && IsSeparate(d.aces, ace) && Fresh(t) && k < 5
    ensures AcceptedAt(System(d, Stage(t, handle, ace, 0)), t.nextId, ace, k, w)
  {
    FirstRequests(d, t, handle, ace, k, w);
    DeviceServes(d, ace, t.uuid, w, k);
    hide Serve, DeviceBefore, Answer, AskedAt, Serves, Owners, IsSeparate, Fresh;
  }

  // From then on the entry's subject may do what was posted, and everybody what the other entries let.
  lemma ProvisionedGrants(d: Device, t: M.Tool, uuid: Uuid, ace: AceEntry, e: M.Env, u: M.Tool, p: M.Id, w: Setting, a: Access)
    requires Serves(d, t.uuid) && Owners(w, t.uuid) && IsSeparate(d.aces, ace)
    requires ObtRuns.Inv(t) && ObtRuns.Waiting(t) && M.StartProvision(t, uuid, ace, e) == (u, Some(p))
    ensures var end := Serve(System(d, u), p, 5, w).device;
            (Granted(end, a)
             <==> Granted(end.(aces := Others(d.aces, ace)), a)
                  || (StandsFor(ace.subject, d.creds, a) && Permits(ace.permission, a.verb) && KeptIsFor(ace, a)))
  {
    InvIsFresh(t);
    ProvisionStarts(t, uuid, ace, e);
    var handle := M.FindHandle(t, t.devices, uuid).value;
    FirstRequests(d, t, handle, ace, 5, w);
    hide Serve, Stage, Step, Granted, KeptIsFor, Others, Serves, Owners, IsSeparate, Fresh, StandsFor, Permits,
         M.StartProvision, ObtRuns.Inv, ObtRuns.Waiting;
    var end := DeviceBefore(d, ace, 5, w);
    InOperation(d, t.uuid);
    PlentifulLinks(w, t.uuid, 2);
    PostedEntryGrants(Out(d), ace, w.core, w.links(2).chance, end, a);
  }

  lemma InOperation(d: Device, me: Uuid)
    requires Serves(d, me)
    ensures d.pstat.s == 3
  {
  }

  lemma PlentifulLinks(w: Setting, me: Uuid, k: nat)
    requires Owners(w, me)
    ensures Plentiful(w.links(k).chance)
  {
  }

  // ----- after a transfer

  lemma {:induction false} PlayKeepsInv(s: System, q: M.Id, n: nat, w: Setting)
    requires DeviceRuns.Inv(s.device) && ObtRuns.Inv(s.tool) && ObtRuns.Waiting(s.tool) && Undisturbed(w)
    ensures var end := Play(s, q, n, w);
            DeviceRuns.Inv(end.device) && ObtRuns.Inv(end.tool) && ObtRuns.Waiting(end.tool)
  {
    hide DeviceRuns.Inv, ObtRuns.Inv, ObtRuns.Waiting, Granted, Answer, M.Deliver, AccessOf, CoreTable;
    if n > 0 {
      PlayKeepsInv(s, q, n - 1, w);
      var before := Play(s, q, n - 1, w);
      assert Plentiful(w.links(n - 1).chance);
      hide Undisturbed, Plentiful;
      FairWhenPlentiful(w.links(n - 1).chance);
      if q + n - 1 in before.tool.outstanding {
        var request := before.tool.outstanding[q + n - 1].request;
        AnswerKeepsInv(before.device, request, w.links(n - 1), w.session, w.core);
        ObtRuns.DeliverKeeps(before.tool, q + n - 1, Answer(before.device, request, w.links(n - 1), w.session, w.core).1,
                             w.envs(n - 1));
      }
    }
  }

  lemma FairWhenPlentiful(c: Chance)
    requires Plentiful(c)
    ensures Fair(c)
  {
  }

  lemma AnswerKeepsInv(d: Device, q: M.ToolRequest, l: Link, session: nat, core: seq<Resource>)
    requires DeviceRuns.Inv(d) && Fair(l.chance)
    ensures DeviceRuns.Inv(Answer(d, q, l, session, core).0)
  {
    hide Granted, Step, AccessOf, PstatView, DoxmView, DeviceRuns.Inv;
    if q.Send? {
      DeviceRuns.StepKeepsInv(d, Received(q.request, session), core, l.chance);
    }
  }

  lemma StartKeeps(t: M.Tool, uuid: Uuid, e: M.Env)
    requires ObtRuns.Inv(t) && ObtRuns.Waiting(t)
    ensures ObtRuns.Inv(M.StartOtm(t, uuid, e).0) && ObtRuns.Waiting(M.StartOtm(t, uuid, e).0)
  {
    hide M.StartOtm, ObtRuns.Inv, ObtRuns.Waiting;
    ObtRuns.NextKeeps(t, M.BeginOtm(uuid), e);
  }

  lemma CompletedServes(end: System, t: M.Tool, o: M.Id, w: Setting)
    requires Completed(end, t, o, w) && DeviceRuns.Inv(end.device)
    ensures Serves(end.device, t.uuid)
  {
    hide DeviceRuns.Inv, SharedKey;
  }

  // A device that an undisturbed transfer took over serves its owner: everything above holds of it
  // and of the tool.
  lemma TakenOverServes(d: Device, t: M.Tool, uuid: Uuid, e: M.Env, u: M.Tool, o: M.Id, w: Setting)
    requires DeviceRuns.Inv(d) && ObtRuns.Inv(t) && ObtRuns.Waiting(t)
    requires Undisturbed(w) && t.uuid != NIL && M.StartOtm(t, uuid, e) == (u, Some(o))
    requires Granted(d, AccessOf(M.ToRfotm(), w.links(0)))
    ensures var end := Play(System(d, u), o + 1, EXCHANGES, w);
            Serves(end.device, t.uuid) && ObtRuns.Inv(end.tool) && ObtRuns.Waiting(end.tool)
  {
    hide DeviceRuns.Inv, ObtRuns.Inv, ObtRuns.Waiting, Undisturbed, Granted, Play, M.StartOtm, AllAccepted, Completed, Serves,
         AccessOf, M.ToRfotm;
    UndisturbedTransfer(d, t, uuid, e, u, o, w);
    StartKeeps(t, uuid, e);
    PlayKeepsInv(System(d, u), o + 1, EXCHANGES, w);
    CompletedServes(Play(System(d, u), o + 1, EXCHANGES, w), t, o, w);
  }

  // ----- hard reset

  function ResetStage(t: M.Tool, handle: M.Id, k: nat): M.Tool
    requires k < 2
  {
    var h := t.nextId;
    t.(switches := t.switches[h + 1 := M.SwitchCtx(handle, 0, M.HardReset(h))],
       resets := t.resets[h := M.ResetCtx(handle, Some(h + 1))], timers := t.timers + {h},
       outstanding := t.outstanding[h + 2 + k := M.Outstanding(if k == 0 then M.SwitchPosted else M.SwitchRead, h + 1,
                                                              if k == 0 then PostState(0) else M.GetPstat)],
       nextId := h + 3 + k)
  }

  lemma ResetStarts(t: M.Tool, uuid: Uuid, e: M.Env)
    ensures var (u, h) := M.StartReset(t, uuid, e);
            h.Some? ==> h.value == t.nextId && M.FindHandle(t, t.devices, uuid).Some?
                        && u == ResetStage(t, M.FindHandle(t, t.devices, uuid).value, 0)
  {
    hide M.FindHandle, HasCredFor;
  }

  lemma ResetStep(t: M.Tool, handle: M.Id, r: M.Response, e: M.Env)
    requires Fresh(t) && r.ok && e.sent
    ensures M.Deliver(ResetStage(t, handle, 0), t.nextId + 2, r, e) == ResetStage(t, handle, 1)
  {
    var h, u := t.nextId, ResetStage(t, handle, 0);
    MapBack(t.outstanding, h + 2, u.outstanding[h + 2]);
    hide M.ParseDos, M.FreeSwitch, M.AceSent, M.JustWorks;
  }

  // The tool gives up the device and its credential.
  lemma ResetEnds(t: M.Tool, handle: M.Id, r: M.Response, e: M.Env)
    requires Fresh(t) && r.ok && (M.ParseDos(0, r.payload) == 0 || M.ParseDos(0, r.payload) == 1)
    ensures M.Deliver(ResetStage(t, handle, 1), t.nextId + 3, r, e)
         == t.(reports := t.reports + [M.Report(t.nextId, 0)], nextId := t.nextId + 4,
               creds := RemoveFirst(t.creds, BySubject(M.UuidOf(t, handle))),
               cache := M.Without(t.cache, handle), devices := M.Without(t.devices, handle))
  {
    hide M.ParseDos, M.AceSent, M.JustWorks, M.FreeSwitch, M.Without, RemoveFirst, M.UuidOf;
    var h, u := t.nextId, ResetStage(t, handle, 1);
    MapBack(t.outstanding, h + 3, u.outstanding[h + 3]);
    var v := u.(outstanding := t.outstanding);
    assert M.Deliver(u, h + 3, r, e) == M.FreeSwitch(v, h + 1, 0, e);
    ResetOverIs(t, v, handle, e);
  }

  lemma ResetOverIs(t: M.Tool, v: M.Tool, handle: M.Id, e: M.Env)
    requires Fresh(t) && v == ResetStage(t, handle, 1).(outstanding := t.outstanding)
    ensures M.FreeSwitch(v, t.nextId + 1, 0, e)
         == t.(reports := t.reports + [M.Report(t.nextId, 0)], nextId := t.nextId + 4,
               creds := RemoveFirst(t.creds, BySubject(M.UuidOf(t, handle))),
               cache := M.Without(t.cache, handle), devices := M.Without(t.devices, handle))
  {
    var h := t.nextId;
    MapBack(t.switches, h + 1, v.switches[h + 1]);
    MapBack(t.resets, h, M.ResetCtx(handle, None));
    assert t.resets[h := v.resets[h]][h := M.ResetCtx(handle, None)] == t.resets[h := M.ResetCtx(handle, None)];
    assert t.timers + {h} - {h} == t.timers;
    hide M.Without, RemoveFirst;
  }

  // The answers of a device whose first request was granted: it is reset, and says so to anybody.
  lemma ResetAnswered(d: Device, w: Setting)
    requires DeviceRuns.Inv(d) && Undisturbed(w) && Granted(d, AccessOf(PostState(0), w.links(0)))
    ensures var (after, r) := Answer(d, PostState(0), w.links(0), w.session, w.core);
            var (same, s) := Answer(after, M.GetPstat, w.links(1), w.session, w.core);
            && after == Reached(d, 0, w.core, w.links(0).chance) && r.ok
            && same == after && s.ok && M.ParseDos(0, s.payload) == 1
  {
    StateChanges(d, 0, w.core, w.links(0).chance);
    assert Plentiful(w.links(0).chance);
    var after := Reached(d, 0, w.core, w.links(0).chance);
    assert w.core[..|w.core|] == w.core;
    DefaultLayout(w.core, |w.core|, w.links(0).chance);
    PstatViewTells(after);
    hide DeviceRuns.Inv, Undisturbed, Granted, Step, PstatView, M.ParseDos, Layout, SecurityEntries, DefaultAces, Plentiful, CoreTable;
    LayoutOpens(after, 4, OCF_SEC_PSTAT, AccessOf(M.GetPstat, w.links(1)));
  }

  // Request q of a run is r, and it is granted and carried out.
  predicate Carried(s: System, q: M.Id, r: M.ToolRequest, n: nat, w: Setting) {
    && q in s.tool.outstanding && s.tool.outstanding[q].request == r
    && Answer(s.device, r, w.links(n), w.session, w.core).1.ok
  }

  // The tool when the device said that it is reset.
  function AfterReset(t: M.Tool, handle: M.Id, uuid: Uuid): M.Tool {
    t.(reports := t.reports + [M.Report(t.nextId, 0)], nextId := t.nextId + 4,
       creds := RemoveFirst(t.creds, BySubject(uuid)),
       cache := M.Without(t.cache, handle), devices := M.Without(t.devices, handle))
  }

  lemma ResetRequests(t: M.Tool, handle: M.Id)
    ensures t.nextId + 2 in ResetStage(t, handle, 0).outstanding
    ensures ResetStage(t, handle, 0).outstanding[t.nextId + 2].request == PostState(0)
    ensures t.nextId + 3 in ResetStage(t, handle, 1).outstanding
    ensures ResetStage(t, handle, 1).outstanding[t.nextId + 3].request == M.GetPstat
  {
  }

  lemma PlayOn(s: System, q: M.Id, n: nat, w: Setting)
    requires q + n in Play(s, q, n, w).tool.outstanding
    ensures var before := Play(s, q, n, w);
            var (after, r) := Answer(before.device, before.tool.outstanding[q + n].request, w.links(n), w.session, w.core);
            Play(s, q, n + 1, w) == System(after, M.Deliver(before.tool, q + n, r, w.envs(n)))
  {
    hide Answer, M.Deliver;
  }

  lemma IsSent(w: Setting)
    requires Undisturbed(w)
    ensures w.envs(0).sent
  {
  }

  // Where the device and the tool are when the first request is answered.
  lemma ResetPosted(d: Device, t: M.Tool, handle: M.Id, w: Setting)
    requires DeviceRuns.Inv(d) && Undisturbed(w) && Granted(d, AccessOf(PostState(0), w.links(0))) && Fresh(t)
    ensures var (s, q) := (System(d, ResetStage(t, handle, 0)), t.nextId + 2);
            && Carried(s, q, PostState(0), 0, w)
            && Play(s, q, 1, w) == System(Reached(d, 0, w.core, w.links(0).chance), ResetStage(t, handle, 1))
  {
    hide Answer, M.Deliver, ResetStage, PostState, Reached, DeviceRuns.Inv, Granted, Fresh, AccessOf, M.ParseDos;
    IsSent(w);
    ResetAnswered(d, w);
    ResetRequests(t, handle);
    hide Undisturbed;
    var s := System(d, ResetStage(t, handle, 0));
    assert Play(s, t.nextId + 2, 0, w) == s;
    PlayOn(s, t.nextId + 2, 0, w);
    ResetStep(t, handle, Answer(d, PostState(0), w.links(0), w.session, w.core).1, w.envs(0));
    hide Play;
  }

  lemma ResetRead(s: System, d: Device, t: M.Tool, handle: M.Id, w: Setting)
    requires DeviceRuns.Inv(d) && Undisturbed(w) && Granted(d, AccessOf(PostState(0), w.links(0))) && Fresh(t)
    requires Play(s, t.nextId + 2, 1, w) == System(Reached(d, 0, w.core, w.links(0).chance), ResetStage(t, handle, 1))
    ensures Carried(Play(s, t.nextId + 2, 1, w), t.nextId + 3, M.GetPstat, 1, w)
    ensures Play(s, t.nextId + 2, 2, w)
         == System(Reached(d, 0, w.core, w.links(0).chance), AfterReset(t, handle, M.UuidOf(t, handle)))
  {
    hide Answer, M.Deliver, ResetStage, PostState, Reached, DeviceRuns.Inv, Granted, Fresh, AccessOf, M.ParseDos, Play,
         Undisturbed, M.Without, M.UuidOf, RemoveFirst;
    ResetAnswered(d, w);
    ResetRequests(t, handle);
    var after := Reached(d, 0, w.core, w.links(0).chance);
    PlayOn(s, t.nextId + 2, 1, w);
    ResetEnds(t, handle, Answer(after, M.GetPstat, w.links(1), w.session, w.core).1, w.envs(1));
  }

  lemma HandleIsOf(t: M.Tool, uuid: Uuid)
    requires M.FindHandle(t, t.devices, uuid).Some?
    ensures M.UuidOf(t, M.FindHandle(t, t.devices, uuid).value) == uuid
  {
    ObtKeys.FindHandleFinds(t, t.devices, uuid);
  }

  // A hard reset of any device that lets the first request through: both requests are granted and carried
  // out, the device is as after a reset, the tool reports success once and gives up the device with its
  // credential.
  lemma HardResetSucceeds(d: Device, t: M.Tool, uuid: Uuid, e: M.Env, u: M.Tool, h: M.Id, w: Setting)
    requires DeviceRuns.Inv(d) && Undisturbed(w) && Granted(d, AccessOf(PostState(0), w.links(0)))
    requires ObtRuns.Inv(t) && ObtRuns.Waiting(t) && M.StartReset(t, uuid, e) == (u, Some(h))
    ensures var (s, handle) := (System(d, u), M.FindHandle(t, t.devices, uuid));
            && Carried(s, h + 2, PostState(0), 0, w) && Carried(Play(s, h + 2, 1, w), h + 3, M.GetPstat, 1, w)
            && handle.Some?
            && Play(s, h + 2, 2, w) == System(Reached(d, 0, w.core, w.links(0).chance), AfterReset(t, handle.value, uuid))
  {
    hide *;
    InvIsFresh(t);
    ResetStarts(t, uuid, e);
    var handle := M.FindHandle(t, t.devices, uuid).value;
    HandleIsOf(t, uuid);
    ResetPosted(d, t, handle, w);
    ResetRead(System(d, u), d, t, handle, w);
  }
}
