/** The onboarding tool (security/oc_obt.c): ownership transfer, hard reset and
    access control provisioning as functions on the tool's state. */
module ObtModel {
  import opened Payload
  import opened AclModel
  import opened CredModel
  import opened DeviceModel

  // Contexts and device handles are named by numbers that are never used again.
  type Id = nat

  // Response handlers, one for each request the tool can have outstanding.
  datatype Handler =
    | Jw2 | Jw3 | Jw4 | Jw5 | Jw6 | Jw7 | Jw8 | Jw9 | Jw10 | Jw11 | Jw12 | Jw13
    | SwitchPosted | SwitchRead | AclPosted

  datatype ToolRequest = GetPstat | GetDoxm | Send(request: Request)

  datatype Outstanding = Outstanding(handler: Handler, ctx: Id, request: ToolRequest)

  datatype Response = Response(ok: bool, payload: seq<Prop<()>>)

  datatype OtmCtx = OtmCtx(handle: Id)

  // Who is told when a state switch is over.
  datatype SwitchCb = HardReset(ctx: Id) | ProvisionAce(ctx: Id) | ProvisionDone(ctx: Id)

  datatype SwitchCtx = SwitchCtx(handle: Id, dos: int, cb: SwitchCb)

  datatype ResetCtx = ResetCtx(handle: Id, switch: Option<Id>)

  datatype ProvCtx = ProvCtx(handle: Id, ace: AceEntry, switch: Option<Id>)

  // A completion callback that was invoked.
  datatype Report = Report(ctx: Id, status: int)

  datatype Tool = Tool(
    uuid: Uuid,
    creds: seq<Cred>,
    handles: map<Id, Uuid>,
    cache: seq<Id>,
    devices: seq<Id>,
    otms: map<Id, OtmCtx>,
    switches: map<Id, SwitchCtx>,
    resets: map<Id, ResetCtx>,
    provs: map<Id, ProvCtx>,
    timers: set<Id>,
    outstanding: map<Id, Outstanding>,
    reports: seq<Report>,
    nextId: Id,
    nextCredid: int)

  // How the surroundings treat one event: may a request be sent, is there memory for
  // contexts and credentials, which TLS session is up, what an unset UUID variable holds.
  datatype Env = Env(sent: bool, room: bool, session: Option<nat>, stale: Uuid)

  // A tool that has just been initialised: nothing is running and nothing was reported.
  predicate Idle(t: Tool) {
    t.otms == map[] && t.switches == map[] && t.resets == map[] && t.provs == map[] && t.timers == {}
    && t.outstanding == map[] && t.reports == [] && t.handles == map[] && t.cache == [] && t.devices == []
  }

  // ----- requests of the transfer

  function ToRfotm(): ToolRequest { SwitchTo(RESET) }

  function SwitchTo(s: int): ToolRequest {
    Send(PstatPost([Prop("dos", Object([IntMember("s", s)]))]))
  }

  function TakeDoxm(me: Uuid): ToolRequest {
    Send(DoxmPost([Prop("oxmsel", Integer(0)), Prop("rowneruuid", Text(me)), Prop("devowneruuid", Text(me))]))
  }

  function TakeAcl(me: Uuid): ToolRequest {
    Send(AclPost([Prop("rowneruuid", Text(me))]))
  }

  function TakeCred(me: Uuid, session: Option<nat>): ToolRequest {
    Send(CredPost([Prop("creds", ObjectArray([Entry(-1, CREDTYPE_PSK, Some(me), Raw, [], None, None)])),
                   Prop("rowneruuid", Text(me))], session))
  }

  function TakePstat(me: Uuid): ToolRequest {
    Send(PstatPost([Prop("rowneruuid", Text(me))]))
  }

  function SetOwned(): ToolRequest {
    Send(DoxmPost([Prop("owned", Boolean(true))]))
  }

  // ----- reading responses

  function LastDos(s: int, members: seq<Member>): int
    decreases |members|
  {
    if members == [] then s
    else LastDos(if members[0].IntMember? && members[0].name == "s" then members[0].integer else s, members[1..])
  }

  // The device state in a response; 0 when there is none.
  function ParseDos(s: int, rep: seq<Prop<()>>): int
    decreases |rep|
  {
    if rep == [] then s
    else ParseDos(if rep[0].value.Object? && rep[0].name == "dos" then LastDos(s, rep[0].value.members) else s, rep[1..])
  }

  function ParseDeviceUuid(u: Uuid, rep: seq<Prop<()>>): Uuid
    decreases |rep|
  {
    if rep == [] then u
    else ParseDeviceUuid(if rep[0].value.Text? && rep[0].name == "deviceuuid" then rep[0].value.uuid else u, rep[1..])
  }

  // ----- shared pieces

  function Without(s: seq<Id>, x: Id): seq<Id> {
    if s == [] then [] else if s[0] == x then s[1..] else [s[0]] + Without(s[1..], x)
  }

  // The first handle on a list with the given UUID.
  function FindHandle(t: Tool, list: seq<Id>, uuid: Uuid): Option<Id> {
    if list == [] then None
    else if list[0] in t.handles && t.handles[list[0]] == uuid then Some(list[0])
    else FindHandle(t, list[1..], uuid)
  }

  function UuidOf(t: Tool, handle: Id): Uuid {
    if handle in t.handles then t.handles[handle] else NIL
  }

  function FreeDevice(t: Tool, handle: Id): Tool {
    t.(cache := Without(t.cache, handle), devices := Without(t.devices, handle))
  }

  function Post(t: Tool, handler: Handler, ctx: Id, request: ToolRequest): Tool {
    t.(outstanding := t.outstanding[t.nextId := Outstanding(handler, ctx, request)], nextId := t.nextId + 1)
  }

  // ----- ownership transfer

  // Ends transfer o and tells its owner.
  function FreeOtm(t: Tool, o: Id, status: int): Tool
    requires o in t.otms
  {
    var handle := t.otms[o].handle;
    var told := t.(reports := t.reports + [Report(o, status)], timers := t.timers - {o}, otms := t.otms - {o});
    if status == -1 then FreeDevice(told.(creds := RemoveFirst(t.creds, BySubject(UuidOf(t, handle)))), handle)
    else told.(cache := Without(t.cache, handle), devices := t.devices + [handle])
  }

  function Continue(t: Tool, e: Env, handler: Handler, o: Id, request: ToolRequest): Tool
    requires o in t.otms
  {
    if e.sent then Post(t, handler, o, request) else FreeOtm(t, o, -1)
  }

  // Step 5: the device has told its new, final UUID.
  function LearnUuid(t: Tool, o: Id, e: Env, r: Response): Tool
    requires o in t.otms
  {
    t.(handles := t.handles[t.otms[o].handle := ParseDeviceUuid(e.stale, r.payload)])
  }

  // Step 6: the tool's own half of the owner credential.
  function OwnerCred(t: Tool, o: Id, session: nat): Cred
    requires o in t.otms
  {
    var u := UuidOf(t, t.otms[o].handle);
    Cred(t.nextCredid + 1, CREDTYPE_PSK, u, Derived(KdfArgs(session, OXM_JUST_WORKS, u, t.uuid)), "", "")
  }

  function PairWithDevice(t: Tool, o: Id, e: Env): Tool
    requires o in t.otms
  {
    if !e.room then FreeOtm(t, o, -1)
    else if e.session.None? then
      FreeOtm(t.(creds := t.creds + [Cred(0, CREDTYPE_PSK, UuidOf(t, t.otms[o].handle), Unset, "", "")]), o, -1)
    else
      var paired := t.(creds := t.creds + [OwnerCred(t, o, e.session.value)], nextCredid := t.nextCredid + 1);
      Continue(paired, e, Jw7, o, TakeCred(t.uuid, e.session))
  }

  function JustWorks(t: Tool, h: Handler, o: Id, r: Response, e: Env): Tool {
    if o !in t.otms then t
    else if !r.ok then FreeOtm(t, o, -1)
    else match h
      case Jw2 => Continue(t, e, Jw3, o, GetPstat)
      case Jw3 => if ParseDos(0, r.payload) == RFOTM then Continue(t, e, Jw4, o, TakeDoxm(t.uuid)) else FreeOtm(t, o, -1)
      case Jw4 => Continue(t, e, Jw5, o, GetDoxm)
      case Jw5 => Continue(LearnUuid(t, o, e, r), e, Jw6, o, TakeAcl(t.uuid))
      case Jw6 => PairWithDevice(t, o, e)
      case Jw7 => Continue(t, e, Jw8, o, TakePstat(t.uuid))
      case Jw8 => Continue(t, e, Jw9, o, SetOwned())
      case Jw9 => Continue(t, e, Jw10, o, SwitchTo(RFPRO))
      case Jw10 => Continue(t, e, Jw11, o, GetPstat)
      case Jw11 => if ParseDos(0, r.payload) == RFPRO then Continue(t, e, Jw12, o, SwitchTo(RFNOP)) else FreeOtm(t, o, -1)
      case Jw12 => Continue(t, e, Jw13, o, GetPstat)
      case Jw13 => FreeOtm(t, o, if ParseDos(0, r.payload) == RFNOP then 0 else -1)
      case _ => t
  }

  // The result of a start is the context, or None when the call returns -1.
  function StartOtm(t: Tool, uuid: Uuid, e: Env): (Tool, Option<Id>) {
    var handle := FindHandle(t, t.cache, uuid);
    if HasCredFor(t.creds, uuid) || handle.None? || !e.room || !e.sent then (t, None)
    else
      var o := t.nextId;
      (Post(t.(otms := t.otms[o := OtmCtx(handle.value)], timers := t.timers + {o}, nextId := o + 1),
            Jw2, o, ToRfotm()), Some(o))
  }

  // ----- switching a device's state

  function StartSwitch(t: Tool, handle: Id, dos: int, cb: SwitchCb, e: Env): (Tool, Option<Id>) {
    if !e.room || !e.sent then (t, None)
    else
      var d := t.nextId;
      (Post(t.(switches := t.switches[d := SwitchCtx(handle, dos, cb)], nextId := d + 1), SwitchPosted, d, SwitchTo(dos)),
       Some(d))
  }

  function DropSwitch(t: Tool, d: Option<Id>): Tool {
    if d.Some? then t.(switches := t.switches - {d.value}) else t
  }

  // Ends switch d and runs its callback.
  function FreeSwitch(t: Tool, d: Id, status: int, e: Env): Tool
    requires d in t.switches
  {
    var cb := t.switches[d].cb;
    var u := t.(switches := t.switches - {d});
    match cb
    case HardReset(h) => HardResetDone(u, h, status)
    case ProvisionAce(p) => SendAce(u, p, status, e)
    case ProvisionDone(p) => ProvisionOver(u, p, status)
  }

  function SwitchResponse(t: Tool, h: Handler, d: Id, r: Response, e: Env): Tool {
    if d !in t.switches then t
    else if !r.ok then FreeSwitch(t, d, -1, e)
    else if h == SwitchPosted then
      if e.sent then Post(t, SwitchRead, d, GetPstat) else FreeSwitch(t, d, -1, e)
    else
      var s, want := ParseDos(0, r.payload), t.switches[d].dos;
      FreeSwitch(t, d, if s == want || (want == RESET && s == RFOTM) then 0 else -1, e)
  }

  // ----- hard reset

  function FreeReset(t: Tool, h: Id, status: int): Tool
    requires h in t.resets
  {
    var x := t.resets[h];
    var told := t.(reports := t.reports + [Report(h, if status == 0 then 0 else -1)], timers := t.timers - {h},
                   creds := if status == 0 then RemoveFirst(t.creds, BySubject(UuidOf(t, x.handle))) else t.creds,
                   resets := t.resets - {h});
    DropSwitch(FreeDevice(told, x.handle), x.switch)
  }

  // The source dereferences the context without looking it up.
  function HardResetDone(t: Tool, h: Id, status: int): Tool {
    if h in t.resets then FreeReset(t.(resets := t.resets[h := t.resets[h].(switch := None)]), h, status) else t
  }

  function StartReset(t: Tool, uuid: Uuid, e: Env): (Tool, Option<Id>) {
    var handle := FindHandle(t, t.devices, uuid);
    if !e.room || !HasCredFor(t.creds, uuid) || handle.None? then (t, None)
    else
      var h := t.nextId;
      var (u, d) := StartSwitch(t.(nextId := h + 1), handle.value, RESET, HardReset(h), e);
      if d.None? then (u, None)
      else (u.(resets := u.resets[h := ResetCtx(handle.value, d)], timers := u.timers + {h}), Some(h))
  }

  // ----- access control provisioning

  function FreeProv(t: Tool, p: Id, status: int): Tool
    requires p in t.provs
  {
    DropSwitch(t.(reports := t.reports + [Report(p, status)], timers := t.timers - {p}, provs := t.provs - {p}),
               t.provs[p].switch)
  }

  function AceRequest(ace: AceEntry): ToolRequest {
    Send(AclPost([Prop("aclist2", ObjectArray([ace]))]))
  }

  function Released(t: Tool, p: Id): Tool
    requires p in t.provs
  {
    t.(provs := t.provs[p := t.provs[p].(switch := None)])
  }

  function SendAce(t: Tool, p: Id, status: int, e: Env): Tool {
    if p !in t.provs then t
    else
      var u := Released(t, p);
      if status >= 0 && e.sent then Post(u, AclPosted, p, AceRequest(t.provs[p].ace)) else FreeProv(u, p, -1)
  }

  function AceSent(t: Tool, p: Id, r: Response, e: Env): Tool {
    if p !in t.provs then t
    else if !r.ok then FreeProv(t, p, -1)
    else
      var (u, d) := StartSwitch(t, t.provs[p].handle, RFNOP, ProvisionDone(p), e);
      if d.None? then FreeProv(Released(u, p), p, -1)
      else u.(provs := u.provs[p := u.provs[p].(switch := d)])
  }

  function ProvisionOver(t: Tool, p: Id, status: int): Tool {
    if p !in t.provs then t else FreeProv(Released(t, p), p, if status >= 0 then 0 else -1)
  }

  function StartProvision(t: Tool, uuid: Uuid, ace: AceEntry, e: Env): (Tool, Option<Id>) {
    var handle := FindHandle(t, t.devices, uuid);
    if !e.room || !HasCredFor(t.creds, uuid) || handle.None? then (t, None)
    else
      var p := t.nextId;
      var (u, d) := StartSwitch(t.(nextId := p + 1), handle.value, RFPRO, ProvisionAce(p), e);
      if d.None? then (u, None)
      else (u.(provs := u.provs[p := ProvCtx(handle.value, ace, d)], timers := u.timers + {p}), Some(p))
  }

  // ----- events

  datatype Event =
    | BeginOtm(uuid: Uuid)
    | BeginReset(uuid: Uuid)
    | BeginProvision(uuid: Uuid, ace: AceEntry)
    | Respond(request: Id, response: Response)
    | Fire(ctx: Id)
    | Discover(uuid: Uuid, owned: bool)

  // A response is delivered to the handler of its request, once.
  function Deliver(t: Tool, q: Id, r: Response, e: Env): Tool {
    if q !in t.outstanding then t
    else
      var x := t.outstanding[q];
      var u := t.(outstanding := t.outstanding - {q});
      if x.handler == SwitchPosted || x.handler == SwitchRead then SwitchResponse(u, x.handler, x.ctx, r, e)
      else if x.handler == AclPosted then AceSent(u, x.ctx, r, e)
      else JustWorks(u, x.handler, x.ctx, r, e)
  }

  // A pending timeout runs the timeout callback of its context.
  function Timeout(t: Tool, x: Id): Tool {
    if x !in t.timers then t
    else if x in t.otms then FreeOtm(t, x, -1)
    else if x in t.resets then FreeReset(t, x, -1)
    else if x in t.provs then FreeProv(t, x, -1)
    else t
  }

  // A device seen in discovery gets a handle on the list it belongs to. One that is known gets a
  // new endpoint; without memory for that it is dropped.
  function Found(t: Tool, uuid: Uuid, owned: bool, e: Env): Tool {
    var list := if owned then t.devices else t.cache;
    var handle := FindHandle(t, list, uuid);
    if uuid == t.uuid || (owned && !HasCredFor(t.creds, uuid)) || e.room == handle.Some? then t
    else if handle.Some? then
      if owned then t.(devices := Without(list, handle.value)) else t.(cache := Without(list, handle.value))
    else
      var u := t.(handles := t.handles[t.nextId := uuid], nextId := t.nextId + 1);
      if owned then u.(devices := list + [t.nextId]) else u.(cache := list + [t.nextId])
  }

  function Next(t: Tool, ev: Event, e: Env): Tool {
    match ev
    case BeginOtm(uuid) => StartOtm(t, uuid, e).0
    case BeginReset(uuid) => StartReset(t, uuid, e).0
    case BeginProvision(uuid, ace) => StartProvision(t, uuid, ace, e).0
    case Respond(q, r) => Deliver(t, q, r, e)
    case Fire(x) => Timeout(t, x)
    case Discover(uuid, owned) => Found(t, uuid, owned, e)
  }

  function Run(t: Tool, evs: seq<(Event, Env)>): Tool
    decreases |evs|
  {
    if evs == [] then t
    else
      var last := evs[|evs| - 1];
      Next(Run(t, evs[..|evs| - 1]), last.0, last.1)
  }
}
