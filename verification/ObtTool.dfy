/** The onboarding tool as it runs: one method for each callback of security/oc_obt.c,
    over lists and contexts that are changed in place. Each method is tied to the
    function of ObtModel that specifies it. */
module ObtTool {
  import opened Payload
  import opened AclModel
  import opened CredModel
  import opened DeviceModel
  import opened ObtModel
  import opened Lists
  import ObtHandles
  import ObtKeys
  import ObtRuns

  // ----- what the loops rely on

  lemma ReadsUuid(u: Uuid, rep: seq<Prop<()>>)
    ensures rep == [] ==> ParseDeviceUuid(u, rep) == u
    ensures rep != [] ==> (
              ParseDeviceUuid(u, rep) ==
              ParseDeviceUuid(if rep[0].value.Text? && rep[0].name == "deviceuuid" then rep[0].value.uuid else u, rep[1..]))
  {
  }

  lemma OwnerCredIs(t: Tool, o: Id, session: nat)
    requires o in t.otms
    ensures var u := UuidOf(t, t.otms[o].handle);
            OwnerCred(t, o, session) ==
            Cred(t.nextCredid + 1, CREDTYPE_PSK, u, Derived(KdfArgs(session, OXM_JUST_WORKS, u, t.uuid)), "", "")
  {
  }

  lemma {:induction false} WithoutAt(s: seq<Id>, x: Id, k: nat)
    requires k <= |s| && (forall j :: 0 <= j < k ==> s[j] != x) && (k < |s| ==> s[k] == x)
    ensures Without(s, x) == if k < |s| then s[..k] + s[k + 1..] else s
  {
    if s != [] && k > 0 {
      WithoutAt(s[1..], x, k - 1);
    }
  }

  // What every event keeps: counting, links and waiting, and, when nothing is started on a device
  // that is in the way, each running context's device.
  lemma EventKeeps(t: Tool, ev: Event, e: Env)
    ensures var u := Next(t, ev, e);
            && (ObtRuns.Inv(t) && ObtRuns.Waiting(t) ==>
                  ObtRuns.Inv(u) && ObtRuns.Waiting(u) && ObtRuns.Accounts(t, u))
            && (ObtHandles.Home(t) && ObtHandles.Unshared(t, ev, e) ==> ObtHandles.Home(u))
  {
    hide *;
    if ObtRuns.Inv(t) && ObtRuns.Waiting(t) {
      ObtRuns.NextKeeps(t, ev, e);
    }
    if ObtHandles.Home(t) && ObtHandles.Unshared(t, ev, e) {
      ObtHandles.NextStaysHome(t, ev, e);
    }
  }

  class ObtTool {
    const uuid: Uuid
    var creds: seq<Cred>
    var handles: map<Id, Uuid>
    var cache: seq<Id>
    var devices: seq<Id>
    var otms: map<Id, OtmCtx>
    var switches: map<Id, SwitchCtx>
    var resets: map<Id, ResetCtx>
    var provs: map<Id, ProvCtx>
    var timers: set<Id>
    var outstanding: map<Id, Outstanding>
    var reports: seq<Report>
    var nextId: Id
    var nextCredid: int

    function State(): Tool
      reads this
    {
      Tool(uuid, creds, handles, cache, devices, otms, switches, resets, provs, timers, outstanding, reports,
           nextId, nextCredid)
    }

    constructor (uuid: Uuid, creds: seq<Cred>, nextCredid: int)
      ensures State() == Tool(uuid, creds, map[], [], [], map[], map[], map[], map[], {}, map[], [], 0, nextCredid)
      ensures ObtRuns.Inv(State()) && ObtRuns.Waiting(State()) && ObtHandles.Home(State())
    {
      this.uuid, this.creds, this.nextCredid := uuid, creds, nextCredid;
      handles, cache, devices := map[], [], [];
      otms, switches, resets, provs, timers := map[], map[], map[], map[], {};
      outstanding, reports, nextId := map[], [], 0;
      new;
      ObtKeys.IdleIsFine(State());
    }

    // ----- utilities

    method ReadDos(rep: seq<Prop<()>>) returns (s: int)
      ensures s == ParseDos(0, rep)
    {
      s := 0;
      Ends(rep);
      for i := 0 to |rep|
        invariant ParseDos(0, rep) == ParseDos(s, rep[i..])
      {
        OneMore(rep, i);
        if rep[i].value.Object? && rep[i].name == "dos" {
          var members := rep[i].value.members;
          ghost var before := s;
          Ends(members);
          for j := 0 to |members|
            invariant LastDos(before, members) == LastDos(s, members[j..])
          {
            OneMore(members, j);
            if members[j].IntMember? && members[j].name == "s" {
              s := members[j].integer;
            }
          }
        }
      }
    }

    method GetDeviceHandle(device: Uuid, list: seq<Id>) returns (handle: Option<Id>)
      ensures handle == FindHandle(State(), list, device)
    {
      Ends(list);
      for i := 0 to |list|
        invariant FindHandle(State(), list, device) == FindHandle(State(), list[i..], device)
      {
        OneMore(list, i);
        if list[i] in handles && handles[list[i]] == device {
          return Some(list[i]);
        }
      }
      handle := None;
    }

    method OwnedDevice(device: Uuid) returns (owned: bool)
      ensures owned <==> HasCredFor(creds, device)
    {
      for i := 0 to |creds|
        invariant forall j :: 0 <= j < i ==> creds[j].subject != device
      {
        if creds[i].subject == device {
          return true;
        }
      }
      owned := false;
    }

    method RemoveCredOf(device: Uuid)
      modifies `creds
      ensures creds == RemoveFirst(old(creds), BySubject(device))
    {
      var k := 0;
      while k < |creds| && creds[k].subject != device
        invariant creds == old(creds) && k <= |creds| && forall j :: 0 <= j < k ==> creds[j].subject != device
      {
        k := k + 1;
      }
      if k < |creds| {
        creds := RemoveAt(creds, k);
      }
    }

    method ListRemove(list: seq<Id>, x: Id) returns (rest: seq<Id>)
      ensures rest == Without(list, x)
    {
      var k := 0;
      while k < |list| && list[k] != x
        invariant k <= |list| && forall j :: 0 <= j < k ==> list[j] != x
      {
        k := k + 1;
      }
      WithoutAt(list, x, k);
      rest := if k < |list| then list[..k] + list[k + 1..] else list;
    }

    method SendRequest(handler: Handler, ctx: Id, request: ToolRequest)
      modifies this
      ensures State() == Post(old(State()), handler, ctx, request)
    {
      outstanding := outstanding[nextId := Outstanding(handler, ctx, request)];
      nextId := nextId + 1;
    }

    method ForgetDevice(handle: Id)
      modifies this
      ensures State() == FreeDevice(old(State()), handle)
    {
      hide Without;
      cache := ListRemove(cache, handle);
      devices := ListRemove(devices, handle);
    }

    // ----- ownership transfer

    method FreeOtmState(o: Id, status: int)
      requires o in otms
      modifies this
      ensures State() == FreeOtm(old(State()), o, status).(timers := old(timers))
    {
      hide Without, RemoveFirst;
      var handle := otms[o].handle;
      if status == -1 {
        RemoveCredOf(UuidOf(State(), handle));
        reports := reports + [Report(o, status)];
        ForgetDevice(handle);
      } else {
        reports := reports + [Report(o, status)];
        cache := ListRemove(cache, handle);
        devices := devices + [handle];
      }
      otms := otms - {o};
    }

    method FreeOtmCtx(o: Id, status: int)
      requires o in otms
      modifies this
      ensures State() == FreeOtm(old(State()), o, status)
    {
      hide Without, RemoveFirst;
      timers := timers - {o};
      FreeOtmState(o, status);
    }

    // The common end of the callbacks: send the next request, or give up.
    method GoOn(e: Env, handler: Handler, o: Id, request: ToolRequest)
      requires o in otms
      modifies this
      ensures State() == Continue(old(State()), e, handler, o, request)
    {
      hide FreeOtm, Post;
      if e.sent {
        SendRequest(handler, o, request);
      } else {
        FreeOtmCtx(o, -1);
      }
    }

    method ObtJw2(o: Id, r: Response, e: Env)
      modifies this
      ensures State() == JustWorks(old(State()), Jw2, o, r, e)
    {
      hide FreeOtm, ParseDos, ParseDeviceUuid, OwnerCred;
      if o in otms {
        if !r.ok {
          FreeOtmCtx(o, -1);
        } else {
          GoOn(e, Jw3, o, GetPstat);
        }
      }
    }

    method ObtJw3(o: Id, r: Response, e: Env)
      modifies this
      ensures State() == JustWorks(old(State()), Jw3, o, r, e)
    {
      hide FreeOtm, ParseDos, ParseDeviceUuid, OwnerCred;
      if o in otms {
        if !r.ok {
          FreeOtmCtx(o, -1);
        } else {
          var s := ReadDos(r.payload);
          if s == RFOTM {
            GoOn(e, Jw4, o, TakeDoxm(uuid));
          } else {
            FreeOtmCtx(o, -1);
          }
        }
      }
    }

    method ObtJw4(o: Id, r: Response, e: Env)
      modifies this
      ensures State() == JustWorks(old(State()), Jw4, o, r, e)
    {
      hide FreeOtm, ParseDos, ParseDeviceUuid, OwnerCred;
      if o in otms {
        if !r.ok {
          FreeOtmCtx(o, -1);
        } else {
          GoOn(e, Jw5, o, GetDoxm);
        }
      }
    }

    method ObtJw5(o: Id, r: Response, e: Env)
      modifies this
      ensures State() == JustWorks(old(State()), Jw5, o, r, e)
    {
      hide FreeOtm, ParseDos, ParseDeviceUuid, OwnerCred;
      if o in otms {
        if !r.ok {
          FreeOtmCtx(o, -1);
        } else {
          var peer := e.stale;
          var rep := r.payload;
          Ends(rep);
          for i := 0 to |rep|
            modifies {}
            invariant ParseDeviceUuid(e.stale, rep) == ParseDeviceUuid(peer, rep[i..])
          {
            OneMore(rep, i);
            ReadsUuid(peer, rep[i..]);
            if rep[i].value.Text? && rep[i].name == "deviceuuid" {
              peer := rep[i].value.uuid;
            }
          }
          ReadsUuid(peer, []);
          handles := handles[otms[o].handle := peer];
          GoOn(e, Jw6, o, TakeAcl(uuid));
        }
      }
    }

    method ObtJw6(o: Id, r: Response, e: Env)
      modifies this
      ensures State() == JustWorks(old(State()), Jw6, o, r, e)
    {
      hide FreeOtm, ParseDos, ParseDeviceUuid, OwnerCred;
      if o in otms {
        if !r.ok {
          FreeOtmCtx(o, -1);
        } else if !e.room {
          FreeOtmCtx(o, -1);
        } else {
          var device := UuidOf(State(), otms[o].handle);
          var c := Cred(0, CREDTYPE_PSK, device, Unset, "", "");
          if e.session.None? {
            creds := creds + [c];
            FreeOtmCtx(o, -1);
          } else {
            c := c.(secret := Derived(KdfArgs(e.session.value, OXM_JUST_WORKS, device, uuid)), credid := nextCredid + 1);
            nextCredid := nextCredid + 1;
            creds := creds + [c];
            OwnerCredIs(old(State()), o, e.session.value);
            GoOn(e, Jw7, o, TakeCred(uuid, e.session));
          }
        }
      }
    }

    method ObtJw7(o: Id, r: Response, e: Env)
      modifies this
      ensures State() == JustWorks(old(State()), Jw7, o, r, e)
    {
      hide FreeOtm, ParseDos, ParseDeviceUuid, OwnerCred;
      if o in otms {
        if !r.ok {
          FreeOtmCtx(o, -1);
        } else {
          GoOn(e, Jw8, o, TakePstat(uuid));
        }
      }
    }

    method ObtJw8(o: Id, r: Response, e: Env)
      modifies this
      ensures State() == JustWorks(old(State()), Jw8, o, r, e)
    {
      hide FreeOtm, ParseDos, ParseDeviceUuid, OwnerCred;
      if o in otms {
        if !r.ok {
          FreeOtmCtx(o, -1);
        } else {
          GoOn(e, Jw9, o, SetOwned());
        }
      }
    }

    method ObtJw9(o: Id, r: Response, e: Env)
      modifies this
      ensures State() == JustWorks(old(State()), Jw9, o, r, e)
    {
      hide FreeOtm, ParseDos, ParseDeviceUuid, OwnerCred;
      if o in otms {
        if !r.ok {
          FreeOtmCtx(o, -1);
        } else {
          GoOn(e, Jw10, o, SwitchTo(RFPRO));
        }
      }
    }

    method ObtJw10(o: Id, r: Response, e: Env)
      modifies this
      ensures State() == JustWorks(old(State()), Jw10, o, r, e)
    {
      hide FreeOtm, ParseDos, ParseDeviceUuid, OwnerCred;
      if o in otms {
        if !r.ok {
          FreeOtmCtx(o, -1);
        } else {
          GoOn(e, Jw11, o, GetPstat);
        }
      }
    }

    method ObtJw11(o: Id, r: Response, e: Env)
      modifies this
      ensures State() == JustWorks(old(State()), Jw11, o, r, e)
    {
      hide FreeOtm, ParseDos, ParseDeviceUuid, OwnerCred;
      if o in otms {
        if !r.ok {
          FreeOtmCtx(o, -1);
        } else {
          var s := ReadDos(r.payload);
          if s == RFPRO {
            GoOn(e, Jw12, o, SwitchTo(RFNOP));
          } else {
            FreeOtmCtx(o, -1);
          }
        }
      }
    }

    method ObtJw12(o: Id, r: Response, e: Env)
      modifies this
      ensures State() == JustWorks(old(State()), Jw12, o, r, e)
    {
      hide FreeOtm, ParseDos, ParseDeviceUuid, OwnerCred;
      if o in otms {
        if !r.ok {
          FreeOtmCtx(o, -1);
        } else {
          GoOn(e, Jw13, o, GetPstat);
        }
      }
    }

    method ObtJw13(o: Id, r: Response, e: Env)
      modifies this
      ensures State() == JustWorks(old(State()), Jw13, o, r, e)
    {
      hide FreeOtm, ParseDos, ParseDeviceUuid, OwnerCred;
      if o in otms {
        if !r.ok {
          FreeOtmCtx(o, -1);
        } else {
          var s := ReadDos(r.payload);
          if s == RFNOP {
            FreeOtmCtx(o, 0);
          } else {
            FreeOtmCtx(o, -1);
          }
        }
      }
    }

    method PerformJustWorksOtm(device: Uuid, e: Env) returns (o: Option<Id>)
      modifies this
      ensures (State(), o) == StartOtm(old(State()), device, e)
    {
      hide FindHandle, HasCredFor;
      var owned := OwnedDevice(device);
      if owned {
        return None;
      }
      var handle := GetDeviceHandle(device, cache);
      if handle.None? || !e.room || !e.sent {
        return None;
      }
      var ctx := nextId;
      nextId := nextId + 1;
      SendRequest(Jw2, ctx, ToRfotm());
      otms := otms[ctx := OtmCtx(handle.value)];
      timers := timers + {ctx};
      o := Some(ctx);
    }

    // ----- switching a device's state

    method SwitchDos(handle: Id, dos: int, cb: SwitchCb, e: Env) returns (d: Option<Id>)
      modifies this
      ensures (State(), d) == StartSwitch(old(State()), handle, dos, cb, e)
    {
      if !e.room || !e.sent {
        return None;
      }
      var ctx := nextId;
      nextId := nextId + 1;
      SendRequest(SwitchPosted, ctx, SwitchTo(dos));
      switches := switches[ctx := SwitchCtx(handle, dos, cb)];
      d := Some(ctx);
    }

    method FreeSwitchDosCtx(d: Id, status: int, e: Env)
      requires d in switches
      modifies this
      ensures State() == FreeSwitch(old(State()), d, status, e)
    {
      hide HardResetDone, SendAce, ProvisionOver;
      var cb := switches[d].cb;
      switches := switches - {d};
      match cb {
        case HardReset(h) => HardResetCb(h, status);
        case ProvisionAce(p) => ProvisionAceCb(p, status, e);
        case ProvisionDone(p) => ProvisionAceComplete(p, status);
      }
    }

    method PstatPosted(d: Id, r: Response, e: Env)
      modifies this
      ensures State() == SwitchResponse(old(State()), SwitchPosted, d, r, e)
    {
      hide FreeSwitch;
      if d in switches {
        if !r.ok || !e.sent {
          FreeSwitchDosCtx(d, -1, e);
        } else {
          SendRequest(SwitchRead, d, GetPstat);
        }
      }
    }

    method PstatRead(d: Id, r: Response, e: Env)
      modifies this
      ensures State() == SwitchResponse(old(State()), SwitchRead, d, r, e)
    {
      hide FreeSwitch, ParseDos;
      if d in switches {
        if !r.ok {
          FreeSwitchDosCtx(d, -1, e);
        } else {
          var s := ReadDos(r.payload);
          var want := switches[d].dos;
          if s == want || (want == RESET && s == RFOTM) {
            FreeSwitchDosCtx(d, 0, e);
          } else {
            FreeSwitchDosCtx(d, -1, e);
          }
        }
      }
    }

    // ----- hard reset

    method FreeHardResetCtx(h: Id, status: int)
      requires h in resets
      modifies this
      ensures State() == FreeReset(old(State()), h, status)
    {
      hide Without, RemoveFirst;
      var x := resets[h];
      timers := timers - {h};
      if status == 0 {
        RemoveCredOf(UuidOf(State(), x.handle));
        reports := reports + [Report(h, 0)];
      } else {
        reports := reports + [Report(h, -1)];
      }
      ForgetDevice(x.handle);
      if x.switch.Some? {
        switches := switches - {x.switch.value};
      }
      resets := resets - {h};
    }

    method HardResetCb(h: Id, status: int)
      modifies this
      ensures State() == HardResetDone(old(State()), h, status)
    {
      hide FreeReset;
      if h in resets {
        resets := resets[h := resets[h].(switch := None)];
        FreeHardResetCtx(h, status);
      }
    }

    method DeviceHardReset(device: Uuid, e: Env) returns (h: Option<Id>)
      modifies this
      ensures (State(), h) == StartReset(old(State()), device, e)
    {
      hide FindHandle, HasCredFor;
      if !e.room {
        return None;
      }
      var owned := OwnedDevice(device);
      if !owned {
        return None;
      }
      var handle := GetDeviceHandle(device, devices);
      if handle.None? {
        return None;
      }
      var ctx := nextId;
      nextId := nextId + 1;
      var d := SwitchDos(handle.value, RESET, HardReset(ctx), e);
      if d.None? {
        return None;
      }
      resets := resets[ctx := ResetCtx(handle.value, d)];
      timers := timers + {ctx};
      h := Some(ctx);
    }

    // ----- access control provisioning

    method FreeAclProvCtx(p: Id, status: int)
      requires p in provs
      modifies this
      ensures State() == FreeProv(old(State()), p, status)
    {
      timers := timers - {p};
      if provs[p].switch.Some? {
        switches := switches - {provs[p].switch.value};
      }
      reports := reports + [Report(p, status)];
      provs := provs - {p};
    }

    method ProvisionAceCb(p: Id, status: int, e: Env)
      modifies this
      ensures State() == SendAce(old(State()), p, status, e)
    {
      hide FreeProv, AceRequest;
      if p in provs {
        provs := provs[p := provs[p].(switch := None)];
        if status >= 0 && e.sent {
          SendRequest(AclPosted, p, AceRequest(provs[p].ace));
        } else {
          FreeAclProvCtx(p, -1);
        }
      }
    }

    method AclResponse(p: Id, r: Response, e: Env)
      modifies this
      ensures State() == AceSent(old(State()), p, r, e)
    {
      hide FreeProv;
      if p in provs {
        if !r.ok {
          FreeAclProvCtx(p, -1);
        } else {
          var d := SwitchDos(provs[p].handle, RFNOP, ProvisionDone(p), e);
          provs := provs[p := provs[p].(switch := d)];
          if d.None? {
            FreeAclProvCtx(p, -1);
          }
        }
      }
    }

    method ProvisionAceComplete(p: Id, status: int)
      modifies this
      ensures State() == ProvisionOver(old(State()), p, status)
    {
      hide FreeProv;
      if p in provs {
        provs := provs[p := provs[p].(switch := None)];
        if status >= 0 {
          FreeAclProvCtx(p, 0);
        } else {
          FreeAclProvCtx(p, -1);
        }
      }
    }

    method ProvisionAceStart(device: Uuid, ace: AceEntry, e: Env) returns (p: Option<Id>)
      modifies this
      ensures (State(), p) == StartProvision(old(State()), device, ace, e)
    {
      hide FindHandle, HasCredFor;
      if !e.room {
        return None;
      }
      var owned := OwnedDevice(device);
      if !owned {
        return None;
      }
      var handle := GetDeviceHandle(device, devices);
      if handle.None? {
        return None;
      }
      var ctx := nextId;
      nextId := nextId + 1;
      var d := SwitchDos(handle.value, RFPRO, ProvisionAce(ctx), e);
      if d.None? {
        return None;
      }
      provs := provs[ctx := ProvCtx(handle.value, ace, d)];
      timers := timers + {ctx};
      p := Some(ctx);
    }

    // ----- what the event loop delivers

    method OnResponse(q: Id, r: Response, e: Env)
      modifies this
      ensures State() == Deliver(old(State()), q, r, e)
    {
      hide JustWorks, SwitchResponse, AceSent;
      if q !in outstanding {
        return;
      }
      var x := outstanding[q];
      outstanding := outstanding - {q};
      match x.handler {
        case Jw2 => ObtJw2(x.ctx, r, e);
        case Jw3 => ObtJw3(x.ctx, r, e);
        case Jw4 => ObtJw4(x.ctx, r, e);
        case Jw5 => ObtJw5(x.ctx, r, e);
        case Jw6 => ObtJw6(x.ctx, r, e);
        case Jw7 => ObtJw7(x.ctx, r, e);
        case Jw8 => ObtJw8(x.ctx, r, e);
        case Jw9 => ObtJw9(x.ctx, r, e);
        case Jw10 => ObtJw10(x.ctx, r, e);
        case Jw11 => ObtJw11(x.ctx, r, e);
        case Jw12 => ObtJw12(x.ctx, r, e);
        case Jw13 => ObtJw13(x.ctx, r, e);
        case SwitchPosted => PstatPosted(x.ctx, r, e);
        case SwitchRead => PstatRead(x.ctx, r, e);
        case AclPosted => AclResponse(x.ctx, r, e);
      }
    }

    method OnTimeout(x: Id)
      modifies this
      ensures State() == Timeout(old(State()), x)
    {
      hide FreeOtm, FreeReset, FreeProv;
      if x in timers {
        if x in otms {
          FreeOtmCtx(x, -1);
        } else if x in resets {
          FreeHardResetCtx(x, -1);
        } else if x in provs {
          FreeAclProvCtx(x, -1);
        }
      }
    }

    method OnDiscovery(device: Uuid, owned: bool, e: Env)
      modifies this
      ensures State() == Found(old(State()), device, owned, e)
    {
      hide FindHandle, HasCredFor, Without;
      if device == uuid {
        return;
      }
      if owned {
        var known := OwnedDevice(device);
        if !known {
          return;
        }
      }
      var handle := GetDeviceHandle(device, if owned then devices else cache);
      if handle.Some? {
        if !e.room {
          if owned {
            devices := ListRemove(devices, handle.value);
          } else {
            cache := ListRemove(cache, handle.value);
          }
        }
        return;
      }
      if !e.room {
        return;
      }
      handles := handles[nextId := device];
      if owned {
        devices := devices + [nextId];
      } else {
        cache := cache + [nextId];
      }
      nextId := nextId + 1;
    }

    method OnEvent(ev: Event, e: Env)
      modifies this
      ensures State() == Next(old(State()), ev, e)
      ensures ObtRuns.Inv(old(State())) && ObtRuns.Waiting(old(State())) ==>
                ObtRuns.Inv(State()) && ObtRuns.Waiting(State()) && ObtRuns.Accounts(old(State()), State())
      ensures ObtHandles.Home(old(State())) && ObtHandles.Unshared(old(State()), ev, e) ==> ObtHandles.Home(State())
    {
      hide ObtRuns.Inv, ObtRuns.Waiting, ObtRuns.Accounts, ObtHandles.Home, ObtHandles.Unshared;
      hide StartOtm, StartReset, StartProvision, Deliver, Timeout, Found;
      match ev {
        case BeginOtm(device) => var o := PerformJustWorksOtm(device, e);
        case BeginReset(device) => var h := DeviceHardReset(device, e);
        case BeginProvision(device, ace) => var p := ProvisionAceStart(device, ace, e);
        case Respond(q, r) => OnResponse(q, r, e);
        case Fire(x) => OnTimeout(x);
        case Discover(device, owned) => OnDiscovery(device, owned, e);
      }
      EventKeeps(old(State()), ev, e);
    }
  }
}
