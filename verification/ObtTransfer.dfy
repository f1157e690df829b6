/** The ownership transfer of the onboarding tool, step by step: what it asks for, which answers let it
    go on, and where the device ends up (security/oc_obt.c). */
module ObtTransfer {
  import opened Payload
  import opened AclModel
  import opened CredModel
  import opened DeviceModel
  import opened ObtModel
  import opened ObtRuns
  import opened ObtProvision
  import ObtHandles
  import ObtKeys

  // ----- reading answers

  // The state read off an answer is the last "s" of its "dos" objects.
  lemma {:induction false} LastMemberCounts(v: int, members: seq<Member>, m: Member)
    ensures LastDos(v, []) == v
    ensures LastDos(v, members + [m]) == if m.IntMember? && m.name == "s" then m.integer else LastDos(v, members)
    decreases |members|
  {
    if members == [] {
      assert [m][1..] == [];
    } else {
      assert (members + [m])[1..] == members[1..] + [m];
      LastMemberCounts(if members[0].IntMember? && members[0].name == "s" then members[0].integer else v, members[1..], m);
    }
  }

  lemma {:induction false} LastDosCounts(v: int, rep: seq<Prop<()>>, p: Prop<()>)
    ensures ParseDos(v, []) == v
    ensures ParseDos(v, rep + [p])
         == if p.name == "dos" && p.value.Object? then LastDos(ParseDos(v, rep), p.value.members) else ParseDos(v, rep)
    decreases |rep|
  {
    hide LastDos;
    if rep == [] {
      assert [p][1..] == [];
    } else {
      assert (rep + [p])[1..] == rep[1..] + [p];
      LastDosCounts(if rep[0].value.Object? && rep[0].name == "dos" then LastDos(v, rep[0].value.members) else v, rep[1..], p);
    }
  }

  lemma {:induction false} LastIdentityCounts(u: Uuid, rep: seq<Prop<()>>, p: Prop<()>)
    ensures ParseDeviceUuid(u, []) == u
    ensures ParseDeviceUuid(u, rep + [p])
         == if p.name == "deviceuuid" && p.value.Text? then p.value.uuid else ParseDeviceUuid(u, rep)
    decreases |rep|
  {
    if rep == [] {
      assert [p][1..] == [];
    } else {
      assert (rep + [p])[1..] == rep[1..] + [p];
      LastIdentityCounts(if rep[0].value.Text? && rep[0].name == "deviceuuid" then rep[0].value.uuid else u, rep[1..], p);
    }
  }

  // ----- what each step asks for

  function Creds(me: Uuid): seq<Prop<CredEntry>> {
    [Prop("creds", ObjectArray([Entry(-1, 1, Some(me), Raw, [], None, None)])), Prop("rowneruuid", Text(me))]
  }

  // The request whose answer handler h waits for.
  predicate IsAsked(h: Handler, me: Uuid, q: ToolRequest) {
    match h
    case Jw2 => q == PostState(0)
    case Jw3 => q == GetPstat
    case Jw4 =>
      q == Send(DoxmPost([Prop("oxmsel", Integer(0)), Prop("rowneruuid", Text(me)), Prop("devowneruuid", Text(me))]))
    case Jw5 => q == GetDoxm
    case Jw6 => q == Send(AclPost([Prop("rowneruuid", Text(me))]))
    case Jw7 => q.Send? && q.request.CredPost? && q.request.cred == Creds(me)
    case Jw8 => q == Send(PstatPost([Prop("rowneruuid", Text(me))]))
    case Jw9 => q == Send(DoxmPost([Prop("owned", Boolean(true))]))
    case Jw10 => q == PostState(2)
    case Jw11 => q == GetPstat
    case Jw12 => q == PostState(3)
    case Jw13 => q == GetPstat
    case _ => true
  }

  // Who waits for the answer after that; nobody after the last.
  function Following(h: Handler): Option<Handler> {
    match h
    case Jw2 => Some(Jw3)
    case Jw3 => Some(Jw4)
    case Jw4 => Some(Jw5)
    case Jw5 => Some(Jw6)
    case Jw6 => Some(Jw7)
    case Jw7 => Some(Jw8)
    case Jw8 => Some(Jw9)
    case Jw9 => Some(Jw10)
    case Jw10 => Some(Jw11)
    case Jw11 => Some(Jw12)
    case Jw12 => Some(Jw13)
    case _ => None
  }

  // The answers that let a transfer go on: the two readings on the way must say RFOTM (1) and RFPRO (2),
  // and the tool's half of the key takes memory and a session.
  predicate LetsOn(h: Handler, r: Response, e: Env) {
    && h != Jw13 && r.ok && e.sent
    && (h == Jw3 ==> ParseDos(0, r.payload) == 1) && (h == Jw11 ==> ParseDos(0, r.payload) == 2)
    && (h == Jw6 ==> e.room && e.session.Some?)
  }

  // ----- one answer

  // The next request is out, and nothing else happened but what the step is for.
  ghost predicate WentOn(t: Tool, u: Tool, h: Handler, o: Id, r: Response, e: Env)
    requires o in t.otms
  {
    var handle, q := t.otms[o].handle, t.nextId;
    && u.uuid == t.uuid && u.otms == t.otms && u.timers == t.timers && u.reports == t.reports
    && u.cache == t.cache && u.devices == t.devices
    && Following(h).Some? && q in u.outstanding
    && u.outstanding == t.outstanding[q := Outstanding(Following(h).value, o, u.outstanding[q].request)]
    && IsAsked(Following(h).value, t.uuid, u.outstanding[q].request)
    && u.handles == (if h == Jw5 then t.handles[handle := ParseDeviceUuid(e.stale, r.payload)] else t.handles)
    && u.creds == t.creds + if h == Jw6 && e.session.Some? then [PairedCred(t, handle, e.session.value)] else []
  }

  // The tool's half of the key, for the identity that the device reported.
  function PairedCred(t: Tool, handle: Id, session: nat): Cred {
    var device := if handle in t.handles then t.handles[handle] else 0;
    Cred(t.nextCredid + 1, 1, device, Derived(KdfArgs(session, "oic.sec.doxm.jw", device, t.uuid)), "", "")
  }

  // The same elements but one x, if there is one.
  ghost predicate OnceLess(now: seq<Id>, before: seq<Id>, x: Id) {
    multiset(now) == multiset(before) - multiset{x}
  }

  // It is reported and over; the device has changed lists, or is given up.
  ghost predicate Ended(t: Tool, u: Tool, o: Id, status: int)
    requires o in t.otms
  {
    var handle := t.otms[o].handle;
    && u.otms == t.otms - {o} && u.timers == t.timers - {o} && u.reports == t.reports + [Report(o, status)]
    && u.uuid == t.uuid && u.outstanding == t.outstanding
    && OnceLess(u.cache, t.cache, handle)
    && (if status == 0 then u.devices == t.devices + [handle] && u.creds == t.creds
        else OnceLess(u.devices, t.devices, handle))
  }

  lemma {:induction false} WithoutOnce(s: seq<Id>, x: Id)
    ensures OnceLess(Without(s, x), s, x)
  {
    if s != [] {
      var rest := s[1..];
      assert s == [s[0]] + rest;
      WithoutOnce(rest, x);
      WithoutUnfolds(s, x);
      hide Without;
      if s[0] != x {
        assert multiset(Without(s, x)) == multiset{s[0]} + multiset(Without(rest, x));
      }
    }
  }

  lemma WithoutUnfolds(s: seq<Id>, x: Id)
    requires s != []
    ensures Without(s, x) == if s[0] == x then s[1..] else [s[0]] + Without(s[1..], x)
  {
  }

  lemma Ends(t: Tool, v: Tool, o: Id, status: int)
    requires o in t.otms && (status == 0 || status == -1)
    requires v == t.(handles := v.handles, creds := v.creds, nextCredid := v.nextCredid)
    requires status == 0 ==> v.creds == t.creds
    ensures Ended(t, FreeOtm(v, o, status), o, status)
  {
    WithoutOnce(t.cache, t.otms[o].handle);
    WithoutOnce(t.devices, t.otms[o].handle);
    hide Without, RemoveFirst, UuidOf;
  }

  lemma Continued(t: Tool, v: Tool, h: Handler, o: Id, r: Response, e: Env, request: ToolRequest)
    requires o in t.otms && Following(h).Some? && IsAsked(Following(h).value, t.uuid, request)
    requires v == t.(handles := v.handles, creds := v.creds, nextCredid := v.nextCredid)
    requires v.handles == (if h == Jw5 then t.handles[t.otms[o].handle := ParseDeviceUuid(e.stale, r.payload)] else t.handles)
    requires v.creds == t.creds + if h == Jw6 && e.session.Some? then [PairedCred(t, t.otms[o].handle, e.session.value)] else []
    ensures e.sent ==> WentOn(t, Continue(v, e, Following(h).value, o, request), h, o, r, e)
  {
    hide FreeOtm, IsAsked, ParseDeviceUuid, PairedCred;
  }

  // The request that the step sends out.
  function RequestAfter(h: Handler, me: Uuid, session: Option<nat>): ToolRequest {
    match h
    case Jw3 => TakeDoxm(me)
    case Jw4 => GetDoxm
    case Jw5 => TakeAcl(me)
    case Jw6 => TakeCred(me, session)
    case Jw7 => TakePstat(me)
    case Jw8 => SetOwned()
    case Jw9 => SwitchTo(2)
    case Jw11 => SwitchTo(3)
    case _ => GetPstat
  }

  lemma RequestIsAsked(h: Handler, me: Uuid, session: Option<nat>)
    requires Following(h).Some?
    ensures IsAsked(Following(h).value, me, RequestAfter(h, me, session))
  {
  }

  // What the step changes before it sends it.
  function Prepared(t: Tool, h: Handler, o: Id, r: Response, e: Env): Tool
    requires o in t.otms
  {
    if h == Jw5 then LearnUuid(t, o, e, r)
    else if h == Jw6 && e.session.Some? then
      t.(creds := t.creds + [OwnerCred(t, o, e.session.value)], nextCredid := t.nextCredid + 1)
    else t
  }

  lemma PreparedIs(t: Tool, h: Handler, o: Id, r: Response, e: Env)
    requires o in t.otms
    ensures var v := Prepared(t, h, o, r, e);
            && v == t.(handles := v.handles, creds := v.creds, nextCredid := v.nextCredid)
            && v.handles == (if h == Jw5 then t.handles[t.otms[o].handle := ParseDeviceUuid(e.stale, r.payload)] else t.handles)
            && v.creds == t.creds + if h == Jw6 && e.session.Some? then [PairedCred(t, t.otms[o].handle, e.session.value)] else []
  {
    hide ParseDeviceUuid;
  }

  lemma AnswerIs(t: Tool, h: Handler, o: Id, r: Response, e: Env)
    requires o in t.otms && ObtKeys.IsTransfer(h) && LetsOn(h, r, e)
    ensures Following(h).Some? && o in Prepared(t, h, o, r, e).otms
    ensures JustWorks(t, h, o, r, e)
         == Continue(Prepared(t, h, o, r, e), e, Following(h).value, o, RequestAfter(h, t.uuid, e.session))
  {
    hide ParseDos, ParseDeviceUuid, OwnerCred, TakeDoxm, TakeAcl, TakeCred, TakePstat, SetOwned, SwitchTo, Continue;
  }

  // The tool in which a transfer ends: a failed step may have learnt the identity or stored a credential.
  function Left(t: Tool, h: Handler, o: Id, r: Response, e: Env): Tool
    requires o in t.otms
  {
    if !r.ok then t
    else if h == Jw5 then LearnUuid(t, o, e, r)
    else if h != Jw6 || !e.room then t
    else if e.session.Some? then Prepared(t, h, o, r, e)
    else t.(creds := t.creds + [Cred(0, CREDTYPE_PSK, UuidOf(t, t.otms[o].handle), Unset, "", "")])
  }

  lemma LeftIs(t: Tool, h: Handler, o: Id, r: Response, e: Env)
    requires o in t.otms
    ensures var v := Left(t, h, o, r, e);
            && v == t.(handles := v.handles, creds := v.creds, nextCredid := v.nextCredid)
            && (h == Jw13 ==> v == t)
  {
    hide ParseDeviceUuid, OwnerCred, UuidOf;
  }

  lemma PairFrees(t: Tool, o: Id, r: Response, e: Env)
    requires o in t.otms && r.ok && !LetsOn(Jw6, r, e)
    ensures o in Left(t, Jw6, o, r, e).otms
    ensures PairWithDevice(t, o, e) == FreeOtm(Left(t, Jw6, o, r, e), o, -1)
  {
    hide ParseDos, OwnerCred, TakeCred, FreeOtm, UuidOf, LearnUuid;
  }

  lemma AnswerFrees(t: Tool, h: Handler, o: Id, r: Response, e: Env)
    requires o in t.otms && ObtKeys.IsTransfer(h) && !LetsOn(h, r, e)
    ensures o in Left(t, h, o, r, e).otms
    ensures JustWorks(t, h, o, r, e)
         == FreeOtm(Left(t, h, o, r, e), o, if h == Jw13 && r.ok && ParseDos(0, r.payload) == 3 then 0 else -1)
  {
    hide ParseDos, ParseDeviceUuid, OwnerCred, TakeDoxm, TakeAcl, TakeCred, TakePstat, SetOwned, SwitchTo, FreeOtm, UuidOf,
         PairWithDevice;
    if r.ok && h == Jw6 {
      PairFrees(t, o, r, e);
      hide Left, LetsOn;
    } else if !r.ok {
      hide LetsOn;
    }
  }

  lemma AnswerEnds(t: Tool, h: Handler, o: Id, r: Response, e: Env)
    requires o in t.otms && ObtKeys.IsTransfer(h) && !LetsOn(h, r, e)
    ensures Ended(t, JustWorks(t, h, o, r, e), o, if h == Jw13 && r.ok && ParseDos(0, r.payload) == 3 then 0 else -1)
  {
    hide JustWorks, Left, LetsOn, ParseDos, FreeOtm, Ended;
    LeftIs(t, h, o, r, e);
    AnswerFrees(t, h, o, r, e);
    Ends(t, Left(t, h, o, r, e), o, if h == Jw13 && r.ok && ParseDos(0, r.payload) == 3 then 0 else -1);
  }

  // A transfer goes on exactly at these answers, and success is the end of it exactly when the last
  // reading says RFNOP (3).
  lemma TransferAnswer(t: Tool, h: Handler, o: Id, r: Response, e: Env)
    requires o in t.otms && ObtKeys.IsTransfer(h)
    ensures var u := JustWorks(t, h, o, r, e);
            if LetsOn(h, r, e) then WentOn(t, u, h, o, r, e)
            else Ended(t, u, o, if h == Jw13 && r.ok && ParseDos(0, r.payload) == 3 then 0 else -1)
  {
    hide JustWorks, Ended, WentOn, ParseDos, Prepared, RequestAfter, Continue, IsAsked, ParseDeviceUuid, PairedCred;
    if LetsOn(h, r, e) {
      AnswerIs(t, h, o, r, e);
      PreparedIs(t, h, o, r, e);
      RequestIsAsked(h, t.uuid, e.session);
      Continued(t, Prepared(t, h, o, r, e), h, o, r, e, RequestAfter(h, t.uuid, e.session));
    } else {
      AnswerEnds(t, h, o, r, e);
    }
  }

  // ----- over runs

  // Whatever request of a transfer is out, it is the one its handler waits for.
  ghost predicate InTurn(t: Tool) {
    forall q :: q in t.outstanding ==> IsAsked(t.outstanding[q].handler, t.uuid, t.outstanding[q].request)
  }

  // New requests are in turn, and no old one changes.
  ghost predicate TurnsKept(t: Tool, u: Tool) {
    && u.uuid == t.uuid
    && forall q :: q in u.outstanding ==>
         || (q in t.outstanding && u.outstanding[q] == t.outstanding[q])
         || IsAsked(u.outstanding[q].handler, t.uuid, u.outstanding[q].request)
  }

  lemma TurnsChain(t: Tool, u: Tool, v: Tool)
    requires TurnsKept(t, u) && TurnsKept(u, v)
    ensures TurnsKept(t, v)
  {
    hide IsAsked;
  }

  lemma StaysInTurn(t: Tool, u: Tool)
    requires InTurn(t) && TurnsKept(t, u)
    ensures InTurn(u)
  {
    hide IsAsked;
  }

  lemma TransferKeepsTurns(t: Tool, h: Handler, o: Id, r: Response, e: Env)
    requires ObtKeys.IsTransfer(h)
    ensures TurnsKept(t, JustWorks(t, h, o, r, e))
  {
    if o in t.otms {
      TransferAnswer(t, h, o, r, e);
      hide JustWorks, IsAsked, LetsOn, ParseDos, ParseDeviceUuid, PairedCred;
    }
  }

  lemma SwitchEndKeepsTurns(t: Tool, d: Id, status: int, e: Env)
    requires d in t.switches
    ensures TurnsKept(t, FreeSwitch(t, d, status, e))
  {
    ObtKeys.FreeSwitchIs(t, d, status, e);
    hide FreeSwitch, Without, RemoveFirst, UuidOf, AceRequest;
    match t.switches[d].cb
    case HardReset(h) =>
    case ProvisionAce(p) =>
    case ProvisionDone(p) =>
  }

  lemma SwitchKeepsTurns(t: Tool, h: Handler, d: Id, r: Response, e: Env)
    ensures TurnsKept(t, SwitchResponse(t, h, d, r, e))
  {
    if d in t.switches {
      SwitchEndKeepsTurns(t, d, -1, e);
      SwitchEndKeepsTurns(t, d, 0, e);
    }
    hide FreeSwitch, ParseDos;
  }

  lemma AceKeepsTurns(t: Tool, p: Id, r: Response, e: Env)
    ensures TurnsKept(t, AceSent(t, p, r, e))
  {
    hide SwitchTo;
  }

  lemma DeliverKeepsTurns(t: Tool, q: Id, r: Response, e: Env)
    ensures TurnsKept(t, Deliver(t, q, r, e))
  {
    if q in t.outstanding {
      var x, u := t.outstanding[q], t.(outstanding := t.outstanding - {q});
      assert TurnsKept(t, u);
      hide SwitchResponse, AceSent, JustWorks, TurnsKept;
      if x.handler == SwitchPosted || x.handler == SwitchRead {
        SwitchKeepsTurns(u, x.handler, x.ctx, r, e);
      } else if x.handler == AclPosted {
        AceKeepsTurns(u, x.ctx, r, e);
      } else {
        TransferKeepsTurns(u, x.handler, x.ctx, r, e);
      }
      TurnsChain(t, u, Deliver(t, q, r, e));
    }
  }

  lemma TimeoutKeepsTurns(t: Tool, x: Id)
    ensures TurnsKept(t, Timeout(t, x))
  {
    hide Without, RemoveFirst, UuidOf, IsAsked;
    if x in t.otms {
    } else if x in t.resets {
    }
  }

  lemma StartsKeepTurns(t: Tool, uuid: Uuid, e: Env)
    ensures TurnsKept(t, StartOtm(t, uuid, e).0) && TurnsKept(t, StartReset(t, uuid, e).0)
  {
    hide FindHandle, HasCredFor;
  }

  lemma ProvisionKeepsTurns(t: Tool, uuid: Uuid, ace: AceEntry, e: Env)
    ensures TurnsKept(t, StartProvision(t, uuid, ace, e).0)
  {
    hide FindHandle, HasCredFor;
  }

  lemma NextKeepsTurns(t: Tool, ev: Event, e: Env)
    ensures TurnsKept(t, Next(t, ev, e))
  {
    hide StartOtm, StartReset, StartProvision, Deliver, Timeout, Found;
    match ev
    case BeginOtm(uuid) => StartsKeepTurns(t, uuid, e);
    case BeginReset(uuid) => StartsKeepTurns(t, uuid, e);
    case BeginProvision(uuid, ace) => ProvisionKeepsTurns(t, uuid, ace, e);
    case Respond(q, r) => DeliverKeepsTurns(t, q, r, e);
    case Fire(x) => TimeoutKeepsTurns(t, x);
    case Discover(uuid, owned) => ObtKeys.FoundOnly(t, uuid, owned, e);
  }

  lemma {:induction false} RunKeepsTurns(t: Tool, evs: seq<(Event, Env)>)
    requires InTurn(t)
    ensures InTurn(Run(t, evs))
    decreases |evs|
  {
    hide InTurn, TurnsKept, Next;
    if evs != [] {
      RunKeepsTurns(t, evs[..|evs| - 1]);
      NextKeepsTurns(Run(t, evs[..|evs| - 1]), evs[|evs| - 1].0, evs[|evs| - 1].1);
      StaysInTurn(Run(t, evs[..|evs| - 1]), Run(t, evs));
    }
  }

  lemma IdleInTurn(t: Tool)
    requires Idle(t)
    ensures InTurn(t)
  {
  }

  // After any run of an initialised tool: whatever a transfer has outstanding is the request of its step,
  // and success is told only by the answer to the last one, the reading of pstat, when that says RFNOP.
  lemma TransferredMeansOperational(t0: Tool, evs: seq<(Event, Env)>, ev: Event, e: Env, o: Id)
    requires Idle(t0) && o in Run(t0, evs).otms
    ensures InTurn(Run(t0, evs))
    ensures Report(o, 0) in Next(Run(t0, evs), ev, e).reports ==>
              && ev.Respond? && ev.request in Run(t0, evs).outstanding
              && Run(t0, evs).outstanding[ev.request] == Outstanding(Jw13, o, GetPstat)
              && ev.response.ok && ParseDos(0, ev.response.payload) == 3
  {
    hide Inv, Waiting, InTurn, Run, Next, ParseDos, Idle;
    IdleInTurn(t0);
    RunKeepsTurns(t0, evs);
    ObtKeys.IdleIsFine(t0);
    RunKeeps(t0, evs);
    var t := Run(t0, evs);
    if Report(o, 0) in Next(t, ev, e).reports {
      ObtKeys.SuccessMeansOperational(t, ev, e, o);
      LastIsReading(t, ev.request);
    }
  }

  lemma LastIsReading(t: Tool, q: Id)
    requires InTurn(t) && q in t.outstanding && t.outstanding[q].handler == Jw13
    ensures t.outstanding[q].request == GetPstat
  {
  }

  // ----- the other events

  // A transfer that is accepted has its context, its timeout and its first request, and nothing else changed.
  lemma TransferBegins(t: Tool, uuid: Uuid, e: Env)
    ensures var (u, o) := StartOtm(t, uuid, e);
            if o.None? then u == t
            else && o.value == t.nextId && o.value in u.otms
                 && var handle := u.otms[o.value].handle;
                 && handle in t.cache && handle in t.handles && t.handles[handle] == uuid
                 && u == t.(otms := t.otms[o.value := OtmCtx(handle)], timers := t.timers + {o.value}, nextId := o.value + 2,
                            outstanding := t.outstanding[o.value + 1 := Outstanding(Jw2, o.value, PostState(0))])
  {
    ObtKeys.FindHandleFinds(t, t.cache, uuid);
    ObtHandles.FoundIsListed(t, t.cache, uuid);
    hide FindHandle, HasCredFor;
  }

  lemma TimeoutEnds(t: Tool, o: Id)
    requires o in t.timers && o in t.otms
    ensures Ended(t, Timeout(t, o), o, -1)
  {
    Ends(t, t, o, -1);
    hide FreeOtm, Ended;
  }

  lemma OneDropped(list: seq<Id>, x: Id)
    requires x in list
    ensures OnceLess(Without(list, x), list, x) && |Without(list, x)| == |list| - 1
  {
    hide Without;
    WithoutOnce(list, x);
    assert |Without(list, x)| == |multiset(Without(list, x))|;
  }

  // Only a device that is not the tool itself, and if it is owned one that the tool has a credential for,
  // matters: an unknown one joins its list under a new handle when memory suffices, a known one is dropped
  // when it does not.
  lemma Discovered(t: Tool, uuid: Uuid, owned: bool, e: Env)
    ensures var u := Found(t, uuid, owned, e);
            var list, now := if owned then t.devices else t.cache, if owned then u.devices else u.cache;
            && (if owned then u.cache == t.cache else u.devices == t.devices)
            && (if uuid == t.uuid || (owned && forall i :: 0 <= i < |t.creds| ==> t.creds[i].subject != uuid) then u == t
                else if Knows(t, list, uuid) then
                  if e.room then u == t
                  else && u.handles == t.handles && |now| == |list| - 1
                       && exists x :: x in t.handles && t.handles[x] == uuid && OnceLess(now, list, x)
                else if !e.room then u == t
                else now == list + [t.nextId] && u.handles == t.handles[t.nextId := uuid] && u.nextId == t.nextId + 1)
  {
    var list := if owned then t.devices else t.cache;
    FoundExactly(t, list, uuid);
    ObtKeys.FindHandleFinds(t, list, uuid);
    ObtHandles.FoundIsListed(t, list, uuid);
    var handle := FindHandle(t, list, uuid);
    hide FindHandle, Knows, Without, OnceLess;
    if handle.Some? {
      OneDropped(list, handle.value);
    }
  }
}
