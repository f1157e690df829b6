/** Which device records a context of the onboarding tool may still use: the end of a failed
    transfer and of any hard reset frees the record, whoever else points at it. */
module ObtHandles {
  import opened Payload
  import opened AclModel
  import opened CredModel
  import opened ObtModel

  // Every running context's device is on the list it was taken from.
  ghost predicate Backed(t: Tool) {
    && (forall o :: o in t.otms ==> t.otms[o].handle in t.cache)
    && (forall h :: h in t.resets ==> t.resets[h].handle in t.devices)
    && (forall p :: p in t.provs ==> t.provs[p].handle in t.devices)
  }

  // No context shares its device with one whose end frees it.
  ghost predicate Exclusive(t: Tool) {
    && (forall o, o' :: o in t.otms && o' in t.otms && o != o' ==> t.otms[o].handle != t.otms[o'].handle)
    && (forall h, h' :: h in t.resets && h' in t.resets && h != h' ==> t.resets[h].handle != t.resets[h'].handle)
    && (forall h, p :: h in t.resets && p in t.provs ==> t.resets[h].handle != t.provs[p].handle)
  }

  predicate NoneTwice(s: seq<Id>) {
    forall i, j :: 0 <= i < j < |s| ==> s[i] != s[j]
  }

  // A device is on one list at most, and there once.
  ghost predicate ListsOnce(t: Tool) {
    && NoneTwice(t.cache) && NoneTwice(t.devices) && (forall x :: x in t.cache ==> x !in t.devices)
    && (forall x :: x in t.cache || x in t.devices ==> x < t.nextId)
  }

  ghost predicate Home(t: Tool) {
    Backed(t) && Exclusive(t) && ListsOnce(t)
  }

  predicate OtmOn(t: Tool, handle: Id) {
    exists o :: o in t.otms && t.otms[o].handle == handle
  }

  predicate ResetOn(t: Tool, handle: Id) {
    exists h :: h in t.resets && t.resets[h].handle == handle
  }

  predicate ProvOn(t: Tool, handle: Id) {
    exists p :: p in t.provs && t.provs[p].handle == handle
  }

  // The caller starts nothing on a device that is in the way, and no device in use is dropped
  // for want of memory.
  predicate Unshared(t: Tool, ev: Event, e: Env) {
    match ev
    case BeginOtm(uuid) =>
      var handle := FindHandle(t, t.cache, uuid);
      handle.Some? ==> !OtmOn(t, handle.value)
    case BeginReset(uuid) =>
      var handle := FindHandle(t, t.devices, uuid);
      handle.Some? ==> !ResetOn(t, handle.value) && !ProvOn(t, handle.value)
    case BeginProvision(uuid, _) =>
      var handle := FindHandle(t, t.devices, uuid);
      handle.Some? ==> !ResetOn(t, handle.value)
    case Discover(uuid, owned) =>
      var handle := FindHandle(t, if owned then t.devices else t.cache, uuid);
      handle.Some? && !e.room ==>
        !OtmOn(t, handle.value) && !ResetOn(t, handle.value) && !ProvOn(t, handle.value)
    case _ => true
  }

  ghost predicate UnsharedRun(t: Tool, evs: seq<(Event, Env)>)
    decreases |evs|
  {
    evs == [] || (UnsharedRun(t, evs[..|evs| - 1])
                  && Unshared(Run(t, evs[..|evs| - 1]), evs[|evs| - 1].0, evs[|evs| - 1].1))
  }

  // ----- lists

  lemma {:induction false} WithoutIs(s: seq<Id>, x: Id)
    requires NoneTwice(s)
    ensures var r := Without(s, x); NoneTwice(r) && forall y :: y in r <==> y in s && y != x
  {
    if s != [] {
      var rest := s[1..];
      assert forall i :: 0 <= i < |rest| ==> rest[i] == s[i + 1];
      assert s == [s[0]] + rest;
      WithoutIs(rest, x);
      if s[0] != x {
        FrontMore(s[0], Without(rest, x));
      }
    }
  }

  lemma FrontMore(x: Id, s: seq<Id>)
    requires NoneTwice(s) && x !in s
    ensures NoneTwice([x] + s)
  {
    var all := [x] + s;
    assert forall i :: 1 <= i < |all| ==> all[i] == s[i - 1];
  }

  lemma {:induction false} FoundIsListed(t: Tool, list: seq<Id>, uuid: Uuid)
    ensures var h := FindHandle(t, list, uuid); h.Some? ==> h.value in list
  {
    if list != [] {
      FoundIsListed(t, list[1..], uuid);
    }
  }

  lemma OneMore(s: seq<Id>, x: Id)
    requires NoneTwice(s) && x !in s
    ensures NoneTwice(s + [x])
  {
  }

  // ----- one change at a time

  // Contexts may go, and a device goes that no remaining context is on.
  lemma FewerStaysHome(t: Tool, u: Tool, gone: Id)
    requires Home(t) && t.nextId <= u.nextId
    requires forall o :: o in u.otms ==> o in t.otms && u.otms[o] == t.otms[o]
    requires forall h :: h in u.resets ==> h in t.resets && u.resets[h].handle == t.resets[h].handle
    requires forall p :: p in u.provs ==> p in t.provs && u.provs[p].handle == t.provs[p].handle
    requires u.cache == Without(t.cache, gone) || u.cache == t.cache
    requires u.devices == Without(t.devices, gone) || u.devices == t.devices
    requires !OtmOn(u, gone) || u.cache == t.cache
    requires (!ResetOn(u, gone) && !ProvOn(u, gone)) || u.devices == t.devices
    ensures Home(u)
  {
    hide Without;
    WithoutIs(t.cache, gone);
    WithoutIs(t.devices, gone);
  }

  lemma UntouchedStaysHome(t: Tool, u: Tool)
    requires Home(t) && t.nextId <= u.nextId && u.cache == t.cache && u.devices == t.devices
    requires forall o :: o in u.otms ==> o in t.otms && u.otms[o] == t.otms[o]
    requires forall h :: h in u.resets ==> h in t.resets && u.resets[h].handle == t.resets[h].handle
    requires forall p :: p in u.provs ==> p in t.provs && u.provs[p].handle == t.provs[p].handle
    ensures Home(u)
  {
    FewerStaysHome(t, u, t.nextId);
  }

  // A transfer has succeeded: its device changes lists.
  lemma MovedStaysHome(t: Tool, u: Tool, o: Id)
    requires Home(t) && o in t.otms && u.nextId == t.nextId
    requires u.otms == t.otms - {o} && u.resets == t.resets && u.provs == t.provs
    requires u.cache == Without(t.cache, t.otms[o].handle) && u.devices == t.devices + [t.otms[o].handle]
    ensures Home(u)
  {
    hide Without, NoneTwice;
    var handle := t.otms[o].handle;
    WithoutIs(t.cache, handle);
    OneMore(t.devices, handle);
    assert ListsOnce(u);
    assert Backed(u);
  }

  lemma FreeOtmStaysHome(t: Tool, o: Id, status: int)
    requires Home(t) && o in t.otms
    ensures Home(FreeOtm(t, o, status))
  {
    var u, handle := FreeOtm(t, o, status), t.otms[o].handle;
    hide RemoveFirst, Without, NoneTwice, UuidOf;
    if status == -1 {
      assert !OtmOn(u, handle) && !ResetOn(u, handle) && !ProvOn(u, handle);
      hide Home;
      FewerStaysHome(t, u, handle);
    } else {
      hide Home;
      MovedStaysHome(t, u, o);
    }
  }

  lemma FreeResetStaysHome(t: Tool, h: Id, status: int)
    requires Home(t) && h in t.resets
    ensures Home(FreeReset(t, h, status))
  {
    var u, handle := FreeReset(t, h, status), t.resets[h].handle;
    hide RemoveFirst, Without, NoneTwice, UuidOf;
    assert !OtmOn(u, handle) && !ResetOn(u, handle) && !ProvOn(u, handle);
    FewerStaysHome(t, u, handle);
  }

  // ----- ownership transfer

  lemma ContinueStaysHome(t: Tool, u: Tool, e: Env, handler: Handler, o: Id, request: ToolRequest)
    requires Home(t) && o in t.otms && u == t.(creds := u.creds, handles := u.handles, nextCredid := u.nextCredid)
    ensures Home(Continue(u, e, handler, o, request))
  {
    UntouchedStaysHome(t, u);
    hide Home, FreeOtm;
    if e.sent {
      UntouchedStaysHome(u, Post(u, handler, o, request));
    } else {
      FreeOtmStaysHome(u, o, -1);
    }
  }

  lemma PairStaysHome(t: Tool, o: Id, e: Env)
    requires Home(t) && o in t.otms
    ensures Home(PairWithDevice(t, o, e))
  {
    hide Home, FreeOtm, Continue, OwnerCred, UuidOf;
    if !e.room {
      FreeOtmStaysHome(t, o, -1);
    } else if e.session.None? {
      var u := t.(creds := t.creds + [Cred(0, CREDTYPE_PSK, UuidOf(t, t.otms[o].handle), Unset, "", "")]);
      UntouchedStaysHome(t, u);
      FreeOtmStaysHome(u, o, -1);
    } else {
      var u := t.(creds := t.creds + [OwnerCred(t, o, e.session.value)], nextCredid := t.nextCredid + 1);
      ContinueStaysHome(t, u, e, Jw7, o, TakeCred(t.uuid, e.session));
    }
  }

  lemma JustWorksStaysHome(t: Tool, h: Handler, o: Id, r: Response, e: Env)
    requires Home(t)
    ensures Home(JustWorks(t, h, o, r, e))
  {
    hide Home, FreeOtm, Continue, PairWithDevice, ParseDos, ParseDeviceUuid, UuidOf;
    if o in t.otms {
      FreeOtmStaysHome(t, o, -1);
      FreeOtmStaysHome(t, o, 0);
      if h == Jw5 {
        ContinueStaysHome(t, LearnUuid(t, o, e, r), e, Jw6, o, TakeAcl(t.uuid));
      } else if h == Jw6 {
        PairStaysHome(t, o, e);
      } else {
        forall k, q ensures Home(Continue(t, e, k, o, q)) {
          ContinueStaysHome(t, t, e, k, o, q);
        }
      }
    }
  }

  // ----- state switches, hard reset and provisioning

  lemma FreeProvStaysHome(t: Tool, p: Id, status: int)
    requires Home(t) && p in t.provs
    ensures Home(FreeProv(t, p, status))
  {
    UntouchedStaysHome(t, FreeProv(t, p, status));
  }

  lemma ResetDoneStaysHome(t: Tool, h: Id, status: int)
    requires Home(t)
    ensures Home(HardResetDone(t, h, status))
  {
    if h in t.resets {
      var u := t.(resets := t.resets[h := t.resets[h].(switch := None)]);
      UntouchedStaysHome(t, u);
      hide Home, FreeReset;
      FreeResetStaysHome(u, h, status);
    }
  }

  lemma SendAceStaysHome(t: Tool, p: Id, status: int, e: Env)
    requires Home(t)
    ensures Home(SendAce(t, p, status, e)) && Home(ProvisionOver(t, p, status))
  {
    hide Home, AceRequest;
    if p in t.provs {
      var u := Released(t, p);
      UntouchedStaysHome(t, u);
      UntouchedStaysHome(u, Post(u, AclPosted, p, AceRequest(t.provs[p].ace)));
      hide FreeProv;
      FreeProvStaysHome(u, p, -1);
      FreeProvStaysHome(u, p, 0);
    }
  }

  lemma FreeSwitchStaysHome(t: Tool, d: Id, status: int, e: Env)
    requires Home(t) && d in t.switches
    ensures Home(FreeSwitch(t, d, status, e))
  {
    hide Home, HardResetDone, SendAce, ProvisionOver;
    var u := t.(switches := t.switches - {d});
    UntouchedStaysHome(t, u);
    match t.switches[d].cb
    case HardReset(h) => ResetDoneStaysHome(u, h, status);
    case ProvisionAce(p) => SendAceStaysHome(u, p, status, e);
    case ProvisionDone(p) => SendAceStaysHome(u, p, status, e);
  }

  lemma SwitchResponseStaysHome(t: Tool, h: Handler, d: Id, r: Response, e: Env)
    requires Home(t)
    ensures Home(SwitchResponse(t, h, d, r, e))
  {
    hide Home, FreeSwitch, ParseDos;
    if d in t.switches {
      FreeSwitchStaysHome(t, d, -1, e);
      FreeSwitchStaysHome(t, d, 0, e);
      UntouchedStaysHome(t, Post(t, SwitchRead, d, GetPstat));
    }
  }

  lemma AceSentStaysHome(t: Tool, p: Id, r: Response, e: Env)
    requires Home(t)
    ensures Home(AceSent(t, p, r, e))
  {
    hide Home;
    UntouchedStaysHome(t, AceSent(t, p, r, e));
  }

  lemma DeliverStaysHome(t: Tool, q: Id, r: Response, e: Env)
    requires Home(t)
    ensures Home(Deliver(t, q, r, e))
  {
    hide Home, SwitchResponse, AceSent, JustWorks;
    if q in t.outstanding {
      var x, u := t.outstanding[q], t.(outstanding := t.outstanding - {q});
      UntouchedStaysHome(t, u);
      SwitchResponseStaysHome(u, x.handler, x.ctx, r, e);
      AceSentStaysHome(u, x.ctx, r, e);
      JustWorksStaysHome(u, x.handler, x.ctx, r, e);
    }
  }

  lemma TimeoutStaysHome(t: Tool, x: Id)
    requires Home(t)
    ensures Home(Timeout(t, x))
  {
    hide Home, FreeOtm, FreeReset, FreeProv;
    if x in t.otms {
      FreeOtmStaysHome(t, x, -1);
    } else if x in t.resets {
      FreeResetStaysHome(t, x, -1);
    } else if x in t.provs {
      FreeProvStaysHome(t, x, -1);
    }
  }

  // ----- starting and discovery

  lemma StartOtmStaysHome(t: Tool, uuid: Uuid, e: Env)
    requires Home(t) && Unshared(t, BeginOtm(uuid), e)
    ensures Home(StartOtm(t, uuid, e).0)
  {
    FoundIsListed(t, t.cache, uuid);
    hide FindHandle, HasCredFor, NoneTwice, ToRfotm;
  }

  lemma StartResetStaysHome(t: Tool, uuid: Uuid, e: Env)
    requires Home(t) && Unshared(t, BeginReset(uuid), e)
    ensures Home(StartReset(t, uuid, e).0)
  {
    FoundIsListed(t, t.devices, uuid);
    hide FindHandle, HasCredFor, NoneTwice, SwitchTo;
  }

  lemma StartProvisionStaysHome(t: Tool, uuid: Uuid, ace: AceEntry, e: Env)
    requires Home(t) && Unshared(t, BeginProvision(uuid, ace), e)
    ensures Home(StartProvision(t, uuid, ace, e).0)
  {
    FoundIsListed(t, t.devices, uuid);
    hide FindHandle, HasCredFor, NoneTwice, SwitchTo;
  }

  lemma FoundStaysHome(t: Tool, uuid: Uuid, owned: bool, e: Env)
    requires Home(t) && Unshared(t, Discover(uuid, owned), e)
    ensures Home(Found(t, uuid, owned, e))
  {
    hide FindHandle, HasCredFor, NoneTwice, Without;
    var u, handle := Found(t, uuid, owned, e), FindHandle(t, if owned then t.devices else t.cache, uuid);
    if u.nextId == t.nextId {
      FewerStaysHome(t, u, if handle.Some? then handle.value else t.nextId);
    } else {
      OneMore(if owned then t.devices else t.cache, t.nextId);
    }
  }

  lemma NextStaysHome(t: Tool, ev: Event, e: Env)
    requires Home(t) && Unshared(t, ev, e)
    ensures Home(Next(t, ev, e))
  {
    hide Home, Unshared, StartOtm, StartReset, StartProvision, Deliver, Timeout, Found;
    match ev
    case BeginOtm(uuid) => StartOtmStaysHome(t, uuid, e);
    case BeginReset(uuid) => StartResetStaysHome(t, uuid, e);
    case BeginProvision(uuid, ace) => StartProvisionStaysHome(t, uuid, ace, e);
    case Respond(q, r) => DeliverStaysHome(t, q, r, e);
    case Fire(x) => TimeoutStaysHome(t, x);
    case Discover(uuid, owned) => FoundStaysHome(t, uuid, owned, e);
  }

  // As long as nothing is started on a device that is in the way, every running context's
  // device stays on its list.
  lemma {:induction false} RunStaysHome(t: Tool, evs: seq<(Event, Env)>)
    requires Home(t) && UnsharedRun(t, evs)
    ensures Home(Run(t, evs))
    decreases |evs|
  {
    hide Home, Unshared, Next;
    if evs != [] {
      RunStaysHome(t, evs[..|evs| - 1]);
      NextStaysHome(Run(t, evs[..|evs| - 1]), evs[|evs| - 1].0, evs[|evs| - 1].1);
    }
  }

  // ----- and no longer than that

  // Two contexts on one device: the first one's end frees it.
  lemma SharedTransfer(t: Tool, o: Id, other: Id)
    requires Backed(t) && ListsOnce(t) && o in t.timers && o in t.otms
    requires other in t.otms && other != o && t.otms[other].handle == t.otms[o].handle
    ensures !Backed(Timeout(t, o))
  {
    hide RemoveFirst, Without, UuidOf, NoneTwice;
    WithoutIs(t.cache, t.otms[o].handle);
    assert other in Timeout(t, o).otms;
  }

  lemma SharedReset(t: Tool, h: Id, other: Id)
    requires Backed(t) && ListsOnce(t) && h in t.timers && h in t.resets && h !in t.otms
    requires || (other in t.resets && other != h && t.resets[other].handle == t.resets[h].handle)
             || (other in t.provs && t.provs[other].handle == t.resets[h].handle)
    ensures !Backed(Timeout(t, h))
  {
    hide RemoveFirst, Without, UuidOf, NoneTwice;
    WithoutIs(t.devices, t.resets[h].handle);
    var u := Timeout(t, h);
    if other in t.provs && t.provs[other].handle == t.resets[h].handle {
      assert other in u.provs && u.provs[other].handle !in u.devices;
    } else {
      assert other in u.resets && u.resets[other].handle !in u.devices;
    }
  }

  // Whichever running context times out next, the others keep their devices: that is so
  // exactly when no context shares its device with one whose end frees it.
  lemma ExclusiveExactly(t: Tool)
    requires Backed(t) && ListsOnce(t) && t.timers == t.otms.Keys + t.resets.Keys + t.provs.Keys
    requires t.otms.Keys !! t.resets.Keys
    ensures (forall x :: x in t.timers ==> Backed(Timeout(t, x))) <==> Exclusive(t)
  {
    hide Timeout, NoneTwice;
    if Exclusive(t) {
      forall x ensures Backed(Timeout(t, x)) {
        TimeoutStaysHome(t, x);
      }
    } else if o, o' :| o in t.otms && o' in t.otms && o != o' && t.otms[o].handle == t.otms[o'].handle {
      SharedTransfer(t, o, o');
    } else if h, h' :| h in t.resets && h' in t.resets && h != h' && t.resets[h].handle == t.resets[h'].handle {
      SharedReset(t, h, h');
    } else {
      var h, p :| h in t.resets && p in t.provs && t.resets[h].handle == t.provs[p].handle;
      SharedReset(t, h, p);
    }
  }

  // Two transfers are started on one device. The first one times out and frees it, while the
  // second one still runs on it: its own timeout would read the freed record.
  lemma SharedDeviceRun(t: Tool, u: Uuid, e: Env)
    requires t.nextId == 0 && Idle(t) && u != t.uuid && !HasCredFor(t.creds, u) && e.room && e.sent
    ensures var evs := [(Discover(u, false), e), (BeginOtm(u), e), (BeginOtm(u), e), (Fire(1), e)];
            var v := Run(t, evs);
            && 3 in v.otms && 3 in v.timers && v.otms[3].handle == 0
            && 0 !in v.cache && 0 !in v.devices && !Backed(v)
  {
    var evs := [(Discover(u, false), e), (BeginOtm(u), e), (BeginOtm(u), e), (Fire(1), e)];
    FourSteps(t, evs);
    hide Run, Next, HasCredFor;
    FirstSeen(t, u, e);
    var a := Next(t, Discover(u, false), e);
    StartsOnZero(a, u, e);
    var b := Next(a, BeginOtm(u), e);
    StartsOnZero(b, u, e);
    FirstTimesOut(Next(b, BeginOtm(u), e), e);
  }

  lemma FirstSeen(t: Tool, u: Uuid, e: Env)
    requires t.nextId == 0 && Idle(t) && u != t.uuid && e.room
    ensures Next(t, Discover(u, false), e) == t.(handles := map[0 := u], cache := [0], nextId := 1)
  {
  }

  lemma StartsOnZero(t: Tool, u: Uuid, e: Env)
    requires t.cache == [0] && t.handles == map[0 := u] && !HasCredFor(t.creds, u) && e.room && e.sent
    ensures var v := Next(t, BeginOtm(u), e);
            v == t.(otms := t.otms[t.nextId := OtmCtx(0)], timers := t.timers + {t.nextId}, nextId := t.nextId + 2,
                    outstanding := v.outstanding)
  {
    hide ToRfotm, HasCredFor;
    assert FindHandle(t, [0], u) == Some(0);
  }

  lemma FirstTimesOut(t: Tool, e: Env)
    requires t.cache == [0] && t.devices == [] && t.timers == {1, 3} && t.otms == map[1 := OtmCtx(0), 3 := OtmCtx(0)]
    ensures var v := Next(t, Fire(1), e);
            && 3 in v.otms && 3 in v.timers && v.otms[3].handle == 0
            && 0 !in v.cache && 0 !in v.devices && !Backed(v)
  {
    hide RemoveFirst, UuidOf;
    var v := Next(t, Fire(1), e);
    assert v.cache == [] && v.devices == [] && 3 in v.otms;
  }

  lemma FourSteps(t: Tool, evs: seq<(Event, Env)>)
    requires |evs| == 4
    ensures Run(t, evs) == Next(Next(Next(Next(t, evs[0].0, evs[0].1), evs[1].0, evs[1].1), evs[2].0, evs[2].1),
                                evs[3].0, evs[3].1)
  {
    hide Next;
    assert evs[..3][..2] == evs[..2] && evs[..2][..1] == evs[..1] && evs[..1][..0] == [];
    assert Run(t, evs[..1]) == Next(t, evs[0].0, evs[0].1);
    assert Run(t, evs[..2]) == Next(Run(t, evs[..1]), evs[1].0, evs[1].1);
    assert Run(t, evs[..3]) == Next(Run(t, evs[..2]), evs[2].0, evs[2].1);
  }
}
