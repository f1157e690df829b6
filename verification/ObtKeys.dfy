/** What an ownership transfer means for the onboarding tool: success is reported only
    after the device answered that it operates, and the outcome decides whether the
    tool holds a credential for the device. */
module ObtKeys {
  import opened Payload
  import opened AclModel
  import opened CredModel
  import opened DeviceModel
  import opened ObtHandles
  import opened ObtModel
  import opened ObtRuns

  // ----- success means operational

  lemma NotYetTold(t: Tool, o: Id, status: int)
    requires Counted(t) && o in t.otms
    ensures Report(o, status) !in t.reports
  {
    forall i | 0 <= i < |t.reports| ensures t.reports[i].ctx != o {
      assert t.reports[i].ctx in Told(t.reports) && o in Live(t);
    }
  }

  // At most one report is added, and it is about another kind of context than a transfer.
  ghost predicate TellsOther(t: Tool, u: Tool) {
    u.reports == t.reports || exists r: Report :: r.ctx !in t.otms && u.reports == t.reports + [r]
  }

  lemma SwitchResponseTells(t: Tool, h: Handler, d: Id, r: Response, e: Env)
    requires Inv(t)
    ensures TellsOther(t, SwitchResponse(t, h, d, r, e))
  {
    hide ParseDos, FreeSwitch, Inv, TellsOther, UuidOf;
    SameTells(t, SwitchResponse(t, h, d, r, e));
    if d in t.switches {
      FreeSwitchTells(t, d, -1, e);
      FreeSwitchTells(t, d, 0, e);
    }
  }

  lemma SameTells(t: Tool, u: Tool)
    ensures u.reports == t.reports ==> TellsOther(t, u)
  {
  }

  lemma FreeSwitchTells(t: Tool, d: Id, status: int, e: Env)
    requires Inv(t) && d in t.switches
    ensures TellsOther(t, FreeSwitch(t, d, status, e))
  {
    var u := t.(switches := t.switches - {d});
    match t.switches[d].cb
    case HardReset(h) =>
      hide FreeSwitch, Inv, SendAce, ProvisionOver;
      KindsApart(t, h);
      OneReportTells(t, HardResetDone(u, h, status));
      assert FreeSwitch(t, d, status, e) == HardResetDone(u, h, status) by { FreeSwitchIs(t, d, status, e); }
    case ProvisionAce(p) =>
      hide FreeSwitch, Inv, HardResetDone, ProvisionOver;
      KindsApart(t, p);
      OneReportTells(t, SendAce(u, p, status, e));
      assert FreeSwitch(t, d, status, e) == SendAce(u, p, status, e) by { FreeSwitchIs(t, d, status, e); }
    case ProvisionDone(p) =>
      hide FreeSwitch, Inv, HardResetDone, SendAce;
      KindsApart(t, p);
      OneReportTells(t, ProvisionOver(u, p, status));
      assert FreeSwitch(t, d, status, e) == ProvisionOver(u, p, status) by { FreeSwitchIs(t, d, status, e); }
  }

  lemma FreeSwitchIs(t: Tool, d: Id, status: int, e: Env)
    requires d in t.switches
    ensures var u := t.(switches := t.switches - {d});
            FreeSwitch(t, d, status, e) ==
            (match t.switches[d].cb
             case HardReset(h) => HardResetDone(u, h, status)
             case ProvisionAce(p) => SendAce(u, p, status, e)
             case ProvisionDone(p) => ProvisionOver(u, p, status))
  {
    hide HardResetDone, SendAce, ProvisionOver;
  }

  lemma KindsApart(t: Tool, x: Id)
    requires Inv(t)
    ensures x in t.resets || x in t.provs ==> x !in t.otms
  {
    hide Linked, Told, ToldOnce;
  }

  lemma OneReportTells(t: Tool, u: Tool)
    requires u.reports == t.reports || (|u.reports| == |t.reports| + 1 && u.reports[..|t.reports|] == t.reports
                                        && u.reports[|t.reports|].ctx !in t.otms)
    ensures TellsOther(t, u)
  {
    if u.reports != t.reports {
      assert u.reports == t.reports + [u.reports[|t.reports|]];
    }
  }

  lemma AceSentTells(t: Tool, p: Id, r: Response, e: Env)
    requires Inv(t)
    ensures TellsOther(t, AceSent(t, p, r, e))
  {
    hide Linked, Told, ToldOnce;
    var u := AceSent(t, p, r, e);
    if u.reports != t.reports {
      assert u.reports == t.reports + [Report(p, -1)];
    }
  }

  // A transfer's handler reports nothing but that transfer, and success only in its last step.
  lemma JustWorksTells(t: Tool, h: Handler, o: Id, r: Response, e: Env)
    ensures var u := JustWorks(t, h, o, r, e);
            || u.reports == t.reports
            || (u.reports == t.reports + [Report(o, -1)])
            || (u.reports == t.reports + [Report(o, 0)] && r.ok && h == Jw13 && ParseDos(0, r.payload) == RFNOP)
  {
    hide FreeOtm, ParseDos, ParseDeviceUuid, UuidOf;
    if o in t.otms {
      FreeOtmTells(t, t, o);
      if h == Jw5 {
        FreeOtmTells(t, LearnUuid(t, o, e, r), o);
      } else if h == Jw6 && e.session.None? {
        FreeOtmTells(t, t.(creds := t.creds + [Cred(0, CREDTYPE_PSK, UuidOf(t, t.otms[o].handle), Unset, "", "")]), o);
      } else if h == Jw6 && e.session.Some? {
        FreeOtmTells(t, t.(creds := t.creds + [OwnerCred(t, o, e.session.value)], nextCredid := t.nextCredid + 1), o);
      }
    }
  }

  lemma FreeOtmTells(t: Tool, u: Tool, o: Id)
    requires o in u.otms && u.reports == t.reports
    ensures forall status :: FreeOtm(u, o, status).reports == t.reports + [Report(o, status)]
  {
    hide Without, RemoveFirst, UuidOf;
  }

  // The event that makes a transfer succeed is the answer to its last request, and it says RFNOP.
  lemma SuccessMeansOperational(t: Tool, ev: Event, e: Env, o: Id)
    requires Inv(t) && Waiting(t) && o in t.otms
    requires Report(o, 0) in Next(t, ev, e).reports
    ensures && ev.Respond? && ev.request in t.outstanding
            && t.outstanding[ev.request].handler == Jw13 && t.outstanding[ev.request].ctx == o
            && ev.response.ok && ParseDos(0, ev.response.payload) == RFNOP
  {
    NotYetTold(t, o, 0);
    hide Inv, Waiting, StartOtm, StartReset, StartProvision, Deliver, Timeout, Found, ParseDos;
    match ev
    case Respond(q, r) => AnswerTells(t, q, r, e, o);
    case Fire(x) => TimeoutNeverSucceeds(t, x, o);
    case BeginOtm(uuid) => StartsTellNothing(t, uuid, e);
    case BeginReset(uuid) => StartsTellNothing(t, uuid, e);
    case BeginProvision(uuid, ace) => StartsTellNothing(t, uuid, e);
    case Discover(uuid, owned) => FoundOnly(t, uuid, owned, e);
  }

  lemma AnswerTells(t: Tool, q: Id, r: Response, e: Env, o: Id)
    requires Inv(t) && o in t.otms && Report(o, 0) !in t.reports && Report(o, 0) in Deliver(t, q, r, e).reports
    ensures && q in t.outstanding && t.outstanding[q].handler == Jw13 && t.outstanding[q].ctx == o
            && r.ok && ParseDos(0, r.payload) == RFNOP
  {
    if q in t.outstanding {
      var u := t.(outstanding := t.outstanding - {q});
      UntouchedKeeps(t, u);
      hide Inv, SwitchResponse, AceSent, JustWorks, ParseDos;
      SwitchResponseTells(u, t.outstanding[q].handler, t.outstanding[q].ctx, r, e);
      AceSentTells(u, t.outstanding[q].ctx, r, e);
      JustWorksTells(u, t.outstanding[q].handler, t.outstanding[q].ctx, r, e);
    }
  }

  lemma StartsTellNothing(t: Tool, uuid: Uuid, e: Env)
    ensures StartOtm(t, uuid, e).0.reports == t.reports && StartReset(t, uuid, e).0.reports == t.reports
    ensures forall ace :: StartProvision(t, uuid, ace, e).0.reports == t.reports
  {
    hide FindHandle, HasCredFor, ToRfotm, SwitchTo;
  }

  // Discovery changes the lists of devices, and may add one handle.
  lemma FoundOnly(t: Tool, uuid: Uuid, owned: bool, e: Env)
    ensures var u := Found(t, uuid, owned, e);
            && u == t.(handles := u.handles, nextId := u.nextId, cache := u.cache, devices := u.devices)
            && ((u.handles == t.handles && u.nextId == t.nextId)
                || (u.handles == t.handles[t.nextId := uuid] && u.nextId == t.nextId + 1))
  {
    hide FindHandle, HasCredFor, Without;
  }

  lemma TimeoutNeverSucceeds(t: Tool, x: Id, o: Id)
    requires Inv(t) && o in t.otms
    ensures Report(o, 0) !in Timeout(t, x).reports
  {
    NotYetTold(t, o, 0);
    hide Without, RemoveFirst, UuidOf, Linked, Told, ToldOnce;
  }

  // ----- counting credentials

  function Count(creds: seq<Cred>, u: Uuid): nat {
    if creds == [] then 0
    else Count(creds[..|creds| - 1], u) + if creds[|creds| - 1].subject == u then 1 else 0
  }

  lemma {:induction false} CountConcat(a: seq<Cred>, b: seq<Cred>, u: Uuid)
    ensures Count(a + b, u) == Count(a, u) + Count(b, u)
  {
    if b == [] {
      assert a + b == a;
    } else {
      CountConcat(a, b[..|b| - 1], u);
      assert (a + b)[..|a + b| - 1] == a + b[..|b| - 1];
    }
  }

  lemma CountOne(c: Cred, u: Uuid)
    ensures Count([c], u) == if c.subject == u then 1 else 0
  {
    assert [c][..0] == [];
  }

  lemma {:induction false} CountNone(creds: seq<Cred>, u: Uuid)
    ensures Count(creds, u) == 0 <==> !HasCredFor(creds, u)
  {
    if creds != [] {
      var init := creds[..|creds| - 1];
      CountNone(init, u);
      assert forall i :: 0 <= i < |init| ==> init[i] == creds[i];
    }
  }

  // Removing the first credential of s takes one away from s, if there is one, and nothing else.
  lemma CountRemove(creds: seq<Cred>, s: Uuid, u: Uuid)
    ensures var after := Count(RemoveFirst(creds, BySubject(s)), u);
            if u == s && Count(creds, u) > 0 then after == Count(creds, u) - 1 else after == Count(creds, u)
  {
    var k := Find(creds, BySubject(s));
    CountNone(creds, s);
    if k < |creds| {
      var a, b := creds[..k], creds[k + 1..];
      assert creds == a + ([creds[k]] + b);
      CountConcat(a, [creds[k]] + b, u);
      CountConcat([creds[k]], b, u);
      CountOne(creds[k], u);
      CountConcat(a, b, u);
    }
  }

  // ----- one transfer and its device's credential

  function Dev(t: Tool, o: Id): Uuid
    requires o in t.otms
  {
    UuidOf(t, t.otms[o].handle)
  }

  // Handlers that run after the tool stored its half of the owner credential.
  predicate Late(h: Handler) {
    h.Jw7? || h.Jw8? || h.Jw9? || h.Jw10? || h.Jw11? || h.Jw12? || h.Jw13?
  }

  predicate IsTransfer(h: Handler) {
    !h.SwitchPosted? && !h.SwitchRead? && !h.AclPosted?
  }

  ghost predicate Awaits(t: Tool, o: Id, q: Id) {
    q in t.outstanding && t.outstanding[q].ctx == o && IsTransfer(t.outstanding[q].handler)
  }

  // No other transfer and no reset is about this UUID.
  ghost predicate OnlyFor(t: Tool, u: Uuid, o: Id) {
    && (forall x :: x in t.otms && x != o ==> Dev(t, x) != u)
    && (forall h :: h in t.resets ==> UuidOf(t, t.resets[h].handle) != u)
  }

  // The transfer has one unanswered request, q, and the credential that belongs to that step.
  ghost predicate InStep(t: Tool, o: Id, q: Id)
    requires o in t.otms
  {
    && Awaits(t, o, q) && (forall q' :: Awaits(t, o, q') ==> q' == q)
    && Count(t.creds, Dev(t, o)) == (if Late(t.outstanding[q].handler) then 1 else 0)
  }

  ghost predicate Keyed(t: Tool, o: Id)
    requires o in t.otms
  {
    (exists q :: InStep(t, o, q)) && OnlyFor(t, Dev(t, o), o)
  }

  // Handles in use are numbers that were given out before.
  ghost predicate HandlesOld(t: Tool) {
    && (forall x :: x in t.handles ==> x < t.nextId)
    && (forall o :: o in t.otms ==> t.otms[o].handle < t.nextId)
    && (forall h :: h in t.resets ==> t.resets[h].handle < t.nextId)
  }

  // No new transfer or reset appears between t and u, nor a handle outside those in use.
  ghost predicate Settled(t: Tool, u: Tool) {
    && t.nextId <= u.nextId
    && (forall o :: o in u.otms ==> o in t.otms && u.otms[o] == t.otms[o])
    && (forall h :: h in u.resets ==> h in t.resets && u.resets[h].handle == t.resets[h].handle)
    && (forall x :: x in u.handles ==> x in t.handles || exists o :: o in t.otms && t.otms[o].handle == x)
  }

  lemma SettledKeepsHandles(t: Tool, u: Tool)
    requires HandlesOld(t) && Settled(t, u)
    ensures HandlesOld(u)
  {
  }

  lemma SettledChains(t: Tool, u: Tool, v: Tool)
    requires Settled(t, u) && Settled(u, v)
    ensures Settled(t, v)
  {
  }

  // u is t but for transfer x: other transfers keep their UUID, their credential and their request.
  ghost predicate Aside(t: Tool, u: Tool, x: Id) {
    && Settled(t, u)
    && (forall o :: o in u.otms && o != x ==>
          && o in t.otms && u.otms[o] == t.otms[o] && Dev(u, o) == Dev(t, o)
          && Count(u.creds, Dev(t, o)) == Count(t.creds, Dev(t, o))
          && (forall q :: Awaits(u, o, q) <==> Awaits(t, o, q))
          && (forall q :: Awaits(t, o, q) ==> u.outstanding[q] == t.outstanding[q]))
    && (forall h :: h in u.resets ==>
          h in t.resets && UuidOf(u, u.resets[h].handle) == UuidOf(t, t.resets[h].handle))
  }

  lemma AsideKeeps(t: Tool, u: Tool, x: Id, o: Id)
    requires Aside(t, u, x) && o in u.otms && o != x && Keyed(t, o)
    requires x in u.otms ==> Dev(u, x) != Dev(u, o)
    ensures Keyed(u, o)
  {
    var q :| InStep(t, o, q);
    assert InStep(u, o, q);
  }

  // Transfer o has no unanswered request; `paired` says whether its credential is stored.
  ghost predicate Between(t: Tool, o: Id, paired: bool)
    requires o in t.otms
  {
    && (forall q :: !Awaits(t, o, q)) && OnlyFor(t, Dev(t, o), o)
    && Count(t.creds, Dev(t, o)) == (if paired then 1 else 0)
    && (forall q :: q in t.outstanding ==> q < t.nextId)
  }

  // What the end of a transfer leaves behind.
  ghost predicate Outcome(t: Tool, u: Tool, o: Id)
    requires o in t.otms
  {
    && o !in u.otms
    && exists status :: u.reports == t.reports + [Report(o, status)]
                     && Count(u.creds, UuidOf(u, t.otms[o].handle)) == if status == 0 then 1 else 0
  }

  lemma FreeOtmOutcome(t: Tool, u: Tool, o: Id, status: int, paired: bool)
    requires o in t.otms && o in u.otms && u.otms == t.otms && u.reports == t.reports
    requires OnlyFor(u, Dev(u, o), o) && Count(u.creds, Dev(u, o)) == (if paired then 1 else 0)
    requires (status == 0 ==> paired) && (status == 0 || status == -1)
    ensures Outcome(t, FreeOtm(u, o, status), o) && Aside(u, FreeOtm(u, o, status), o)
    ensures o !in FreeOtm(u, o, status).otms
  {
    hide Without, RemoveFirst, Count;
    var v := FreeOtm(u, o, status);
    if status == -1 {
      forall w ensures Count(v.creds, w) == if w == Dev(u, o) then 0 else Count(u.creds, w) {
        CountRemove(u.creds, Dev(u, o), w);
      }
    }
    assert v.reports == t.reports + [Report(o, status)];
    assert Count(v.creds, UuidOf(v, t.otms[o].handle)) == if status == 0 then 1 else 0;
  }

  lemma ContinueStep(t: Tool, u: Tool, e: Env, h: Handler, o: Id, request: ToolRequest, paired: bool)
    requires o in t.otms && u.otms == t.otms && u.reports == t.reports
    requires Between(u, o, paired) && IsTransfer(h) && (Late(h) <==> paired)
    ensures var v := Continue(u, e, h, o, request);
            (if o in v.otms then Keyed(v, o) && Dev(v, o) == Dev(u, o) else Outcome(t, v, o)) && Aside(u, v, o)
  {
    hide Count;
    var v := Continue(u, e, h, o, request);
    if e.sent {
      assert Awaits(v, o, u.nextId);
      forall q: Id | Awaits(v, o, q) ensures q == u.nextId {
        assert !Awaits(u, o, q);
      }
      assert InStep(v, o, u.nextId);
    } else {
      FreeOtmOutcome(t, u, o, -1, paired);
    }
  }

  // Step 5 learns the device's UUID, which no credential and no other procedure of the tool knows yet.
  ghost predicate FreshUuid(t: Tool, o: Id, u: Uuid) {
    !HasCredFor(t.creds, u) && OnlyFor(t, u, o)
  }

  lemma LearnStep(t: Tool, o: Id, e: Env, r: Response)
    requires o in t.otms && Between(t, o, false) && FreshUuid(t, o, ParseDeviceUuid(e.stale, r.payload))
    ensures Between(LearnUuid(t, o, e, r), o, false) && Aside(t, LearnUuid(t, o, e, r), o)
  {
    hide Count, ParseDeviceUuid;
    var u := LearnUuid(t, o, e, r);
    CountNone(t.creds, Dev(u, o));
    assert forall x :: x in t.otms && x != o ==> t.otms[x].handle != t.otms[o].handle by {
      assert forall x :: x in t.otms && x != o ==> Dev(t, x) != Dev(t, o);
    }
    assert forall h :: h in t.resets ==> t.resets[h].handle != t.otms[o].handle;
    forall q: Id ensures !Awaits(u, o, q) {
      assert !Awaits(t, o, q);
    }
  }

  lemma StoreStep(t: Tool, u: Tool, o: Id, c: Cred)
    requires o in t.otms && Between(t, o, false) && c.subject == Dev(t, o)
    requires u == t.(creds := t.creds + [c], nextCredid := u.nextCredid)
    ensures Between(u, o, true) && Aside(t, u, o)
  {
    hide Count;
    forall w ensures Count(u.creds, w) == Count(t.creds, w) + if w == Dev(t, o) then 1 else 0 {
      CountConcat(t.creds, [c], w);
      CountOne(c, w);
    }
    forall q: Id ensures !Awaits(u, o, q) {
      assert !Awaits(t, o, q);
    }
  }

  lemma AsideChains(t: Tool, u: Tool, v: Tool, x: Id)
    requires Aside(t, u, x) && Aside(u, v, x)
    ensures Aside(t, v, x)
  {
    SettledChains(t, u, v);
    forall o | o in v.otms && o != x
      ensures o in t.otms && v.otms[o] == t.otms[o] && Dev(v, o) == Dev(t, o)
      ensures Count(v.creds, Dev(t, o)) == Count(t.creds, Dev(t, o))
      ensures forall q :: Awaits(v, o, q) <==> Awaits(t, o, q)
      ensures forall q :: Awaits(t, o, q) ==> v.outstanding[q] == t.outstanding[q]
    {
      assert o in u.otms;
      forall q: Id ensures Awaits(v, o, q) <==> Awaits(t, o, q) {
        assert Awaits(v, o, q) <==> Awaits(u, o, q);
      }
    }
  }

  lemma PairStep(t: Tool, o: Id, e: Env)
    requires o in t.otms && Between(t, o, false)
    ensures var v := PairWithDevice(t, o, e);
            (if o in v.otms then Keyed(v, o) && Dev(v, o) == Dev(t, o) else Outcome(t, v, o)) && Aside(t, v, o)
  {
    hide Aside, Outcome, Keyed, FreeOtm, Continue, OnlyFor;
    var v := PairWithDevice(t, o, e);
    if !e.room {
      FreeOtmOutcome(t, t, o, -1, false);
    } else if e.session.None? {
      var u := t.(creds := t.creds + [Cred(0, CREDTYPE_PSK, UuidOf(t, t.otms[o].handle), Unset, "", "")]);
      StoreStep(t, u, o, Cred(0, CREDTYPE_PSK, UuidOf(t, t.otms[o].handle), Unset, "", ""));
      FreeOtmOutcome(t, u, o, -1, true);
      AsideChains(t, u, v, o);
    } else {
      var u := t.(creds := t.creds + [OwnerCred(t, o, e.session.value)], nextCredid := t.nextCredid + 1);
      StoreStep(t, u, o, OwnerCred(t, o, e.session.value));
      ContinueStep(t, u, e, Jw7, o, TakeCred(t.uuid, e.session), true);
      AsideChains(t, u, v, o);
    }
  }

  // One answered request of a transfer: it goes on properly keyed, or ends with the right outcome.
  lemma JustWorksStep(t: Tool, h: Handler, o: Id, r: Response, e: Env)
    requires o in t.otms && IsTransfer(h) && Between(t, o, Late(h))
    requires h == Jw5 && r.ok ==> FreshUuid(t, o, ParseDeviceUuid(e.stale, r.payload))
    ensures var v := JustWorks(t, h, o, r, e);
            && (if o in v.otms then Keyed(v, o) else Outcome(t, v, o)) && Aside(t, v, o)
            && (o in v.otms ==> Dev(v, o) == if h == Jw5 then ParseDeviceUuid(e.stale, r.payload) else Dev(t, o))
  {
    hide Aside, Outcome, Keyed, FreeOtm, Continue, PairWithDevice, FreshUuid, ParseDos, ParseDeviceUuid, OnlyFor;
    var v := JustWorks(t, h, o, r, e);
    FreeOtmOutcome(t, t, o, -1, Late(h));
    if r.ok {
      match h
      case Jw2 => ContinueStep(t, t, e, Jw3, o, GetPstat, false);
      case Jw3 => ContinueStep(t, t, e, Jw4, o, TakeDoxm(t.uuid), false);
      case Jw4 => ContinueStep(t, t, e, Jw5, o, GetDoxm, false);
      case Jw5 =>
        var u := LearnUuid(t, o, e, r);
        LearnStep(t, o, e, r);
        ContinueStep(t, u, e, Jw6, o, TakeAcl(t.uuid), false);
        AsideChains(t, u, v, o);
      case Jw6 => PairStep(t, o, e);
      case Jw7 => ContinueStep(t, t, e, Jw8, o, TakePstat(t.uuid), true);
      case Jw8 => ContinueStep(t, t, e, Jw9, o, SetOwned(), true);
      case Jw9 => ContinueStep(t, t, e, Jw10, o, SwitchTo(RFPRO), true);
      case Jw10 => ContinueStep(t, t, e, Jw11, o, GetPstat, true);
      case Jw11 => ContinueStep(t, t, e, Jw12, o, SwitchTo(RFNOP), true);
      case Jw12 => ContinueStep(t, t, e, Jw13, o, GetPstat, true);
      case Jw13 => FreeOtmOutcome(t, t, o, 0, true);
    }
  }

  // ----- whole runs

  ghost predicate AllKeyed(t: Tool) {
    (forall o :: o in t.otms ==> Keyed(t, o)) && HandlesOld(t)
  }

  // The surroundings an outcome depends on: no second procedure on a device that is being
  // transferred, and devices that pick UUIDs the tool does not know yet.
  ghost predicate Orderly(t: Tool, ev: Event, e: Env) {
    match ev
    case BeginOtm(uuid) => OnlyFor(t, uuid, t.nextId)
    case BeginReset(uuid) => forall o :: o in t.otms ==> Dev(t, o) != uuid
    case Respond(q, r) =>
      q in t.outstanding && t.outstanding[q].handler == Jw5 && t.outstanding[q].ctx in t.otms && r.ok ==>
        FreshUuid(t, t.outstanding[q].ctx, ParseDeviceUuid(e.stale, r.payload))
    case _ => true
  }

  // Everything about transfers stays, and resets may only end.
  ghost predicate Apart(t: Tool, u: Tool) {
    && Settled(t, u)
    && (forall o :: o in u.otms ==>
          && o in t.otms && u.otms[o] == t.otms[o] && Dev(u, o) == Dev(t, o)
          && Count(u.creds, Dev(t, o)) == Count(t.creds, Dev(t, o))
          && (forall q :: Awaits(u, o, q) <==> Awaits(t, o, q))
          && (forall q :: Awaits(t, o, q) ==> u.outstanding[q] == t.outstanding[q]))
    && (forall h :: h in u.resets ==>
          h in t.resets && UuidOf(u, u.resets[h].handle) == UuidOf(t, t.resets[h].handle))
  }

  lemma ApartKeeps(t: Tool, u: Tool)
    requires Apart(t, u) && forall o :: o in t.otms ==> Keyed(t, o)
    ensures forall o :: o in u.otms ==> Keyed(u, o)
  {
    forall o | o in u.otms ensures Keyed(u, o) {
      assert Keyed(t, o);
      var q :| InStep(t, o, q);
      assert InStep(u, o, q);
    }
  }

  lemma FreeResetApart(t: Tool, h: Id, status: int)
    requires h in t.resets && forall o :: o in t.otms ==> Keyed(t, o)
    ensures Apart(t, FreeReset(t, h, status))
  {
    hide Count, Without, RemoveFirst;
    var u := FreeReset(t, h, status);
    forall o | o in t.otms ensures Count(u.creds, Dev(t, o)) == Count(t.creds, Dev(t, o)) {
      assert Keyed(t, o);
      CountRemove(t.creds, UuidOf(t, t.resets[h].handle), Dev(t, o));
    }
  }

  lemma PostApart(t: Tool, h: Handler, ctx: Id, request: ToolRequest)
    requires Waiting(t) && !IsTransfer(h)
    ensures Apart(t, Post(t, h, ctx, request))
  {
    var u := Post(t, h, ctx, request);
    forall o: Id, q: Id ensures Awaits(u, o, q) <==> Awaits(t, o, q) {
    }
  }

  lemma ApartChains(t: Tool, u: Tool, v: Tool)
    requires Apart(t, u) && Apart(u, v)
    ensures Apart(t, v)
  {
    SettledChains(t, u, v);
    forall o, q: Id | o in v.otms ensures Awaits(v, o, q) <==> Awaits(t, o, q) {
      assert Awaits(v, o, q) <==> Awaits(u, o, q);
    }
  }

  // Contexts of provisionings and of state switches do not matter here.
  lemma SideChangeApart(t: Tool, u: Tool)
    requires u == t.(switches := u.switches, provs := u.provs, timers := u.timers, reports := u.reports,
                     resets := u.resets, nextId := u.nextId, outstanding := u.outstanding)
    requires t.nextId <= u.nextId
    requires forall h :: h in u.resets ==> h in t.resets && u.resets[h].handle == t.resets[h].handle
    requires forall q :: q in u.outstanding && q !in t.outstanding ==> !IsTransfer(u.outstanding[q].handler)
    requires forall q :: q in t.outstanding && q !in u.outstanding ==> !IsTransfer(t.outstanding[q].handler)
    requires forall q :: q in t.outstanding && q in u.outstanding ==> u.outstanding[q] == t.outstanding[q]
    ensures Apart(t, u)
  {
    forall o: Id, q: Id ensures Awaits(u, o, q) <==> Awaits(t, o, q) {
    }
  }

  lemma ResetOverApart(t: Tool, d: Id, h: Id, status: int)
    requires AllKeyed(t) && d in t.switches
    ensures Apart(t, HardResetDone(t.(switches := t.switches - {d}), h, status))
  {
    hide Apart, Keyed, HandlesOld, FreeReset;
    var u := t.(switches := t.switches - {d});
    if h in t.resets {
      var w := u.(resets := u.resets[h := u.resets[h].(switch := None)]);
      SideChangeApart(t, w);
      ApartKeeps(t, w);
      FreeResetApart(w, h, status);
      ApartChains(t, w, FreeReset(w, h, status));
    } else {
      SideChangeApart(t, u);
    }
  }

  lemma FreeSwitchApart(t: Tool, d: Id, status: int, e: Env)
    requires AllKeyed(t) && Waiting(t) && d in t.switches
    ensures Apart(t, FreeSwitch(t, d, status, e))
  {
    FreeSwitchIs(t, d, status, e);
    hide Apart, Keyed, HandlesOld, FreeSwitch, FreeReset;
    var u := t.(switches := t.switches - {d});
    match t.switches[d].cb
    case HardReset(h) =>
      hide SendAce, ProvisionOver, HardResetDone;
      ResetOverApart(t, d, h, status);
    case ProvisionAce(p) =>
      hide HardResetDone, ProvisionOver, AceRequest;
      SideChangeApart(t, SendAce(u, p, status, e));
    case ProvisionDone(p) =>
      hide HardResetDone, SendAce;
      SideChangeApart(t, ProvisionOver(u, p, status));
  }

  lemma SwitchResponseApart(t: Tool, h: Handler, d: Id, r: Response, e: Env)
    requires AllKeyed(t) && Waiting(t)
    ensures Apart(t, SwitchResponse(t, h, d, r, e))
  {
    hide Apart, AllKeyed, Waiting, FreeSwitch, ParseDos, Post;
    SideChangeApart(t, t);
    PostApart(t, SwitchRead, d, GetPstat);
    if d in t.switches {
      FreeSwitchApart(t, d, -1, e);
      FreeSwitchApart(t, d, 0, e);
    }
  }

  lemma AceSentApart(t: Tool, p: Id, r: Response, e: Env)
    requires Waiting(t)
    ensures Apart(t, AceSent(t, p, r, e))
  {
    hide Apart;
    SideChangeApart(t, AceSent(t, p, r, e));
  }

  lemma {:induction false} FindHandleFinds(t: Tool, list: seq<Id>, uuid: Uuid)
    ensures var h := FindHandle(t, list, uuid); h.Some? ==> h.value in t.handles && t.handles[h.value] == uuid
  {
    if list != [] {
      FindHandleFinds(t, list[1..], uuid);
    }
  }

  lemma StillKeyed(t: Tool, u: Tool, x: Id)
    requires x in t.otms && Keyed(t, x) && x in u.otms && u.otms[x] == t.otms[x] && Dev(u, x) == Dev(t, x)
    requires u.creds == t.creds && OnlyFor(u, Dev(u, x), x)
    requires forall q :: q in t.outstanding ==> q in u.outstanding && u.outstanding[q] == t.outstanding[q]
    requires forall q :: q in u.outstanding && q !in t.outstanding ==> u.outstanding[q].ctx != x
    ensures Keyed(u, x)
  {
    hide Count, OnlyFor;
    var q :| InStep(t, x, q);
    forall q': Id ensures Awaits(u, x, q') <==> Awaits(t, x, q') {
    }
    assert InStep(u, x, q);
  }

  lemma NewlyKeyed(u: Tool, o: Id, q: Id)
    requires o in u.otms && InStep(u, o, q) && OnlyFor(u, Dev(u, o), o)
    ensures Keyed(u, o)
  {
  }

  // A transfer x goes on undisturbed when transfer o starts on a device with another UUID.
  lemma BesideNewTransfer(t: Tool, u: Tool, o: Id, handle: Id, x: Id)
    requires x in t.otms && Keyed(t, x) && o == t.nextId && Waiting(t) && x < o
    requires u == Post(t.(otms := t.otms[o := OtmCtx(handle)], timers := t.timers + {o}, nextId := o + 1), Jw2, o, ToRfotm())
    requires UuidOf(t, handle) != Dev(t, x)
    ensures Keyed(u, x)
  {
    hide Count, ToRfotm;
    StillKeyed(t, u, x);
  }

  lemma NewTransferKeyed(t: Tool, u: Tool, o: Id, handle: Id)
    requires o == t.nextId && Waiting(t) && OnlyFor(t, UuidOf(t, handle), o) && Count(t.creds, UuidOf(t, handle)) == 0
    requires u == Post(t.(otms := t.otms[o := OtmCtx(handle)], timers := t.timers + {o}, nextId := o + 1), Jw2, o, ToRfotm())
    ensures Keyed(u, o)
  {
    hide Count, ToRfotm;
    assert Awaits(u, o, o + 1);
    assert forall q: Id :: q in t.outstanding ==> t.outstanding[q].ctx < o;
    assert forall q: Id :: Awaits(u, o, q) ==> q == o + 1;
    NewlyKeyed(u, o, o + 1);
  }

  lemma StartOtmKeyed(t: Tool, uuid: Uuid, e: Env)
    requires AllKeyed(t) && Waiting(t) && Inv(t) && OnlyFor(t, uuid, t.nextId)
    ensures AllKeyed(StartOtm(t, uuid, e).0)
  {
    FindHandleFinds(t, t.cache, uuid);
    IdsAreOld(t);
    CountNone(t.creds, uuid);
    hide Inv, FindHandle, Count, Keyed, ToRfotm, Waiting;
    var (u, o) := StartOtm(t, uuid, e);
    if o.Some? {
      var handle := FindHandle(t, t.cache, uuid).value;
      assert UuidOf(t, handle) == uuid;
      hide OnlyFor, HandlesOld, HasCredFor;
      StartedKeyed(t, u, o.value, handle);
    }
  }

  lemma StartedKeyed(t: Tool, u: Tool, o: Id, handle: Id)
    requires AllKeyed(t) && Waiting(t) && OnlyFor(t, UuidOf(t, handle), o) && o == t.nextId
    requires (forall x :: x in t.otms ==> x < o) && Count(t.creds, UuidOf(t, handle)) == 0 && handle in t.handles
    requires u == Post(t.(otms := t.otms[o := OtmCtx(handle)], timers := t.timers + {o}, nextId := o + 1), Jw2, o, ToRfotm())
    ensures AllKeyed(u)
  {
    NewTransferKeyed(t, u, o, handle);
    hide Count, Keyed, ToRfotm, Waiting;
    forall x | x in t.otms ensures Keyed(u, x) {
      assert Dev(t, x) != UuidOf(t, handle);
      BesideNewTransfer(t, u, o, handle, x);
    }
  }

  lemma BesideNewReset(t: Tool, u: Tool, h: Id, r: ResetCtx, d: Id, w: SwitchCtx, x: Id)
    requires x in t.otms && Keyed(t, x) && Waiting(t) && x < t.nextId && h == t.nextId && d == h + 1
    requires u == Post(t.(switches := t.switches[d := w], nextId := d + 1), SwitchPosted, d, SwitchTo(RESET))
                    .(resets := t.resets[h := r], timers := t.timers + {h})
    requires UuidOf(t, r.handle) != Dev(t, x)
    ensures Keyed(u, x)
  {
    hide Count, SwitchTo;
    StillKeyed(t, u, x);
  }

  lemma StartResetKeyed(t: Tool, uuid: Uuid, e: Env)
    requires AllKeyed(t) && Waiting(t) && Inv(t) && forall o :: o in t.otms ==> Dev(t, o) != uuid
    ensures AllKeyed(StartReset(t, uuid, e).0)
  {
    FindHandleFinds(t, t.devices, uuid);
    IdsAreOld(t);
    hide Inv, FindHandle, Count, Keyed, SwitchTo, Waiting;
    var (u, h) := StartReset(t, uuid, e);
    if h.Some? {
      var r, d := u.resets[h.value], h.value + 1;
      assert UuidOf(t, r.handle) == uuid;
      forall x | x in t.otms ensures Keyed(u, x) {
        BesideNewReset(t, u, h.value, r, d, u.switches[d], x);
      }
    } else {
      SideChangeApart(t, u);
      ApartKeeps(t, u);
    }
  }

  lemma FoundKeyed(t: Tool, uuid: Uuid, owned: bool, e: Env)
    requires AllKeyed(t)
    ensures AllKeyed(Found(t, uuid, owned, e))
  {
    FoundOnly(t, uuid, owned, e);
    hide Count, Found;
    var u := Found(t, uuid, owned, e);
    forall x | x in t.otms ensures Keyed(u, x) {
      assert Keyed(t, x);
      StillKeyed(t, u, x);
    }
  }

  lemma ApartKeepsAll(t: Tool, u: Tool)
    requires AllKeyed(t) && Apart(t, u)
    ensures AllKeyed(u)
  {
    ApartKeeps(t, u);
    SettledKeepsHandles(t, u);
  }

  // The tool after transfer x made a step.
  lemma AsideKeepsAll(t: Tool, u: Tool, x: Id)
    requires AllKeyed(t) && Aside(t, u, x) && (x in u.otms ==> Keyed(u, x))
    ensures AllKeyed(u)
  {
    SettledKeepsHandles(t, u);
    forall o | o in u.otms ensures Keyed(u, o) {
      if o != x {
        assert Keyed(t, o);
        AsideKeeps(t, u, x, o);
      }
    }
  }

  // The request is answered: its transfer has none outstanding, the others are as before.
  lemma AnsweredStep(t: Tool, q: Id)
    requires AllKeyed(t) && Waiting(t) && q in t.outstanding
    requires IsTransfer(t.outstanding[q].handler) && t.outstanding[q].ctx in t.otms
    ensures var u, o := t.(outstanding := t.outstanding - {q}), t.outstanding[q].ctx;
            Between(u, o, Late(t.outstanding[q].handler)) && Aside(t, u, o)
  {
    hide Count;
    var u, o := t.(outstanding := t.outstanding - {q}), t.outstanding[q].ctx;
    assert Keyed(t, o) && Awaits(t, o, q);
    var p :| InStep(t, o, p);
    assert p == q;
    forall x: Id ensures !Awaits(u, o, x) {
      assert Awaits(t, o, x) ==> x == q;
    }
    forall x, y: Id | x in t.otms && x != o ensures Awaits(u, x, y) <==> Awaits(t, x, y) {
    }
  }

  lemma TransferStep(t: Tool, q: Id, r: Response, e: Env)
    requires AllKeyed(t) && Waiting(t) && q in t.outstanding && Orderly(t, Respond(q, r), e)
    requires IsTransfer(t.outstanding[q].handler)
    ensures var v, o := Deliver(t, q, r, e), t.outstanding[q].ctx;
            AllKeyed(v) && if o in t.otms then Aside(t, v, o) && (o !in v.otms ==> Outcome(t, v, o)) else v.otms == t.otms
  {
    var u, o, h := t.(outstanding := t.outstanding - {q}), t.outstanding[q].ctx, t.outstanding[q].handler;
    var v := Deliver(t, q, r, e);
    if o in t.otms {
      AnsweredStep(t, q);
      FreshStays(t, u, o, ParseDeviceUuid(e.stale, r.payload));
      hide Between, Aside, Outcome, Keyed, JustWorks, ParseDeviceUuid, AllKeyed, FreshUuid, OnlyFor;
      JustWorksStep(u, h, o, r, e);
      AsideChains(t, u, v, o);
      AsideKeepsAll(t, v, o);
      SameOutcome(t, u, v, o);
    } else {
      hide Between, Aside, Outcome, Keyed, ParseDeviceUuid, AllKeyed, FreshUuid, OnlyFor, Waiting, Orderly;
      NobodyWaits(t, q);
    }
  }

  // The answer to a request of a transfer that is over.
  lemma NobodyWaits(t: Tool, q: Id)
    requires AllKeyed(t) && q in t.outstanding && t.outstanding[q].ctx !in t.otms
    ensures AllKeyed(t.(outstanding := t.outstanding - {q}))
  {
    hide Keyed, HandlesOld;
    var u := t.(outstanding := t.outstanding - {q});
    forall x, y: Id | x in t.otms ensures Awaits(u, x, y) <==> Awaits(t, x, y) {
    }
    ApartKeepsAll(t, u);
  }

  lemma FreshStays(t: Tool, u: Tool, o: Id, w: Uuid)
    requires u == t.(outstanding := u.outstanding)
    ensures FreshUuid(t, o, w) ==> FreshUuid(u, o, w)
  {
  }

  lemma SameOutcome(t: Tool, u: Tool, v: Tool, o: Id)
    requires u == t.(outstanding := u.outstanding) && o in t.otms && (o !in v.otms ==> Outcome(u, v, o))
    ensures o !in v.otms ==> Outcome(t, v, o)
  {
  }

  // A transfer that times out ends without a credential.
  lemma TimeoutStep(t: Tool, x: Id)
    requires AllKeyed(t) && Inv(t) && Waiting(t)
    ensures var u := Timeout(t, x);
            AllKeyed(u) && forall o :: o in t.otms && o !in u.otms ==> Outcome(t, u, o)
  {
    hide Outcome, FreeOtm, FreeReset, FreeProv, AllKeyed;
    var u := Timeout(t, x);
    if x in t.otms && x in t.timers {
      TimedOutTransfer(t, x);
    } else if x in t.resets {
      TimedOutReset(t, x);
    } else if x in t.provs {
      TimedOutProv(t, x);
    }
  }

  lemma TimedOutReset(t: Tool, x: Id)
    requires AllKeyed(t) && x in t.resets
    ensures AllKeyed(FreeReset(t, x, -1)) && FreeReset(t, x, -1).otms == t.otms
  {
    FreeResetApart(t, x, -1);
    hide Apart, Keyed;
    ApartKeepsAll(t, FreeReset(t, x, -1));
  }

  lemma TimedOutProv(t: Tool, x: Id)
    requires AllKeyed(t) && x in t.provs
    ensures AllKeyed(FreeProv(t, x, -1)) && FreeProv(t, x, -1).otms == t.otms
  {
    hide Apart, Keyed, HandlesOld;
    SideChangeApart(t, FreeProv(t, x, -1));
    ApartKeepsAll(t, FreeProv(t, x, -1));
  }

  lemma TimedOutTransfer(t: Tool, x: Id)
    requires AllKeyed(t) && x in t.otms
    ensures var u := FreeOtm(t, x, -1); AllKeyed(u) && u.otms == t.otms - {x} && Outcome(t, u, x)
  {
    assert Keyed(t, x);
    var q :| InStep(t, x, q);
    hide Count, Outcome, Aside, FreeOtm, AllKeyed, OnlyFor;
    FreeOtmOutcome(t, t, x, -1, Late(t.outstanding[q].handler));
    AsideKeepsAll(t, FreeOtm(t, x, -1), x);
    FreeOtmOnly(t, x);
  }

  lemma FreeOtmOnly(t: Tool, x: Id)
    requires x in t.otms
    ensures forall status :: FreeOtm(t, x, status).otms == t.otms - {x}
  {
    hide Without, RemoveFirst, UuidOf;
  }

  // ----- the outcome of every transfer in an orderly run

  lemma RespondStep(t: Tool, q: Id, r: Response, e: Env)
    requires AllKeyed(t) && Inv(t) && Waiting(t) && Orderly(t, Respond(q, r), e)
    ensures var u := Deliver(t, q, r, e);
            AllKeyed(u) && forall o :: o in t.otms && o !in u.otms ==> Outcome(t, u, o)
  {
    var u := Deliver(t, q, r, e);
    if q in t.outstanding {
      var x, w := t.outstanding[q], t.(outstanding := t.outstanding - {q});
      hide AllKeyed, Inv, Waiting, Outcome, Deliver, Orderly;
      OthersGoOn(t, q, r, e);
      if IsTransfer(x.handler) {
        TransferStep(t, q, r, e);
      } else {
        SideStep(t, q, r, e);
      }
    }
  }

  // An answer that belongs to a reset or a provisioning leaves all transfers as they are.
  lemma SideStep(t: Tool, q: Id, r: Response, e: Env)
    requires AllKeyed(t) && Waiting(t) && q in t.outstanding && !IsTransfer(t.outstanding[q].handler)
    ensures AllKeyed(Deliver(t, q, r, e))
  {
    var x, w := t.outstanding[q], t.(outstanding := t.outstanding - {q});
    SideChangeApart(t, w);
    ApartKeepsAll(t, w);
    QuietKeepsWaiting(t, w);
    hide AllKeyed, Waiting, Apart, SwitchResponse, AceSent;
    SwitchResponseApart(w, x.handler, x.ctx, r, e);
    AceSentApart(w, x.ctx, r, e);
    ApartKeepsAll(w, Deliver(t, q, r, e));
  }

  // Only the transfer whose request was answered can end.
  lemma OthersGoOn(t: Tool, q: Id, r: Response, e: Env)
    requires q in t.outstanding
    ensures var u, x := Deliver(t, q, r, e), t.outstanding[q];
            forall o :: o in t.otms && (o != x.ctx || !IsTransfer(x.handler)) ==> o in u.otms
  {
    hide SwitchResponse, AceSent, JustWorks;
    var x, w := t.outstanding[q], t.(outstanding := t.outstanding - {q});
    SwitchLeavesTransfers(w, x.handler, x.ctx, r, e);
    AceLeavesTransfers(w, x.ctx, r, e);
    OneTransferEnds(w, x.handler, x.ctx, r, e);
  }

  lemma SwitchLeavesTransfers(t: Tool, h: Handler, d: Id, r: Response, e: Env)
    ensures SwitchResponse(t, h, d, r, e).otms == t.otms
  {
    hide FreeSwitch, ParseDos;
    if d in t.switches {
      EndedSwitchLeavesTransfers(t, d, 0, e);
      EndedSwitchLeavesTransfers(t, d, -1, e);
    }
  }

  lemma EndedSwitchLeavesTransfers(t: Tool, d: Id, status: int, e: Env)
    requires d in t.switches
    ensures FreeSwitch(t, d, status, e).otms == t.otms
  {
    hide Without, RemoveFirst, UuidOf, AceRequest;
  }

  lemma AceLeavesTransfers(t: Tool, p: Id, r: Response, e: Env)
    ensures AceSent(t, p, r, e).otms == t.otms
  {
  }

  lemma OneTransferEnds(t: Tool, h: Handler, o: Id, r: Response, e: Env)
    ensures forall x :: x in t.otms && x != o ==> x in JustWorks(t, h, o, r, e).otms
  {
    hide FreeOtm, UuidOf, ParseDos, ParseDeviceUuid;
    if o in t.otms {
      FreeOtmOnly(t, o);
      if h == Jw5 {
        FreeOtmOnly(LearnUuid(t, o, e, r), o);
      } else if h == Jw6 && e.session.None? {
        FreeOtmOnly(t.(creds := t.creds + [Cred(0, CREDTYPE_PSK, UuidOf(t, t.otms[o].handle), Unset, "", "")]), o);
      } else if h == Jw6 && e.session.Some? {
        FreeOtmOnly(t.(creds := t.creds + [OwnerCred(t, o, e.session.value)], nextCredid := t.nextCredid + 1), o);
      }
    }
  }

  lemma OrderlyStep(t: Tool, ev: Event, e: Env)
    requires AllKeyed(t) && Inv(t) && Waiting(t) && Orderly(t, ev, e)
    ensures var u := Next(t, ev, e);
            AllKeyed(u) && forall o :: o in t.otms && o !in u.otms ==> Outcome(t, u, o)
  {
    hide AllKeyed, Inv, Waiting, Outcome, Deliver, Timeout, FindHandle;
    match ev
    case BeginOtm(uuid) => StartOtmKeyed(t, uuid, e);
    case BeginReset(uuid) => StartResetKeyed(t, uuid, e);
    case BeginProvision(uuid, ace) =>
      hide StartProvision;
      StartProvisionKeyed(t, uuid, ace, e);
    case Respond(q, r) => RespondStep(t, q, r, e);
    case Fire(x) => TimeoutStep(t, x);
    case Discover(uuid, owned) => FoundKeyed(t, uuid, owned, e);
  }

  lemma StartProvisionKeyed(t: Tool, uuid: Uuid, ace: AceEntry, e: Env)
    requires AllKeyed(t) && Waiting(t)
    ensures var u := StartProvision(t, uuid, ace, e).0; AllKeyed(u) && u.otms == t.otms
  {
    hide AllKeyed, Waiting, FindHandle, SwitchTo;
    var u := StartProvision(t, uuid, ace, e).0;
    WaitingIsNew(t);
    SideChangeApart(t, u);
    ApartKeepsAll(t, u);
  }

  lemma WaitingIsNew(t: Tool)
    requires Waiting(t)
    ensures forall q :: q in t.outstanding ==> q < t.nextId
  {
  }

  ghost predicate OrderlyRun(t: Tool, evs: seq<(Event, Env)>)
    decreases |evs|
  {
    evs == [] || (OrderlyRun(t, evs[..|evs| - 1])
                  && Orderly(Run(t, evs[..|evs| - 1]), evs[|evs| - 1].0, evs[|evs| - 1].1))
  }

  lemma {:induction false} OrderlyRunKeyed(t: Tool, evs: seq<(Event, Env)>)
    requires AllKeyed(t) && Inv(t) && Waiting(t) && OrderlyRun(t, evs)
    ensures AllKeyed(Run(t, evs))
    decreases |evs|
  {
    if evs != [] {
      var init, last := evs[..|evs| - 1], evs[|evs| - 1];
      OrderlyRunKeyed(t, init);
      RunKeeps(t, init);
      OrderlyStep(Run(t, init), last.0, last.1);
    }
  }

  // Whenever, after any orderly run, the next event ends transfer o, the tool tells the outcome
  // and holds exactly one credential for the device on success and none on failure.
  lemma OutcomeDecidesCredential(t: Tool, evs: seq<(Event, Env)>, ev: Event, e: Env, o: Id)
    requires AllKeyed(t) && Inv(t) && Waiting(t) && OrderlyRun(t, evs) && Orderly(Run(t, evs), ev, e)
    requires o in Run(t, evs).otms && o !in Next(Run(t, evs), ev, e).otms
    ensures var before := Run(t, evs);
            var after := Next(before, ev, e);
            exists status ::
              && after.reports == before.reports + [Report(o, status)]
              && Count(after.creds, UuidOf(after, before.otms[o].handle)) == if status == 0 then 1 else 0
  {
    OrderlyRunKeyed(t, evs);
    RunKeeps(t, evs);
    OrderlyStep(Run(t, evs), ev, e);
  }

  lemma IdleIsFine(t: Tool)
    requires Idle(t)
    ensures Inv(t) && Waiting(t) && AllKeyed(t) && Home(t)
  {
  }
}
