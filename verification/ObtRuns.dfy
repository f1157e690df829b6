/** Every accepted procedure of the onboarding tool completes exactly once, in
    whatever order responses, errors, late responses and timeouts arrive. */
module ObtRuns {
  import opened Payload
  import opened AclModel
  import opened CredModel
  import opened DeviceModel
  import opened ObtHandles
  import opened ObtModel

  // ----- the invariant

  function Live(t: Tool): set<Id> {
    t.otms.Keys + t.resets.Keys + t.provs.Keys
  }

  function Told(reports: seq<Report>): set<Id> {
    set i | 0 <= i < |reports| :: reports[i].ctx
  }

  predicate ToldOnce(reports: seq<Report>) {
    forall i, j :: 0 <= i < j < |reports| ==> reports[i].ctx != reports[j].ctx
  }

  lemma TellOneMore(reports: seq<Report>, r: Report)
    requires ToldOnce(reports) && r.ctx !in Told(reports)
    ensures ToldOnce(reports + [r]) && Told(reports + [r]) == Told(reports) + {r.ctx}
  {
    var more := reports + [r];
    forall x | x in Told(reports) + {r.ctx} ensures x in Told(more) {
      if x == r.ctx {
        assert more[|reports|].ctx == x;
      } else {
        var i :| 0 <= i < |reports| && reports[i].ctx == x;
        assert more[i].ctx == x;
      }
    }
    forall i | 0 <= i < |reports| ensures more[i].ctx in Told(reports) {
      assert more[i] == reports[i];
    }
  }

  function Reported(t: Tool): set<Id> {
    Told(t.reports)
  }

  // Each running state switch serves exactly one live context, which points back at it.
  predicate SwitchServes(t: Tool, d: Id)
    requires d in t.switches
  {
    match t.switches[d].cb
    case HardReset(h) => h in t.resets && t.resets[h].switch == Some(d)
    case ProvisionAce(p) => p in t.provs && t.provs[p].switch == Some(d)
    case ProvisionDone(p) => p in t.provs && t.provs[p].switch == Some(d)
  }

  predicate CtxOfSwitch(t: Tool, x: Id, d: Id) {
    && d in t.switches
    && (t.switches[d].cb == HardReset(x) || t.switches[d].cb == ProvisionAce(x) || t.switches[d].cb == ProvisionDone(x))
  }

  // Contexts are distinct, each has its timeout pending, and none has been reported yet.
  ghost predicate Counted(t: Tool) {
    && t.otms.Keys !! t.resets.Keys && t.otms.Keys !! t.provs.Keys && t.resets.Keys !! t.provs.Keys
    && t.timers == Live(t)
    && ToldOnce(t.reports)
    && Live(t) !! Reported(t)
    && (forall x :: x in Live(t) ==> x < t.nextId)
    && (forall x :: x in Reported(t) ==> x < t.nextId)
    && (forall d :: d in t.switches ==> d < t.nextId)
  }

  // State switches and the contexts waiting for them refer to each other.
  ghost predicate Linked(t: Tool) {
    && (forall d :: d in t.switches ==> SwitchServes(t, d))
    && (forall h :: h in t.resets ==> t.resets[h].switch.Some? && CtxOfSwitch(t, h, t.resets[h].switch.value))
    && (forall p :: p in t.provs && t.provs[p].switch.Some? ==> CtxOfSwitch(t, p, t.provs[p].switch.value))
  }

  ghost predicate Inv(t: Tool) {
    Counted(t) && Linked(t)
  }

  // From t to u nothing that was accepted gets lost, and no report is taken back.
  ghost predicate Accounts(t: Tool, u: Tool) {
    Live(t) + Reported(t) <= Live(u) + Reported(u) && t.reports <= u.reports
  }

  lemma OneMoreReport(t: Tool, u: Tool, x: Id, status: int)
    requires Counted(t) && x in Live(t)
    requires u.reports == t.reports + [Report(x, status)] && u.timers == t.timers - {x} && u.nextId == t.nextId
    requires u.otms == t.otms - {x} && u.resets == t.resets - {x} && u.provs == t.provs - {x}
    requires u.switches.Keys <= t.switches.Keys
    ensures Counted(u) && Accounts(t, u) && x in Reported(u) && Live(u) == Live(t) - {x}
  {
    hide Told, ToldOnce;
    TellOneMore(t.reports, Report(x, status));
  }

  // A context has one kind only, so removing it from the other kinds changes nothing.
  lemma OneKind(t: Tool, x: Id)
    requires Counted(t)
    ensures x in t.otms ==> t.resets - {x} == t.resets && t.provs - {x} == t.provs
    ensures x in t.resets ==> t.otms - {x} == t.otms && t.provs - {x} == t.provs
    ensures x in t.provs ==> t.otms - {x} == t.otms && t.resets - {x} == t.resets
    ensures x in t.otms || x in t.resets || x in t.provs ==> x in Live(t)
  {
    hide Told, ToldOnce;
  }

  // Links survive the end of context x when the switch it waits for, if any, ends with it.
  lemma LinksWithout(t: Tool, u: Tool, x: Id, d: Option<Id>)
    requires forall y :: y in t.switches ==> SwitchServes(t, y)
    requires forall h :: h in t.resets && h != x ==> t.resets[h].switch.Some? && CtxOfSwitch(t, h, t.resets[h].switch.value)
    requires forall p :: p in t.provs && p != x && t.provs[p].switch.Some? ==> CtxOfSwitch(t, p, t.provs[p].switch.value)
    requires d.Some? ==> CtxOfSwitch(t, x, d.value)
    requires x in t.resets ==> d == t.resets[x].switch
    requires x in t.provs ==> d == t.provs[x].switch
    requires u.resets == t.resets - {x} && u.provs == t.provs - {x}
    requires u.switches == if d.Some? then t.switches - {d.value} else t.switches
    ensures Linked(u)
  {
    forall y | y in u.switches ensures SwitchServes(u, y) {
      assert SwitchServes(t, y);
    }
  }

  lemma FreeOtmKeeps(t: Tool, o: Id, status: int)
    requires Inv(t) && o in t.otms
    ensures var u := FreeOtm(t, o, status); Inv(u) && Accounts(t, u) && o in Reported(u)
  {
    hide Without, RemoveFirst, UuidOf, Counted, Accounts, Reported, Live, Linked;
    OneKind(t, o);
    var u := FreeOtm(t, o, status);
    OneMoreReport(t, u, o, status);
    SameLinks(t, u);
  }

  lemma SameLinks(t: Tool, u: Tool)
    requires Linked(t) && u.switches == t.switches && u.resets == t.resets && u.provs == t.provs
    ensures Linked(u)
  {
    forall d | d in u.switches ensures SwitchServes(u, d) {
      assert SwitchServes(t, d);
    }
  }

  // Ending a reset or a provisioning also ends the state switch it waits for.
  lemma FreeResetKeeps(t: Tool, h: Id, status: int)
    requires Counted(t) && h in t.resets
    requires forall d :: d in t.switches ==> SwitchServes(t, d)
    requires forall x :: x in t.resets && (x != h || t.resets[x].switch.Some?) ==>
               t.resets[x].switch.Some? && CtxOfSwitch(t, x, t.resets[x].switch.value)
    requires forall p :: p in t.provs && t.provs[p].switch.Some? ==> CtxOfSwitch(t, p, t.provs[p].switch.value)
    ensures var u := FreeReset(t, h, status); Inv(u) && Accounts(t, u) && h in Reported(u)
  {
    hide Without, RemoveFirst, UuidOf, Counted, Accounts, Reported, Live, Linked, SwitchServes, CtxOfSwitch;
    OneKind(t, h);
    NotBoth(t, h);
    var u := FreeReset(t, h, status);
    OneMoreReport(t, u, h, if status == 0 then 0 else -1);
    LinksWithout(t, u, h, t.resets[h].switch);
  }

  lemma NotBoth(t: Tool, x: Id)
    requires Counted(t)
    ensures x in t.resets ==> x !in t.provs
  {
  }

  lemma FreeProvKeeps(t: Tool, p: Id, status: int)
    requires Inv(t) && p in t.provs
    ensures var u := FreeProv(t, p, status); Inv(u) && Accounts(t, u) && p in Reported(u)
  {
    OneKind(t, p);
    NotBoth(t, p);
    hide Without, RemoveFirst, UuidOf, Counted, Accounts, Reported, Live, SwitchServes, CtxOfSwitch;
    var u := FreeProv(t, p, status);
    OneMoreReport(t, u, p, status);
    LinksWithout(t, u, p, t.provs[p].switch);
  }

  // Changes to anything but contexts, timers, switches and reports keep the invariant.
  lemma UntouchedKeeps(t: Tool, u: Tool)
    requires Inv(t) && t.nextId <= u.nextId
    requires u.otms.Keys == t.otms.Keys && u.resets == t.resets && u.provs == t.provs && u.switches == t.switches
    requires u.timers == t.timers && u.reports == t.reports
    ensures Inv(u) && Accounts(t, u)
  {
    hide Told, ToldOnce;
  }

  lemma AccountsChains(t: Tool, u: Tool, v: Tool)
    requires Accounts(t, u) && Accounts(u, v)
    ensures Accounts(t, v)
  {
  }

  // ----- ownership transfer

  lemma PostKeeps(t: Tool, handler: Handler, ctx: Id, request: ToolRequest)
    requires Inv(t)
    ensures Inv(Post(t, handler, ctx, request)) && Accounts(t, Post(t, handler, ctx, request))
  {
    UntouchedKeeps(t, Post(t, handler, ctx, request));
  }

  lemma ContinueKeeps(t: Tool, u: Tool, e: Env, handler: Handler, o: Id, request: ToolRequest)
    requires Inv(t) && o in t.otms
    requires u == t.(creds := u.creds, handles := u.handles, nextCredid := u.nextCredid)
    ensures Inv(Continue(u, e, handler, o, request)) && Accounts(t, Continue(u, e, handler, o, request))
  {
    hide Inv, Accounts, FreeOtm, Post;
    UntouchedKeeps(t, u);
    FreeOtmKeeps(u, o, -1);
    PostKeeps(u, handler, o, request);
    AccountsChains(t, u, Continue(u, e, handler, o, request));
  }

  lemma JustWorksKeeps(t: Tool, h: Handler, o: Id, r: Response, e: Env)
    requires Inv(t)
    ensures Inv(JustWorks(t, h, o, r, e)) && Accounts(t, JustWorks(t, h, o, r, e))
  {
    hide Inv, Accounts, FreeOtm, Continue, ParseDos, ParseDeviceUuid, OwnerCred, UuidOf;
    UntouchedIsFine(t);
    if o in t.otms {
      FreeOtmKeeps(t, o, -1);
      FreeOtmKeeps(t, o, 0);
      if h == Jw6 {
        PairKeeps(t, o, e);
      } else if h == Jw5 {
        ContinueKeeps(t, LearnUuid(t, o, e, r), e, Jw6, o, TakeAcl(t.uuid));
      } else {
        ForallContinue(t, o, e);
      }
    }
  }

  lemma UntouchedIsFine(t: Tool)
    ensures Accounts(t, t)
  {
  }

  lemma ForallContinue(t: Tool, o: Id, e: Env)
    requires Inv(t) && o in t.otms
    ensures forall h, q :: Inv(Continue(t, e, h, o, q)) && Accounts(t, Continue(t, e, h, o, q))
  {
    forall h, q ensures Inv(Continue(t, e, h, o, q)) && Accounts(t, Continue(t, e, h, o, q)) {
      ContinueKeeps(t, t, e, h, o, q);
    }
  }

  lemma PairKeeps(t: Tool, o: Id, e: Env)
    requires Inv(t) && o in t.otms
    ensures Inv(PairWithDevice(t, o, e)) && Accounts(t, PairWithDevice(t, o, e))
  {
    hide Inv, Accounts, FreeOtm, Continue, OwnerCred, UuidOf;
    if !e.room {
      FreeOtmKeeps(t, o, -1);
    } else if e.session.None? {
      var u := t.(creds := t.creds + [Cred(0, CREDTYPE_PSK, UuidOf(t, t.otms[o].handle), Unset, "", "")]);
      UntouchedKeeps(t, u);
      FreeOtmKeeps(u, o, -1);
      AccountsChains(t, u, FreeOtm(u, o, -1));
    } else {
      var u := t.(creds := t.creds + [OwnerCred(t, o, e.session.value)], nextCredid := t.nextCredid + 1);
      ContinueKeeps(t, u, e, Jw7, o, TakeCred(t.uuid, e.session));
    }
  }

  // ----- starting

  lemma StartOtmKeeps(t: Tool, uuid: Uuid, e: Env)
    requires Inv(t)
    ensures var (u, o) := StartOtm(t, uuid, e);
            Inv(u) && Accounts(t, u) && (o.Some? ==> o.value in Live(u) && o.value !in Live(t) + Reported(t))
  {
    hide Told, ToldOnce, FindHandle;
  }

  // A new context x with its timeout, waiting for the new switch x + 1.
  lemma NewContextCounts(t: Tool, u: Tool, x: Id)
    requires Counted(t) && x == t.nextId && u.nextId == x + 3
    requires u.reports == t.reports && u.timers == t.timers + {x} && u.otms == t.otms
    requires u.switches.Keys == t.switches.Keys + {x + 1}
    requires || (u.resets.Keys == t.resets.Keys + {x} && u.provs == t.provs)
             || (u.resets == t.resets && u.provs.Keys == t.provs.Keys + {x})
    ensures Counted(u) && Accounts(t, u) && x in Live(u) && x !in Live(t) + Reported(t)
  {
    hide Told, ToldOnce;
  }

  lemma IdsAreOld(t: Tool)
    requires Counted(t)
    ensures forall x :: x in t.switches || x in t.otms || x in t.resets || x in t.provs ==> x < t.nextId
  {
    hide Told, ToldOnce;
    assert forall x :: x in t.otms || x in t.resets || x in t.provs ==> x in Live(t);
  }

  // The new switch d serves the new context x, the old links stay.
  lemma NewResetLinks(t: Tool, u: Tool, x: Id, d: Id, r: ResetCtx, w: SwitchCtx)
    requires Linked(t) && d !in t.switches && x !in t.resets && x !in t.provs
    requires u.switches == t.switches[d := w] && u.resets == t.resets[x := r] && u.provs == t.provs
    requires w.cb == HardReset(x) && r.switch == Some(d)
    ensures Linked(u)
  {
    forall y | y in u.switches ensures SwitchServes(u, y) {
      assert y != d ==> SwitchServes(t, y);
    }
  }

  lemma NewProvLinks(t: Tool, u: Tool, x: Id, d: Id, r: ProvCtx, w: SwitchCtx)
    requires Linked(t) && d !in t.switches && x !in t.resets && x !in t.provs
    requires u.switches == t.switches[d := w] && u.provs == t.provs[x := r] && u.resets == t.resets
    requires w.cb == ProvisionAce(x) && r.switch == Some(d)
    ensures Linked(u)
  {
    forall y | y in u.switches ensures SwitchServes(u, y) {
      assert y != d ==> SwitchServes(t, y);
    }
  }

  lemma StartResetKeeps(t: Tool, uuid: Uuid, e: Env)
    requires Inv(t)
    ensures var (u, h) := StartReset(t, uuid, e);
            Inv(u) && Accounts(t, u) && (h.Some? ==> h.value in Live(u) && h.value !in Live(t) + Reported(t))
  {
    var (u, h) := StartReset(t, uuid, e);
    if h.Some? {
      IdsAreOld(t);
      hide Counted, Accounts, Live, Reported, FindHandle, Linked;
      NewContextCounts(t, u, h.value);
      NewResetLinks(t, u, h.value, h.value + 1, u.resets[h.value], u.switches[h.value + 1]);
    } else {
      UntouchedKeeps(t, u);
    }
  }

  lemma StartProvisionKeeps(t: Tool, uuid: Uuid, ace: AceEntry, e: Env)
    requires Inv(t)
    ensures var (u, p) := StartProvision(t, uuid, ace, e);
            Inv(u) && Accounts(t, u) && (p.Some? ==> p.value in Live(u) && p.value !in Live(t) + Reported(t))
  {
    var (u, p) := StartProvision(t, uuid, ace, e);
    if p.Some? {
      IdsAreOld(t);
      hide Counted, Accounts, Live, Reported, FindHandle, Linked;
      NewContextCounts(t, u, p.value);
      NewProvLinks(t, u, p.value, p.value + 1, u.provs[p.value], u.switches[p.value + 1]);
    } else {
      UntouchedKeeps(t, u);
    }
  }

  // ----- state switches, hard reset and provisioning

  // The switch is over: its context no longer waits for it.
  lemma SwitchOverKeeps(t: Tool, d: Id, p: Id)
    requires Inv(t) && d in t.switches && p in t.provs
    requires t.switches[d].cb == ProvisionAce(p) || t.switches[d].cb == ProvisionDone(p)
    ensures var u := Released(t.(switches := t.switches - {d}), p); Inv(u) && Accounts(t, u)
  {
    var u := Released(t.(switches := t.switches - {d}), p);
    assert u.provs.Keys == t.provs.Keys;
    FewerSwitchesCount(t, u);
    NotBoth(t, p);
    ReleasedLinks(t, u, d, p);
  }

  lemma FewerSwitchesCount(t: Tool, u: Tool)
    requires Counted(t) && u.nextId == t.nextId && u.timers == t.timers && u.reports == t.reports
    requires u.otms == t.otms && u.resets == t.resets && u.provs.Keys == t.provs.Keys
    requires u.switches.Keys <= t.switches.Keys
    ensures Counted(u) && Accounts(t, u)
  {
    hide Told, ToldOnce;
  }

  lemma ReleasedLinks(t: Tool, u: Tool, d: Id, p: Id)
    requires Linked(t) && d in t.switches && p in t.provs && p !in t.resets
    requires t.switches[d].cb == ProvisionAce(p) || t.switches[d].cb == ProvisionDone(p)
    requires u == Released(t.(switches := t.switches - {d}), p)
    ensures Linked(u)
  {
    assert SwitchServes(t, d);
    forall y | y in u.switches ensures SwitchServes(u, y) {
      assert SwitchServes(t, y);
    }
  }

  lemma FreeSwitchKeeps(t: Tool, d: Id, status: int, e: Env)
    requires Inv(t) && d in t.switches
    ensures Inv(FreeSwitch(t, d, status, e)) && Accounts(t, FreeSwitch(t, d, status, e))
  {
    assert SwitchServes(t, d);
    var u := t.(switches := t.switches - {d});
    match t.switches[d].cb
    case HardReset(h) =>
      ResetSwitchOver(t, d, h, status);
    case ProvisionAce(p) =>
      SwitchOverKeeps(t, d, p);
      var v := Released(u, p);
      hide Inv, Accounts, FreeProv, Post;
      FreeProvKeeps(v, p, -1);
      PostKeeps(v, AclPosted, p, AceRequest(t.provs[p].ace));
      AccountsChains(t, v, SendAce(u, p, status, e));
    case ProvisionDone(p) =>
      SwitchOverKeeps(t, d, p);
      var v := Released(u, p);
      hide Inv, Accounts, FreeProv;
      FreeProvKeeps(v, p, if status >= 0 then 0 else -1);
      AccountsChains(t, v, ProvisionOver(u, p, status));
  }

  lemma ResetSwitchOver(t: Tool, d: Id, h: Id, status: int)
    requires Inv(t) && d in t.switches && t.switches[d].cb == HardReset(h)
    ensures var u := FreeSwitch(t, d, status, Env(false, false, None, NIL)); Inv(u) && Accounts(t, u)
  {
    hide Told, ToldOnce, Without, RemoveFirst;
    assert SwitchServes(t, d);
    var v := t.(switches := t.switches - {d}, resets := t.resets[h := t.resets[h].(switch := None)]);
    assert v.resets.Keys == t.resets.Keys;
    assert Counted(v) && Accounts(t, v);
    forall y | y in v.switches ensures SwitchServes(v, y) {
      assert SwitchServes(t, y);
    }
    FreeResetKeeps(v, h, status);
    AccountsChains(t, v, FreeReset(v, h, status));
  }

  lemma SwitchResponseKeeps(t: Tool, h: Handler, d: Id, r: Response, e: Env)
    requires Inv(t)
    ensures Inv(SwitchResponse(t, h, d, r, e)) && Accounts(t, SwitchResponse(t, h, d, r, e))
  {
    hide Inv, Accounts, FreeSwitch, Post, ParseDos;
    UntouchedIsFine(t);
    if d in t.switches {
      FreeSwitchKeeps(t, d, -1, e);
      FreeSwitchKeeps(t, d, 0, e);
      PostKeeps(t, SwitchRead, d, GetPstat);
    }
  }

  lemma NewSwitchCounts(t: Tool, u: Tool)
    requires Counted(t) && u.nextId == t.nextId + 2 && u.switches.Keys == t.switches.Keys + {t.nextId}
    requires u.otms == t.otms && u.resets == t.resets && u.provs.Keys == t.provs.Keys
    requires u.timers == t.timers && u.reports == t.reports
    ensures Counted(u) && Accounts(t, u)
  {
    hide Told, ToldOnce;
  }

  lemma AceSentKeeps(t: Tool, p: Id, r: Response, e: Env)
    requires Inv(t) && (p in t.provs ==> t.provs[p].switch.None?)
    ensures Inv(AceSent(t, p, r, e)) && Accounts(t, AceSent(t, p, r, e))
  {
    if p !in t.provs {
    } else if !r.ok {
      FreeProvKeeps(t, p, -1);
    } else if !e.room || !e.sent {
      assert Released(t, p).provs == t.provs;
      FreeProvKeeps(t, p, -1);
    } else {
      IdsAreOld(t);
      NotBoth(t, p);
      var u, d := AceSent(t, p, r, e), t.nextId;
      assert u.provs.Keys == t.provs.Keys;
      hide AceSent, Counted, Accounts, Linked;
      NewSwitchCounts(t, u);
      SwitchBackLinks(t, u, p, d);
    }
  }

  // Context p waits for the new switch d, the old links stay.
  lemma SwitchBackLinks(t: Tool, u: Tool, p: Id, d: Id)
    requires Linked(t) && p in t.provs && t.provs[p].switch.None? && p !in t.resets && d !in t.switches
    requires d in u.switches && u.switches == t.switches[d := u.switches[d]] && u.switches[d].cb == ProvisionDone(p)
    requires u.provs == t.provs[p := t.provs[p].(switch := Some(d))] && u.resets == t.resets
    ensures Linked(u)
  {
    forall y | y in u.switches ensures SwitchServes(u, y) {
      assert y != d ==> SwitchServes(t, y);
    }
  }

  // ----- a posted ACE is answered before the next state switch

  ghost predicate IsAceOf(t: Tool, q: Id, p: Id) {
    q in t.outstanding && t.outstanding[q].handler == AclPosted && t.outstanding[q].ctx == p
  }

  // While a posted ACE is unanswered its context waits for that answer only.
  ghost predicate Waiting(t: Tool) {
    && (forall q :: q in t.outstanding ==> t.outstanding[q].ctx < t.nextId && q < t.nextId)
    && (forall q, p :: p in t.provs && IsAceOf(t, q, p) ==> t.provs[p].switch.None?)
    && (forall q, q', p :: p in t.provs && IsAceOf(t, q, p) && IsAceOf(t, q', p) ==> q == q')
  }

  // Contexts may go, and requests other than ACEs may be added.
  ghost predicate Quiet(t: Tool, u: Tool) {
    && t.nextId <= u.nextId
    && (forall p :: p in u.provs ==> p in t.provs && u.provs[p] == t.provs[p])
    && (forall q :: q in u.outstanding ==>
          && q < u.nextId
          && ((q in t.outstanding && u.outstanding[q] == t.outstanding[q])
              || (u.outstanding[q].handler != AclPosted && u.outstanding[q].ctx < u.nextId)))
  }

  lemma QuietKeepsWaiting(t: Tool, u: Tool)
    requires Waiting(t) && Quiet(t, u)
    ensures Waiting(u)
  {
    assert forall q, p :: p in u.provs && IsAceOf(u, q, p) ==> IsAceOf(t, q, p);
  }

  lemma FreeOtmIsQuiet(t: Tool, u: Tool, o: Id, status: int)
    requires o in u.otms && Quiet(t, u)
    ensures Quiet(t, FreeOtm(u, o, status))
  {
    hide Without, RemoveFirst, UuidOf;
  }

  lemma ContinueIsQuiet(t: Tool, u: Tool, e: Env, handler: Handler, o: Id, request: ToolRequest)
    requires o in u.otms && o < t.nextId && Quiet(t, u) && handler != AclPosted
    ensures Quiet(t, Continue(u, e, handler, o, request))
  {
    hide FreeOtm;
    FreeOtmIsQuiet(t, u, o, -1);
  }

  lemma JustWorksIsQuiet(t: Tool, h: Handler, o: Id, r: Response, e: Env)
    requires Waiting(t) && (o in t.otms ==> o < t.nextId)
    ensures Quiet(t, JustWorks(t, h, o, r, e))
  {
    hide UuidOf, ParseDos, ParseDeviceUuid, FreeOtm, Continue, Quiet;
    QuietIsFine(t);
    if o in t.otms {
      FreeOtmIsQuiet(t, t, o, -1);
      FreeOtmIsQuiet(t, t, o, 0);
      if r.ok {
        if h == Jw5 {
          LearnIsQuiet(t, o, e, r);
          ContinueIsQuiet(t, LearnUuid(t, o, e, r), e, Jw6, o, TakeAcl(t.uuid));
        } else if h == Jw6 {
          PairIsQuiet(t, o, e);
        } else {
          forall k, q | k != AclPosted ensures Quiet(t, Continue(t, e, k, o, q)) {
            ContinueIsQuiet(t, t, e, k, o, q);
          }
        }
      }
    }
  }

  lemma LearnIsQuiet(t: Tool, o: Id, e: Env, r: Response)
    requires Waiting(t) && o in t.otms
    ensures Quiet(t, LearnUuid(t, o, e, r))
  {
  }

  lemma PairIsQuiet(t: Tool, o: Id, e: Env)
    requires Waiting(t) && o in t.otms && o < t.nextId
    ensures Quiet(t, PairWithDevice(t, o, e))
  {
    hide UuidOf, FreeOtm, Continue, OwnerCred;
    FreeOtmIsQuiet(t, t, o, -1);
    if e.session.None? {
      FreeOtmIsQuiet(t, t.(creds := t.creds + [Cred(0, CREDTYPE_PSK, UuidOf(t, t.otms[o].handle), Unset, "", "")]), o, -1);
    } else {
      var u := t.(creds := t.creds + [OwnerCred(t, o, e.session.value)], nextCredid := t.nextCredid + 1);
      ContinueIsQuiet(t, u, e, Jw7, o, TakeCred(t.uuid, e.session));
    }
  }

  lemma SendAceKeepsWaiting(t: Tool, p: Id, status: int, e: Env)
    requires Waiting(t) && p < t.nextId && forall q :: !IsAceOf(t, q, p)
    ensures Waiting(SendAce(t, p, status, e))
  {
    var u := SendAce(t, p, status, e);
    assert forall q, x :: IsAceOf(u, q, x) ==> IsAceOf(t, q, x) || (q == t.nextId && x == p && status >= 0 && e.sent);
  }

  lemma FreeSwitchKeepsWaiting(t: Tool, d: Id, status: int, e: Env)
    requires Inv(t) && Waiting(t) && d in t.switches
    ensures Waiting(FreeSwitch(t, d, status, e))
  {
    hide Without, RemoveFirst, UuidOf;
    var u := t.(switches := t.switches - {d});
    assert SwitchServes(t, d);
    QuietKeepsWaiting(t, u);
    match t.switches[d].cb
    case HardReset(h) =>
      hide SendAce, ProvisionOver, HardResetDone, Inv, Waiting, SwitchServes;
      OverIsQuiet(u, h, status);
      QuietKeepsWaiting(u, HardResetDone(u, h, status));
    case ProvisionAce(p) =>
      hide HardResetDone, ProvisionOver, SendAce, Counted;
      assert forall q :: IsAceOf(u, q, p) ==> IsAceOf(t, q, p);
      PIsOld(t, p);
      SendAceKeepsWaiting(u, p, status, e);
    case ProvisionDone(p) =>
      hide HardResetDone, SendAce, ProvisionOver, Inv, Waiting, SwitchServes;
      OverIsQuiet(u, p, status);
      QuietKeepsWaiting(u, ProvisionOver(u, p, status));
  }

  lemma PIsOld(t: Tool, p: Id)
    requires Inv(t) && p in t.provs
    ensures p < t.nextId
  {
    IdsAreOld(t);
  }

  lemma OverIsQuiet(t: Tool, x: Id, status: int)
    requires Waiting(t)
    ensures Quiet(t, HardResetDone(t, x, status)) && Quiet(t, ProvisionOver(t, x, status))
  {
    hide Without, RemoveFirst, UuidOf;
  }

  lemma SwitchResponseKeepsWaiting(t: Tool, h: Handler, d: Id, r: Response, e: Env)
    requires Inv(t) && Waiting(t)
    ensures Waiting(SwitchResponse(t, h, d, r, e))
  {
    hide FreeSwitch, Counted, Linked, ParseDos;
    if d in t.switches {
      FreeSwitchKeepsWaiting(t, d, -1, e);
      FreeSwitchKeepsWaiting(t, d, 0, e);
      assert d < t.nextId by { DIsOld(t, d); }
      if h == SwitchPosted && r.ok && e.sent {
        QuietKeepsWaiting(t, Post(t, SwitchRead, d, GetPstat));
      }
    }
  }

  lemma DIsOld(t: Tool, d: Id)
    requires Inv(t) && d in t.switches
    ensures d < t.nextId
  {
  }

  lemma AceSentKeepsWaiting(t: Tool, p: Id, r: Response, e: Env)
    requires Inv(t) && Waiting(t) && forall q :: !IsAceOf(t, q, p)
    ensures Waiting(AceSent(t, p, r, e))
  {
    hide Counted, Linked;
    var u := AceSent(t, p, r, e);
    assert forall q, x :: IsAceOf(u, q, x) ==> IsAceOf(t, q, x);
  }

  lemma FreeResetIsQuiet(t: Tool, h: Id, status: int)
    requires Waiting(t) && h in t.resets
    ensures Quiet(t, FreeReset(t, h, status))
  {
    hide Without, RemoveFirst, UuidOf;
  }

  lemma FreeProvIsQuiet(t: Tool, p: Id, status: int)
    requires Waiting(t) && p in t.provs
    ensures Quiet(t, FreeProv(t, p, status))
  {
  }

  lemma StartIsQuiet(t: Tool, uuid: Uuid, e: Env)
    requires Waiting(t)
    ensures Quiet(t, StartOtm(t, uuid, e).0) && Quiet(t, StartReset(t, uuid, e).0)
  {
    hide FindHandle;
  }

  lemma StartProvisionKeepsWaiting(t: Tool, uuid: Uuid, ace: AceEntry, e: Env)
    requires Waiting(t)
    ensures Waiting(StartProvision(t, uuid, ace, e).0)
  {
    hide FindHandle;
    var u := StartProvision(t, uuid, ace, e).0;
    assert forall q: Id, p: Id :: IsAceOf(u, q, p) ==> IsAceOf(t, q, p) && p < t.nextId;
  }

  // ----- whole runs

  lemma DeliverKeeps(t: Tool, q: Id, r: Response, e: Env)
    requires Inv(t) && Waiting(t)
    ensures var u := Deliver(t, q, r, e); Inv(u) && Waiting(u) && Accounts(t, u)
  {
    if q in t.outstanding {
      var x := t.outstanding[q];
      var u := t.(outstanding := t.outstanding - {q});
      UntouchedKeeps(t, u);
      QuietKeepsWaiting(t, u);
      IdsAreOld(u);
      var v := Deliver(t, q, r, e);
      if x.handler == SwitchPosted || x.handler == SwitchRead {
        hide Inv, Waiting, Accounts, SwitchResponse;
        SwitchResponseKeeps(u, x.handler, x.ctx, r, e);
        SwitchResponseKeepsWaiting(u, x.handler, x.ctx, r, e);
      } else if x.handler == AclPosted {
        assert x.ctx in t.provs ==> IsAceOf(t, q, x.ctx);
        assert forall y :: IsAceOf(u, y, x.ctx) ==> y != q && IsAceOf(t, y, x.ctx);
        hide Inv, Accounts, AceSent;
        AceSentKeeps(u, x.ctx, r, e);
        if x.ctx in u.provs {
          AceSentKeepsWaiting(u, x.ctx, r, e);
        }
      } else {
        hide Inv, Accounts, JustWorks;
        JustWorksKeeps(u, x.handler, x.ctx, r, e);
        JustWorksIsQuiet(u, x.handler, x.ctx, r, e);
        QuietKeepsWaiting(u, v);
      }
      AccountsChains(t, u, v);
    } else {
      UntouchedIsFine(t);
    }
  }

  // A timeout that fires reports its context.
  lemma TimeoutReports(t: Tool, x: Id)
    requires Inv(t) && Waiting(t)
    ensures var u := Timeout(t, x); Inv(u) && Waiting(u) && Accounts(t, u) && (x in Live(t) ==> x in Reported(u))
  {
    hide Quiet, Waiting, Accounts, FreeOtm, FreeReset, FreeProv, Reported;
    var u := Timeout(t, x);
    UntouchedIsFine(t);
    if x in t.otms {
      FreeOtmKeeps(t, x, -1);
      QuietIsFine(t);
      FreeOtmIsQuiet(t, t, x, -1);
      QuietKeepsWaiting(t, u);
    } else if x in t.resets {
      FreeResetKeeps(t, x, -1);
      FreeResetIsQuiet(t, x, -1);
      QuietKeepsWaiting(t, u);
    } else if x in t.provs {
      FreeProvKeeps(t, x, -1);
      FreeProvIsQuiet(t, x, -1);
      QuietKeepsWaiting(t, u);
    }
  }

  lemma QuietIsFine(t: Tool)
    requires Waiting(t)
    ensures Quiet(t, t)
  {
  }

  lemma NextKeeps(t: Tool, ev: Event, e: Env)
    requires Inv(t) && Waiting(t)
    ensures var u := Next(t, ev, e); Inv(u) && Waiting(u) && Accounts(t, u)
  {
    hide Inv, Waiting, Accounts, StartOtm, StartReset, StartProvision, Deliver, Timeout;
    var u := Next(t, ev, e);
    match ev
    case BeginOtm(uuid) =>
      StartOtmKeeps(t, uuid, e);
      StartIsQuiet(t, uuid, e);
      QuietKeepsWaiting(t, u);
    case BeginReset(uuid) =>
      StartResetKeeps(t, uuid, e);
      StartIsQuiet(t, uuid, e);
      QuietKeepsWaiting(t, u);
    case BeginProvision(uuid, ace) =>
      StartProvisionKeeps(t, uuid, ace, e);
      StartProvisionKeepsWaiting(t, uuid, ace, e);
    case Respond(q, r) =>
      DeliverKeeps(t, q, r, e);
    case Fire(x) =>
      TimeoutReports(t, x);
    case Discover(uuid, owned) =>
      FoundKeeps(t, uuid, owned, e);
  }

  lemma FoundKeeps(t: Tool, uuid: Uuid, owned: bool, e: Env)
    requires Inv(t) && Waiting(t)
    ensures var u := Found(t, uuid, owned, e); Inv(u) && Waiting(u) && Accounts(t, u)
  {
    hide FindHandle, Without, Inv, Accounts;
    var u := Found(t, uuid, owned, e);
    UntouchedKeeps(t, u);
    QuietKeepsWaiting(t, u);
  }

  lemma {:induction false} RunKeeps(t: Tool, evs: seq<(Event, Env)>)
    requires Inv(t) && Waiting(t)
    ensures Inv(Run(t, evs)) && Waiting(Run(t, evs)) && Accounts(t, Run(t, evs))
    decreases |evs|
  {
    if evs == [] {
      UntouchedIsFine(t);
    } else {
      var u, last := Run(t, evs[..|evs| - 1]), evs[|evs| - 1];
      RunKeeps(t, evs[..|evs| - 1]);
      NextKeeps(u, last.0, last.1);
      AccountsChains(t, u, Next(u, last.0, last.1));
    }
  }

  // How often completion was reported for x.
  function TimesTold(reports: seq<Report>, x: Id): nat {
    if reports == [] then 0
    else TimesTold(reports[..|reports| - 1], x) + if reports[|reports| - 1].ctx == x then 1 else 0
  }

  lemma {:induction false} ToldOnceCounts(reports: seq<Report>, x: Id)
    requires ToldOnce(reports)
    ensures TimesTold(reports, x) == if x in Told(reports) then 1 else 0
  {
    if reports != [] {
      var init, last := reports[..|reports| - 1], reports[|reports| - 1];
      assert reports == init + [last];
      assert forall i :: 0 <= i < |init| ==> init[i] == reports[i];
      ToldOnceCounts(init, x);
      assert last.ctx !in Told(init);
      TellOneMore(init, last);
    }
  }

  // A procedure that was accepted and has context x: after any further events either it
  // still runs, is unreported and its timeout is pending, or it was reported exactly once.
  // While nothing is started on a device that is in the way, no context loses its device.
  lemma CompletesExactlyOnce(t: Tool, x: Id, evs: seq<(Event, Env)>)
    requires Inv(t) && Waiting(t) && x in Live(t)
    ensures var u := Run(t, evs);
            && TimesTold(u.reports, x) == (if x in Live(u) then 0 else 1)
            && (x in Live(u) ==> x in u.timers && TimesTold(Timeout(u, x).reports, x) == 1)
            && (Home(t) && UnsharedRun(t, evs) ==> Home(u))
  {
    hide Home, Waiting, Linked, ToldOnce, Timeout, Run;
    var u := Run(t, evs);
    RunKeeps(t, evs);
    ToldOnceCounts(u.reports, x);
    if x in Live(u) {
      TimeoutReports(u, x);
      ToldOnceCounts(Timeout(u, x).reports, x);
    }
    if Home(t) && UnsharedRun(t, evs) {
      RunStaysHome(t, evs);
    }
  }

  // The context of a call that is accepted.
  function Accepted(t: Tool, ev: Event, e: Env): Option<Id> {
    match ev
    case BeginOtm(uuid) => StartOtm(t, uuid, e).1
    case BeginReset(uuid) => StartReset(t, uuid, e).1
    case BeginProvision(uuid, ace) => StartProvision(t, uuid, ace, e).1
    case _ => None
  }

  lemma AcceptedIsNew(t: Tool, ev: Event, e: Env)
    requires Inv(t) && Accepted(t, ev, e).Some?
    ensures var x := Accepted(t, ev, e).value; x in Live(Next(t, ev, e)) && x !in Live(t) + Reported(t)
  {
    hide StartOtm, StartReset, StartProvision, Live, Reported, Inv, Accounts;
    match ev
    case BeginOtm(uuid) => StartOtmKeeps(t, uuid, e);
    case BeginReset(uuid) => StartResetKeeps(t, uuid, e);
    case BeginProvision(uuid, ace) => StartProvisionKeeps(t, uuid, ace, e);
  }

  // After any run, a call that the tool accepts gets a context of its own, which nothing was
  // reported for; whatever happens next, it is reported once, at the latest by its timeout.
  lemma AcceptedCompletesOnce(t: Tool, before: seq<(Event, Env)>, ev: Event, e: Env, evs: seq<(Event, Env)>)
    requires Inv(t) && Waiting(t) && Accepted(Run(t, before), ev, e).Some?
    ensures var s := Run(t, before);
            var x, u := Accepted(s, ev, e).value, Run(Next(s, ev, e), evs);
            && x !in Live(s) + Reported(s)
            && TimesTold(u.reports, x) == (if x in Live(u) then 0 else 1)
            && (x in Live(u) ==> x in u.timers && TimesTold(Timeout(u, x).reports, x) == 1)
  {
    hide Run, Next, Timeout, Accepted, Live, Reported, Inv, Waiting, Accounts, Home, UnsharedRun;
    RunKeeps(t, before);
    var s := Run(t, before);
    NextKeeps(s, ev, e);
    AcceptedIsNew(s, ev, e);
    CompletesExactlyOnce(Next(s, ev, e), Accepted(s, ev, e).value, evs);
  }
}
