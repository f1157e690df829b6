/** What one answer makes of a state switch, of a provisioning and of a hard reset (security/oc_obt.c). */
module ObtSwitches {
  import opened Payload
  import opened AclModel
  import opened CredModel
  import opened DeviceModel
  import opened ObtModel
  import opened ObtProvision
  import ObtKeys
  import ObtTransfer

  // The answer says what the switch wanted; a device that was to be reset (0) may be in RFOTM (1) already.
  predicate Reached(x: SwitchCtx, r: Response) {
    var said := ParseDos(0, r.payload);
    r.ok && (said == x.dos || (x.dos == 0 && said == 1))
  }

  // Provisioning p is reported and over.
  ghost predicate ProvEnded(t: Tool, u: Tool, p: Id, status: int) {
    && u == t.(switches := u.switches, provs := t.provs - {p}, timers := t.timers - {p},
               reports := t.reports + [Report(p, status)])
    && p in t.provs && forall d :: d in u.switches <==> d in t.switches && t.provs[p].switch != Some(d)
  }

  // Hard reset h is reported; on success the device's credential goes.
  ghost predicate ResetTold(t: Tool, u: Tool, h: Id, success: bool)
    requires h in t.resets
  {
    var handle := t.resets[h].handle;
    && u == t.(switches := u.switches, resets := t.resets - {h}, timers := t.timers - {h}, creds := u.creds,
               cache := u.cache, devices := u.devices, reports := t.reports + [Report(h, if success then 0 else -1)])
    && (forall d :: d in u.switches <==> d in t.switches && t.resets[h].switch != Some(d))
    && u.creds == (if success then RemoveFirst(t.creds, BySubject(if handle in t.handles then t.handles[handle] else 0))
                   else t.creds)
  }

  // And it is over: the device leaves both lists.
  ghost predicate ResetEnded(t: Tool, u: Tool, h: Id, success: bool) {
    && h in t.resets && ResetTold(t, u, h, success)
    && ObtTransfer.OnceLess(u.cache, t.cache, t.resets[h].handle)
    && ObtTransfer.OnceLess(u.devices, t.devices, t.resets[h].handle)
  }

  // Switch d is over: its provisioning posts the entry or ends, or its hard reset ends.
  ghost predicate SwitchOver(t: Tool, u: Tool, d: Id, success: bool, e: Env)
    requires d in t.switches
  {
    var v := t.(switches := t.switches - {d});
    match t.switches[d].cb
    case HardReset(h) =>
      if h !in t.resets then u == v
      else ResetEnded(v.(resets := t.resets[h := ResetCtx(t.resets[h].handle, None)]), u, h, success)
    case ProvisionAce(p) =>
      if p !in t.provs then u == v
      else
        var w := v.(provs := t.provs[p := ProvCtx(t.provs[p].handle, t.provs[p].ace, None)]);
        if success && e.sent then
          u == w.(outstanding := t.outstanding[t.nextId := Outstanding(AclPosted, p, PostAce(t.provs[p].ace))],
                  nextId := t.nextId + 1)
        else ProvEnded(w, u, p, -1)
    case ProvisionDone(p) =>
      if p !in t.provs then u == v
      else ProvEnded(v.(provs := t.provs[p := ProvCtx(t.provs[p].handle, t.provs[p].ace, None)]), u, p,
                     if success then 0 else -1)
  }

  lemma ResetParts(t: Tool, h: Id, status: int)
    requires h in t.resets
    ensures var u, handle := FreeReset(t, h, status), t.resets[h].handle;
            && ResetTold(t, u, h, status == 0)
            && u.cache == Without(t.cache, handle) && u.devices == Without(t.devices, handle)
  {
    hide Without, RemoveFirst;
  }

  lemma ResetIsOver(t: Tool, h: Id, success: bool)
    requires h in t.resets
    ensures ResetEnded(t, FreeReset(t, h, if success then 0 else -1), h, success)
  {
    var handle := t.resets[h].handle;
    hide FreeReset, Without, ObtTransfer.OnceLess, ResetTold;
    ResetParts(t, h, if success then 0 else -1);
    ObtTransfer.WithoutOnce(t.cache, handle);
    ObtTransfer.WithoutOnce(t.devices, handle);
  }

  lemma ProvIsOver(t: Tool, p: Id, status: int)
    requires p in t.provs
    ensures ProvEnded(t, FreeProv(t, p, status), p, status)
  {
  }

  lemma SwitchIsOver(t: Tool, d: Id, success: bool, e: Env)
    requires d in t.switches
    ensures SwitchOver(t, FreeSwitch(t, d, if success then 0 else -1, e), d, success, e)
  {
    ObtKeys.FreeSwitchIs(t, d, if success then 0 else -1, e);
    var v := t.(switches := t.switches - {d});
    hide FreeSwitch, FreeReset, FreeProv, ResetEnded, ProvEnded;
    match t.switches[d].cb
    case HardReset(h) =>
      if h in t.resets {
        ResetIsOver(v.(resets := t.resets[h := ResetCtx(t.resets[h].handle, None)]), h, success);
      }
    case ProvisionAce(p) =>
      if p in t.provs {
        ProvIsOver(v.(provs := t.provs[p := ProvCtx(t.provs[p].handle, t.provs[p].ace, None)]), p, -1);
      }
    case ProvisionDone(p) =>
      if p in t.provs {
        ProvIsOver(v.(provs := t.provs[p := ProvCtx(t.provs[p].handle, t.provs[p].ace, None)]), p, if success then 0 else -1);
      }
  }

  // A state that was posted is read back; the switch succeeds exactly when what is read is what was wanted.
  lemma SwitchAnswer(t: Tool, h: Handler, d: Id, r: Response, e: Env)
    requires d in t.switches && (h == SwitchPosted || h == SwitchRead)
    ensures var u := SwitchResponse(t, h, d, r, e);
            if h == SwitchPosted && r.ok && e.sent then
              u == t.(outstanding := t.outstanding[t.nextId := Outstanding(SwitchRead, d, GetPstat)], nextId := t.nextId + 1)
            else SwitchOver(t, u, d, h == SwitchRead && Reached(t.switches[d], r), e)
  {
    SwitchIsOver(t, d, true, e);
    SwitchIsOver(t, d, false, e);
    hide FreeSwitch, ParseDos, SwitchOver;
  }

  // Once the entry is accepted the tool asks for RFNOP (3); otherwise the provisioning ends.
  lemma AceAnswer(t: Tool, p: Id, r: Response, e: Env)
    requires p in t.provs
    ensures var u := AceSent(t, p, r, e);
            if r.ok && e.room && e.sent then
              var d, handle := t.nextId, t.provs[p].handle;
              u == t.(switches := t.switches[d := SwitchCtx(handle, 3, ProvisionDone(p))],
                      provs := t.provs[p := ProvCtx(handle, t.provs[p].ace, Some(d))],
                      outstanding := t.outstanding[d + 1 := Outstanding(SwitchPosted, d, PostState(3))], nextId := d + 2)
            else if r.ok then ProvEnded(t.(provs := t.provs[p := ProvCtx(t.provs[p].handle, t.provs[p].ace, None)]), u, p, -1)
            else ProvEnded(t, u, p, -1)
  {
    ProvIsOver(t, p, -1);
    ProvIsOver(t.(provs := t.provs[p := ProvCtx(t.provs[p].handle, t.provs[p].ace, None)]), p, -1);
    hide FreeProv, ProvEnded;
  }

  // A timeout ends its provisioning or hard reset without success.
  lemma TimeoutEnds(t: Tool, x: Id)
    requires x in t.timers && x !in t.otms
    ensures var u := Timeout(t, x);
            if x in t.resets then ResetEnded(t, u, x, false)
            else if x in t.provs then ProvEnded(t, u, x, -1) else u == t
  {
    hide FreeReset, FreeProv, ResetEnded, ProvEnded;
    if x in t.resets {
      ResetIsOver(t, x, false);
    } else if x in t.provs {
      ProvIsOver(t, x, -1);
    }
  }
}
