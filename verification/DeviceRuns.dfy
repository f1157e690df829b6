/** What every request keeps, and what therefore holds over whole runs of a device. */
module DeviceRuns {
  import opened Payload
  import opened AclModel
  import opened CredModel
  import opened DeviceModel

  // ----- the layered invariant

  predicate Owned(d: Device) {
    d.doxm.owned && d.doxm.devowner != NIL && d.doxm.deviceuuid != NIL
  }

  predicate RownersSet(d: Device) {
    d.pstat.rowner != NIL && d.doxm.rowner != NIL && d.aclRowner != NIL && d.credRowner != NIL
  }

  predicate RownersHaveCreds(d: Device) {
    && HasCredFor(d.creds, d.pstat.rowner) && HasCredFor(d.creds, d.doxm.rowner)
    && HasCredFor(d.creds, d.aclRowner) && HasCredFor(d.creds, d.credRowner)
  }

  // Each state adds a layer: SRESET is owned, RFPRO also has resource owners,
  // RFNOP also has a credential for each of them.
  predicate Inv(d: Device) {
    && (d.pstat.s == RFOTM || d.pstat.s == RFPRO || d.pstat.s == RFNOP || d.pstat.s == SRESET)
    && (d.pstat.s != RFOTM ==> Owned(d))
    && (d.pstat.s == RFPRO || d.pstat.s == RFNOP ==> RownersSet(d))
    && (d.pstat.s == RFNOP ==> RownersHaveCreds(d))
    && (d.pstat.isop <==> d.pstat.s == RFNOP)
    && !d.pstat.p
    && (d.pstat.s == RFNOP ==> !d.postOtm)
    && DistinctAceIds(d.aces) && ProperIds(d.creds)
  }

  // ----- one request at a time

  // A scan that reports no transition keeps the state, and what a rowneruuid may change.
  lemma {:induction false} ScanDosKeeps(ps: Pstat, transition: bool, members: seq<Member>)
    ensures var r := ScanDos(ps, transition, members);
            r != Rejected ==> (
              && (transition ==> r.transition) && (!r.transition ==> r.ps.s == ps.s)
              && r.ps.isop == ps.isop && r.ps.p == ps.p && r.ps.rowner == ps.rowner)
    decreases |members|
  {
    if members != [] {
      match members[0]
      case IntMember(name, v) =>
        if name == "s" {
          ScanDosKeeps(ps.(s := v), true, members[1..]);
        }
      case OtherMember(name) =>
        ScanDosKeeps(ps, transition, members[1..]);
    }
  }

  lemma {:induction false} ScanPstatKeeps(ps: Pstat, transition: bool, rep: seq<Prop<()>>)
    ensures var r := ScanPstat(ps, transition, rep);
            r != Rejected ==> (
              && (transition ==> r.transition) && r.ps.isop == ps.isop && r.ps.p == ps.p
              && (!r.transition ==> (
                    && r.ps.s == ps.s && (ps.s == RFPRO || ps.s == RFNOP ==> r.ps.rowner == ps.rowner))))
    decreases |rep|
  {
    if rep != [] {
      if rep[0].value.Object? {
        ScanDosKeeps(ps, transition, rep[0].value.members);
      }
      var r := ScanProp(ps, transition, rep[0]);
      if r != Rejected {
        ScanPstatKeeps(r.ps, r.transition, rep[1..]);
      }
    }
  }

  // A reset always succeeds and ends in RFOTM with everything cleared.
  lemma ResetSucceeds(d: Device, ps: Pstat, core: seq<Resource>, c: Chance)
    requires ps.s == RESET
    ensures var (after, ok) := HandleState(d, ps, core, c);
            && ok && after.pstat.s == RFOTM && !after.pstat.isop && !after.pstat.p && after.pstat.rowner == NIL
            && after == Cleared(d, core, c).(pstat := after.pstat)
  {
  }

  lemma {:induction false} PostOtmKeepsIds(aces: seq<Ace>, i: nat)
    requires i <= |aces| && DistinctAceIds(aces)
    ensures DistinctAceIds(PostOtm(aces, i))
    decreases |aces| - i
  {
    var k := FindAce(aces, i, OfConn(ANON_CLEAR), -1, 14);
    if k < |aces| {
      var left := WithoutHref(aces[k].resources, ACL_URI);
      var rest := WithoutHref(left, CRED_URI);
      if left != [] && rest != [] {
        PostOtmKeepsIds(aces[k := aces[k].(resources := rest)], k + 1);
      }
    }
  }

  lemma PostPstatKeepsInv(d: Device, rep: seq<Prop<()>>, core: seq<Resource>, c: Chance)
    requires Inv(d) && Fair(c)
    ensures Inv(PostPstat(d, rep, core, c).0)
  {
    ScanPstatKeeps(d.pstat, false, rep);
    var r := ScanPstat(d.pstat, false, rep);
    if r != Rejected && ValidTransition(d.pstat.s, r.ps.s) && r.transition {
      if r.ps.s == RESET {
        ResetSucceeds(d, r.ps, core, c);
        DefaultAcesShape(core, c);
      }
      var (after, ok) := HandleState(d, r.ps, core, c);
      if ok && after.pstat.s == RFNOP && after.postOtm {
        PostOtmKeepsIds(after.aces, 0);
      }
    }
  }

  // Outside RFOTM a POST to doxm can change the resource owner only, and that only in SRESET.
  lemma {:induction false} ApplyDoxmOutsideRfotm(x: Doxm, rep: seq<Prop<()>>, c: Chance, s: int)
    requires s != RFOTM && DoxmAllowed(s, rep)
    ensures var y := ApplyDoxm(x, rep, c); y == x.(rowner := y.rowner) && (s != SRESET ==> y == x)
  {
    if rep != [] {
      var init, last := rep[..|rep| - 1], rep[|rep| - 1];
      assert forall i :: 0 <= i < |init| ==> init[i] == rep[i];
      ApplyDoxmOutsideRfotm(x, init, c, s);
      assert DoxmPropAllowed(s, last);
    }
  }

  lemma {:induction false} ApplyAclInRfpro(a: AclState, rep: seq<Prop<AceEntry>>, c: Chance, s: int)
    requires AclAllowed(s, rep)
    ensures s == RFPRO || s == RFNOP ==> ApplyAcl(a, rep, c).rowner == a.rowner
    ensures s == RFNOP ==> ApplyAcl(a, rep, c) == a
    decreases |rep|
  {
    if rep != [] {
      assert AclPropAllowed(s, rep[0]);
      ApplyAclInRfpro(ApplyAclProp(a, rep[0], c), rep[1..], c, s);
    }
  }

  lemma {:induction false} ApplyAclKeepsIds(a: AclState, rep: seq<Prop<AceEntry>>, c: Chance)
    requires Fair(c) && DistinctAceIds(a.acc.aces)
    ensures DistinctAceIds(ApplyAcl(a, rep, c).acc.aces)
    decreases |rep|
  {
    if rep != [] {
      if rep[0].value.ObjectArray? {
        PostedAceIdsDistinct(a.acc, rep[0].value.items, c);
      }
      ApplyAclKeepsIds(ApplyAclProp(a, rep[0], c), rep[1..], c);
    }
  }

  lemma {:induction false} ApplyCredsKeepsRowner(a: CredAcc, es: seq<CredEntry>, c: Chance)
    ensures ApplyCredEntries(a, es, c).0.rowner == a.rowner
    decreases |es|
  {
    if es != [] {
      var (b, ok) := ApplyCredEntry(a, es[0], c);
      if ok {
        ApplyCredsKeepsRowner(b, es[1..], c);
      }
    }
  }

  lemma {:induction false} ApplyCredInRfpro(a: CredAcc, rep: seq<Prop<CredEntry>>, c: Chance, s: int)
    requires CredAllowed(s, rep)
    ensures s == RFPRO || s == RFNOP ==> ApplyCredProps(a, rep, c).0.rowner == a.rowner
    ensures s == RFNOP ==> ApplyCredProps(a, rep, c) == (a, true)
    decreases |rep|
  {
    if rep != [] {
      assert CredPropAllowed(s, rep[0]);
      if rep[0].value.ObjectArray? {
        ApplyCredsKeepsRowner(a, rep[0].value.items, c);
      }
      var (b, ok) := ApplyCredProp(a, rep[0], c);
      if ok {
        ApplyCredInRfpro(b, rep[1..], c, s);
      }
    }
  }

  lemma SecretKeepsIds(creds: seq<Cred>, k: nat, secret: Secret)
    requires k < |creds| && ProperIds(creds)
    ensures ProperIds(creds[k := creds[k].(secret := secret)])
  {
  }

  lemma PostCredKeepsInv(d: Device, rep: seq<Prop<CredEntry>>, session: Option<nat>, c: Chance)
    requires Inv(d) && Fair(c)
    ensures Inv(PostCred(d, rep, session, c).0)
  {
    hide ProperIds, ApplyCredProps, RemoveFirst, DistinctAceIds, RownersHaveCreds, CredAllowed;
    if CredAllowed(d.pstat.s, rep) {
      var start := CredAcc(d.creds, d.credRowner, None, 0);
      ApplyCredInRfpro(start, rep, c, d.pstat.s);
      PostedCredIdsDistinct(start, rep, c);
      var (a, ok) := ApplyCredProps(start, rep, c);
      if a.owner.Some? {
        RemoveCredidKeepsIds(a.creds, a.owner.value);
        var k := Find(a.creds, ByCredid(a.owner.value));
        if k < |a.creds| {
          forall secret ensures ProperIds(a.creds[k := a.creds[k].(secret := secret)]) {
            SecretKeepsIds(a.creds, k, secret);
          }
        }
      }
    }
  }

  // Every request keeps the invariant, whether it is granted or refused.
  lemma StepKeepsInv(d: Device, r: Request, core: seq<Resource>, c: Chance)
    requires Inv(d) && Fair(c)
    ensures Inv(Step(d, r, core, c).0)
  {
    match r
    case PstatPost(rep) =>
      PostPstatKeepsInv(d, rep, core, c);
    case DoxmPost(rep) =>
      if d.pstat.s != RFOTM && DoxmAllowed(d.pstat.s, rep) {
        ApplyDoxmOutsideRfotm(d.doxm, rep, c, d.pstat.s);
      }
    case AclPost(rep) =>
      if AclAllowed(d.pstat.s, rep) {
        ApplyAclInRfpro(AclState(AclAcc(d.aces, 0), d.aclRowner), rep, c, d.pstat.s);
        ApplyAclKeepsIds(AclState(AclAcc(d.aces, 0), d.aclRowner), rep, c);
      }
    case AclDelete(aceid) =>
      if aceid.Some? {
        RemoveAceDropsId(d.aces, aceid.value);
      }
    case CredPost(rep, session) =>
      PostCredKeepsInv(d, rep, session, c);
    case CredDelete(credid) =>
      if credid.Some? {
        RemoveCredidKeepsIds(d.creds, credid.value);
      }
  }

  // ----- whole runs

  // A request with the randomness and memory its handler meets.
  datatype Event = Event(request: Request, chance: Chance)

  ghost predicate FairRun(es: seq<Event>) {
    forall i :: 0 <= i < |es| ==> Fair(es[i].chance)
  }

  function Run(d: Device, es: seq<Event>, core: seq<Resource>): Device
    decreases |es|
  {
    if es == [] then d
    else
      var last := es[|es| - 1];
      Step(Run(d, es[..|es| - 1], core), last.request, core, last.chance).0
  }

  lemma DefaultHoldsInv(d: Device, core: seq<Resource>, c: Chance)
    requires Fair(c)
    ensures Inv(Default(d, core, c)) && Default(d, core, c).pstat.s == RFOTM
  {
    ResetSucceeds(d, d.pstat.(s := RESET), core, c);
    DefaultAcesShape(core, c);
  }

  lemma {:induction false} RunKeepsInv(d: Device, es: seq<Event>, core: seq<Resource>)
    requires Inv(d) && FairRun(es)
    ensures Inv(Run(d, es, core))
    decreases |es|
  {
    if es != [] {
      RunKeepsInv(d, es[..|es| - 1], core);
      var last := es[|es| - 1];
      StepKeepsInv(Run(d, es[..|es| - 1], core), last.request, core, last.chance);
    }
  }

  // From start-up on, under any requests in any order: in RFNOP the device is owned,
  // knows its own identity, and holds a credential for each of its four resource owners.
  lemma OperationalMeansProvisioned(zero: Device, es: seq<Event>, core: seq<Resource>, c: Chance)
    requires Fair(c) && FairRun(es)
    ensures var d := Run(Default(zero, core, c), es, core);
            && Inv(d)
            && (d.pstat.isop ==> Owned(d) && RownersSet(d) && RownersHaveCreds(d))
  {
    DefaultHoldsInv(zero, core, c);
    RunKeepsInv(Default(zero, core, c), es, core);
  }

  // ----- ownership changes hands only through a reset

  // The device as a reset leaves it: no owner, no credentials, no resource owners, the default ACL.
  predicate JustReset(d: Device, core: seq<Resource>, c: Chance) {
    && !d.doxm.owned && d.doxm.devowner == NIL && d.doxm.deviceuuid == c.uuid(0) && d.creds == []
    && d.pstat.rowner == NIL && d.doxm.rowner == NIL && d.aclRowner == NIL && d.credRowner == NIL
    && d.aces == DefaultAces(core, c) && d.postOtm
  }

  lemma OneStepOfOwnership(d: Device, r: Request, core: seq<Resource>, c: Chance)
    requires Inv(d) && d.pstat.s != RFOTM
    ensures var after := Step(d, r, core, c).0;
            if after.pstat.s == RFOTM then JustReset(after, core, c) && r.PstatPost?
            else && after.doxm.owned == d.doxm.owned && after.doxm.devowner == d.doxm.devowner
                 && after.doxm.deviceuuid == d.doxm.deviceuuid
  {
    match r
    case PstatPost(rep) =>
      ScanPstatKeeps(d.pstat, false, rep);
    case DoxmPost(rep) =>
      if DoxmAllowed(d.pstat.s, rep) {
        ApplyDoxmOutsideRfotm(d.doxm, rep, c, d.pstat.s);
      }
    case AclPost(_) =>
    case AclDelete(_) =>
    case CredPost(_, _) =>
    case CredDelete(_) =>
  }

  // While a run stays out of RFOTM the owner and the identity are those it started with.
  lemma {:induction false} OwnershipFrozen(d: Device, es: seq<Event>, core: seq<Resource>)
    requires Inv(d) && FairRun(es)
    requires forall n :: 0 <= n <= |es| ==> Run(d, es[..n], core).pstat.s != RFOTM
    ensures var x := Run(d, es, core).doxm;
            x.owned == d.doxm.owned && x.devowner == d.doxm.devowner && x.deviceuuid == d.doxm.deviceuuid
    decreases |es|
  {
    assert es[..|es|] == es && es[..0] == [];
    if es != [] {
      var init, last := es[..|es| - 1], es[|es| - 1];
      forall n | 0 <= n <= |init| ensures Run(d, init[..n], core).pstat.s != RFOTM {
        assert init[..n] == es[..n];
      }
      assert init == es[..|init|];
      OwnershipFrozen(d, init, core);
      RunKeepsInv(d, init, core);
      OneStepOfOwnership(Run(d, init, core), last.request, core, last.chance);
    }
  }

  // Whenever a run comes back to RFOTM, the request that did it reset the device.
  lemma ReentryIsReset(d: Device, es: seq<Event>, core: seq<Resource>)
    requires Inv(d) && FairRun(es) && es != []
    requires Run(d, es[..|es| - 1], core).pstat.s != RFOTM && Run(d, es, core).pstat.s == RFOTM
    ensures JustReset(Run(d, es, core), core, es[|es| - 1].chance)
    ensures es[|es| - 1].request.PstatPost?
  {
    hide Step, JustReset, Inv;
    var before, last := Run(d, es[..|es| - 1], core), es[|es| - 1];
    RunKeepsInv(d, es[..|es| - 1], core);
    OneStepOfOwnership(before, last.request, core, last.chance);
  }

  // ----- what a request cannot do

  // In normal operation only a POST to pstat changes anything.
  lemma OperationIsClosed(d: Device, r: Request, core: seq<Resource>, c: Chance)
    requires d.pstat.s == RFNOP && !r.PstatPost?
    ensures Step(d, r, core, c).0 == d
  {
    match r
    case DoxmPost(rep) =>
      if DoxmAllowed(d.pstat.s, rep) {
        ApplyDoxmOutsideRfotm(d.doxm, rep, c, d.pstat.s);
      }
    case AclPost(rep) =>
      if AclAllowed(d.pstat.s, rep) {
        ApplyAclInRfpro(AclState(AclAcc(d.aces, 0), d.aclRowner), rep, c, d.pstat.s);
      }
    case CredPost(rep, session) =>
      if CredAllowed(d.pstat.s, rep) {
        ApplyCredInRfpro(CredAcc(d.creds, d.credRowner, None, 0), rep, c, d.pstat.s);
      }
    case _ =>
  }

  // A refused request leaves the device as it was, except for a POST to cred that fails
  // while its entries are applied. CredRefusals says what that one leaves.
  lemma RefusalChangesNothing(d: Device, r: Request, core: seq<Resource>, c: Chance)
    requires Step(d, r, core, c).1 != Changed && Step(d, r, core, c).1 != Deleted
    ensures Step(d, r, core, c).0 == d || (r.CredPost? && CredAllowed(d.pstat.s, r.cred))
    ensures var after := Step(d, r, core, c).0;
            after == d.(creds := after.creds, credRowner := after.credRowner)
  {
    if r.PstatPost? {
      var scan := ScanPstat(d.pstat, false, r.pstat);
      if scan != Rejected && scan.transition && scan.ps.s == RESET {
        ResetSucceeds(d, scan.ps, core, c);
      }
    }
  }
}
