/** One device's security state and the request handlers that change it, as
    functions: security/oc_pstat.c, oc_doxm.c, oc_cred.c and oc_acl.c. */
module DeviceModel {
  import opened Payload
  import opened AclModel
  import opened CredModel

  // Device onboarding states, numbered as on the wire.
  const RESET := 0
  const RFOTM := 1
  const RFPRO := 2
  const RFNOP := 3
  const SRESET := 4

  const OXM_JW := 0
  const OXM_RDP := 1

  datatype Pstat = Pstat(s: int, p: bool, isop: bool, cm: int, tm: int, om: int, sm: int, rowner: Uuid)

  datatype Doxm = Doxm(oxmsel: int, sct: int, owned: bool, deviceuuid: Uuid, devowner: Uuid, rowner: Uuid)

  // `postOtm` is set while the next entry into RFNOP must tighten the ACL.
  datatype Device = Device(pstat: Pstat, doxm: Doxm, creds: seq<Cred>, credRowner: Uuid,
                           aces: seq<Ace>, aclRowner: Uuid, postOtm: bool)

  datatype Status = Changed | Deleted | BadRequest | Forbidden | NotFound

  // ----- the state machine

  // From RESET, in which no request finds the device, everything is let through.
  predicate ValidTransition(from: int, to: int) {
    if from == RFOTM then to != SRESET
    else if from == RFPRO || from == RFNOP then to != RFOTM
    else if from == SRESET then to != RFOTM && to != RFNOP
    else true
  }

  // What RFPRO, RFNOP and SRESET demand on entry.
  predicate Provisioned(d: Device, ps: Pstat) {
    && d.doxm.owned && d.doxm.devowner != NIL && d.doxm.deviceuuid != NIL
    && ps.rowner != NIL && d.doxm.rowner != NIL && d.aclRowner != NIL && d.credRowner != NIL
    && HasCredFor(d.creds, ps.rowner) && HasCredFor(d.creds, d.doxm.rowner)
    && HasCredFor(d.creds, d.aclRowner) && HasCredFor(d.creds, d.credRowner)
  }

  // Ownership, credentials and access control back to the factory state.
  function Cleared(d: Device, core: seq<Resource>, c: Chance): Device {
    d.(doxm := Doxm(0, 1, false, c.uuid(0), NIL, NIL), creds := [], credRowner := NIL,
       aces := DefaultAces(core, c), aclRowner := NIL, postOtm := true)
  }

  function EnterRfotm(d: Device, ps: Pstat): (Device, bool) {
    if d.doxm.owned || d.doxm.devowner != NIL || ps.isop then (d, false)
    else (d.(pstat := ps.(s := RFOTM, p := false, cm := 2, tm := 0)), true)
  }

  function EnterReady(d: Device, ps: Pstat): (Device, bool) {
    if Provisioned(d, ps) then (d.(pstat := ps.(p := false)), true) else (d, false)
  }

  // Enters state ps.s. The mask tests on cm and tm hold of the constants just assigned.
  function HandleState(d: Device, ps: Pstat, core: seq<Resource>, c: Chance): (Device, bool) {
    if ps.s == RESET then
      EnterRfotm(Cleared(d, core, c), ps.(isop := false, om := 3, sm := 4, rowner := NIL))
    else if ps.s == RFOTM then EnterRfotm(d, ps)
    else if ps.s == RFPRO then EnterReady(d, ps.(cm := 0, tm := 0, isop := false))
    else if ps.s == RFNOP then EnterReady(d, ps.(cm := 0, tm := 0, isop := true))
    else if ps.s == SRESET then EnterReady(d, ps.(cm := 1, tm := 0, isop := false))
    else (d, false)
  }

  // ----- POST to pstat

  datatype Scan = Rejected | Scanned(ps: Pstat, transition: bool)

  function ScanDos(ps: Pstat, transition: bool, members: seq<Member>): Scan
    decreases |members|
  {
    if members == [] then Scanned(ps, transition)
    else match members[0]
      case IntMember(name, integer) =>
        if name == "s" then ScanDos(ps.(s := integer), true, members[1..]) else Rejected
      case OtherMember(name) =>
        if name == "p" then Rejected else ScanDos(ps, transition, members[1..])
  }

  // Integer properties are recognised by their first two characters.
  predicate StartsWith(name: string, prefix: string) {
    |prefix| <= |name| && name[..|prefix|] == prefix
  }

  function ScanProp(ps: Pstat, transition: bool, p: Prop<()>): Scan {
    match p.value
    case Object(members) => if p.name == "dos" then ScanDos(ps, transition, members) else Rejected
    case Boolean(_) => Rejected
    case Integer(v) =>
      if StartsWith(p.name, "tm") then Scanned(ps.(tm := v), transition)
      else if StartsWith(p.name, "om") then Scanned(ps.(om := v), transition)
      else Rejected
    case Text(uuid) =>
      if ps.s != RFPRO && ps.s != RFNOP && p.name == "rowneruuid" then Scanned(ps.(rowner := uuid), transition)
      else Rejected
    case _ => if IsInterfaceOrType(p.name) then Scanned(ps, transition) else Rejected
  }

  function ScanPstat(ps: Pstat, transition: bool, rep: seq<Prop<()>>): Scan
    decreases |rep|
  {
    if rep == [] then Scanned(ps, transition)
    else
      var r := ScanProp(ps, transition, rep[0]);
      if r == Rejected then Rejected else ScanPstat(r.ps, r.transition, rep[1..])
  }

  // Entering RFNOP for the first time after a reset closes acl2 and cred to anonymous peers.
  function Operate(d: Device): Device {
    if d.pstat.s == RFNOP && d.postOtm then d.(aces := PostOtm(d.aces, 0), postOtm := false) else d
  }

  function PostPstat(d: Device, rep: seq<Prop<()>>, core: seq<Resource>, c: Chance): (Device, Status) {
    match ScanPstat(d.pstat, false, rep)
    case Rejected => (d, BadRequest)
    case Scanned(ps, transition) =>
      if !ValidTransition(d.pstat.s, ps.s) then (d, BadRequest)
      else if transition then
        var (after, ok) := HandleState(d, ps, core, c);
        if ok then (Operate(after), Changed) else (after, BadRequest)
      else (d.(pstat := ps), Changed)
  }

  // ----- tightening the ACL

  const ACL_URI := "/oic/sec/acl2"
  const CRED_URI := "/oic/sec/cred"
  const DOXM_URI := "/oic/sec/doxm"
  const PSTAT_URI := "/oic/sec/pstat"

  // The anonymous read-write-delete entries.
  predicate IsOpen(ace: Ace) {
    AceMatches(ace, OfConn(ANON_CLEAR), -1, 14)
  }

  function WithoutHref(resources: seq<AceRes>, href: string): (r: seq<AceRes>) {
    if resources == [] then []
    else (if resources[0].href == href then [] else [resources[0]]) + WithoutHref(resources[1..], href)
  }

  // The source's loop from entry i on: an entry left without resources is removed, and ends the loop.
  function PostOtm(aces: seq<Ace>, i: nat): (r: seq<Ace>)
    requires i <= |aces|
    decreases |aces| - i
  {
    var k := FindAce(aces, i, OfConn(ANON_CLEAR), -1, 14);
    if k == |aces| then aces
    else
      var left := WithoutHref(aces[k].resources, ACL_URI);
      var rest := WithoutHref(left, CRED_URI);
      if left == [] || rest == [] then aces[..k] + aces[k + 1..]
      else PostOtm(aces[k := aces[k].(resources := rest)], k + 1)
  }

  // ----- POST to doxm

  predicate DoxmPropAllowed(s: int, p: Prop<()>) {
    match p.value
    case Boolean(_) => p.name == "owned" && s == RFOTM
    case Integer(_) => p.name == "oxmsel" && s == RFOTM
    case Text(_) =>
      || ((p.name == "deviceuuid" || p.name == "devowneruuid") && s == RFOTM)
      || (p.name == "rowneruuid" && (s == RFOTM || s == SRESET))
    case IntArray => p.name != "oxms"
    case _ => IsInterfaceOrType(p.name) || p.name == "oxms"
  }

  predicate DoxmAllowed(s: int, rep: seq<Prop<()>>) {
    forall i :: 0 <= i < |rep| ==> DoxmPropAllowed(s, rep[i])
  }

  // A non-nil owner makes the device pick a new identity.
  function ApplyDoxmProp(x: Doxm, p: Prop<()>, identity: Uuid): Doxm {
    match p.value
    case Boolean(b) => if p.name == "owned" then x.(owned := b) else x
    case Integer(v) => if p.name == "oxmsel" then x.(oxmsel := v) else x
    case Text(uuid) =>
      if p.name == "deviceuuid" then x.(deviceuuid := uuid)
      else if p.name == "devowneruuid" then
        x.(devowner := uuid, deviceuuid := if uuid != NIL then identity else x.deviceuuid)
      else if p.name == "rowneruuid" then x.(rowner := uuid)
      else x
    case _ => x
  }

  // Property number i draws the i-th generated UUID.
  function ApplyDoxm(x: Doxm, rep: seq<Prop<()>>, c: Chance): Doxm {
    if rep == [] then x
    else ApplyDoxmProp(ApplyDoxm(x, rep[..|rep| - 1], c), rep[|rep| - 1], c.uuid(|rep| - 1))
  }

  function PostDoxm(d: Device, rep: seq<Prop<()>>, c: Chance): (Device, Status) {
    if DoxmAllowed(d.pstat.s, rep) then (d.(doxm := ApplyDoxm(d.doxm, rep, c)), Changed) else (d, BadRequest)
  }

  // ----- POST and DELETE to acl2

  predicate AclPropAllowed<T>(s: int, p: Prop<T>) {
    match p.value
    case Text(_) => p.name == "rowneruuid" ==> s != RFNOP && s != RFPRO
    case ObjectArray(_) => s != RFNOP
    case _ => true
  }

  predicate AclAllowed(s: int, rep: seq<Prop<AceEntry>>) {
    forall i :: 0 <= i < |rep| ==> AclPropAllowed(s, rep[i])
  }

  // The list while a POST is applied, with the resource owner.
  datatype AclState = AclState(acc: AclAcc, rowner: Uuid)

  // Any array of objects is read as a list of entries, whatever its name.
  function ApplyAclProp(a: AclState, p: Prop<AceEntry>, c: Chance): AclState {
    match p.value
    case Text(uuid) => if p.name == "rowneruuid" then a.(rowner := uuid) else a
    case ObjectArray(items) => a.(acc := ApplyAceEntries(a.acc, items, c))
    case _ => a
  }

  function ApplyAcl(a: AclState, rep: seq<Prop<AceEntry>>, c: Chance): AclState
    decreases |rep|
  {
    if rep == [] then a else ApplyAcl(ApplyAclProp(a, rep[0], c), rep[1..], c)
  }

  function PostAcl(d: Device, rep: seq<Prop<AceEntry>>, c: Chance): (Device, Status) {
    if AclAllowed(d.pstat.s, rep) then
      var a := ApplyAcl(AclState(AclAcc(d.aces, 0), d.aclRowner), rep, c);
      (d.(aces := a.acc.aces, aclRowner := a.rowner), Changed)
    else (d, BadRequest)
  }

  // The identifier in the query of a DELETE: absent, or a number that reads as 0 when malformed.
  function DeleteAcl(d: Device, aceid: Option<int>): (Device, Status) {
    if d.pstat.s == RFNOP then (d, Forbidden)
    else match aceid
      case None => (d.(aces := []), Deleted)
      case Some(id) =>
        if id != 0 && id in AceIds(d.aces) then (d.(aces := RemoveAce(d.aces, id)), Deleted) else (d, NotFound)
  }

  // ----- POST and DELETE to cred

  predicate CredPropAllowed<T>(s: int, p: Prop<T>) {
    match p.value
    case Text(_) => p.name == "rowneruuid" ==> s == RFOTM || s == SRESET
    case ObjectArray(_) => s == RFOTM || s == SRESET || s == RFPRO
    case _ => true
  }

  predicate CredAllowed(s: int, rep: seq<Prop<CredEntry>>) {
    forall i :: 0 <= i < |rep| ==> CredPropAllowed(s, rep[i])
  }

  // The owner's key, derived for the selected transfer method; None when the derivation fails.
  function OwnerSecret(x: Doxm, subject: Uuid, session: Option<nat>): Option<Secret> {
    if x.oxmsel == OXM_JW || x.oxmsel == OXM_RDP then
      if session.Some? then
        Some(Derived(KdfArgs(session.value, if x.oxmsel == OXM_JW then OXM_JUST_WORKS else OXM_RANDOM_PIN,
                             x.deviceuuid, subject)))
      else None
    else Some(Unset)
  }

  // `session` is the TLS session of the request's sender, when there is one.
  function PostCred(d: Device, rep: seq<Prop<CredEntry>>, session: Option<nat>, c: Chance): (Device, Status) {
    if !CredAllowed(d.pstat.s, rep) then (d, BadRequest)
    else
      var (a, ok) := ApplyCredProps(CredAcc(d.creds, d.credRowner, None, 0), rep, c);
      var after := d.(creds := a.creds, credRowner := a.rowner);
      if a.owner.None? then (after, if ok then Changed else BadRequest)
      else
        var k := Find(a.creds, ByCredid(a.owner.value));
        if !ok then (after.(creds := RemoveFirst(a.creds, ByCredid(a.owner.value))), BadRequest)
        else if k < |a.creds| && a.creds[k].subject == a.rowner then
          match OwnerSecret(d.doxm, a.creds[k].subject, session)
          case None => (after.(creds := RemoveFirst(a.creds, ByCredid(a.owner.value))), BadRequest)
          case Some(secret) => (after.(creds := a.creds[k := a.creds[k].(secret := secret)]), Changed)
        else (after, Changed)
  }

  function DeleteCred(d: Device, credid: Option<int>): (Device, Status) {
    if d.pstat.s == RFNOP then (d, Forbidden)
    else match credid
      case None => (d.(creds := []), Deleted)
      case Some(id) =>
        if id != 0 && HasCredid(d.creds, id) then (d.(creds := RemoveFirst(d.creds, ByCredid(id))), Deleted)
        else (d, NotFound)
  }

  // ----- requests

  datatype Request =
    | PstatPost(pstat: seq<Prop<()>>)
    | DoxmPost(doxm: seq<Prop<()>>)
    | AclPost(acl: seq<Prop<AceEntry>>)
    | AclDelete(aceid: Option<int>)
    | CredPost(cred: seq<Prop<CredEntry>>, session: Option<nat>)
    | CredDelete(credid: Option<int>)

  function Step(d: Device, r: Request, core: seq<Resource>, c: Chance): (Device, Status) {
    match r
    case PstatPost(rep) => PostPstat(d, rep, core, c)
    case DoxmPost(rep) => PostDoxm(d, rep, c)
    case AclPost(rep) => PostAcl(d, rep, c)
    case AclDelete(aceid) => DeleteAcl(d, aceid)
    case CredPost(rep, session) => PostCred(d, rep, session, c)
    case CredDelete(credid) => DeleteCred(d, credid)
  }

  // The state that start-up reaches from zeroed memory.
  function Default(d: Device, core: seq<Resource>, c: Chance): Device {
    HandleState(d, d.pstat.(s := RESET), core, c).0
  }
}
