/** Which requests a device accepts in which state, and what they make of it, written out with the
    numbers and names of the wire (security/oc_pstat.c, oc_doxm.c, oc_acl.c, oc_cred.c). */
module StateTable {
  import opened Payload
  import opened AclModel
  import opened CredModel
  import opened DeviceModel
  import opened DeviceRuns

  // ----- changes of state

  // A POST to pstat that only asks for a state.
  function AskFor(s: int): Request {
    PstatPost([Prop("dos", Object([IntMember("s", s)]))])
  }

  // The device is owned, has both identities, and a credential for each of its four resource owners.
  predicate Ready(d: Device) {
    && d.doxm.owned && d.doxm.devowner != 0 && d.doxm.deviceuuid != 0
    && KeyFor(d, d.pstat.rowner) && KeyFor(d, d.doxm.rowner) && KeyFor(d, d.aclRowner) && KeyFor(d, d.credRowner)
  }

  predicate KeyFor(d: Device, u: Uuid) {
    u != 0 && exists i :: 0 <= i < |d.creds| && d.creds[i].subject == u
  }

  lemma KeyForIs(d: Device, u: Uuid)
    ensures KeyFor(d, u) <==> u != NIL && HasCredFor(d.creds, u)
  {
  }

  // States: 0 is RESET, 1 RFOTM, 2 RFPRO, 3 RFNOP, 4 SRESET.
  predicate Accepted(d: Device, to: int) {
    if to == 0 then true
    else if to == 1 then d.pstat.s == 1 && !d.doxm.owned && d.doxm.devowner == 0
    else if to == 2 then Ready(d)
    else if to == 3 then Ready(d) && d.pstat.s != 4
    else if to == 4 then Ready(d) && d.pstat.s != 1
    else false
  }

  function Reached(d: Device, to: int, core: seq<Resource>, c: Chance): Device {
    if to == 0 then
      Device(Pstat(1, false, false, 2, 0, 3, 4, 0), Doxm(0, 1, false, c.uuid(0), 0, 0), [], 0, DefaultAces(core, c), 0, true)
    else if to == 1 then d.(pstat := d.pstat.(s := 1, p := false, cm := 2, tm := 0))
    else if to == 2 then d.(pstat := d.pstat.(s := 2, p := false, isop := false, cm := 0, tm := 0))
    else if to == 3 then
      d.(pstat := d.pstat.(s := 3, p := false, isop := true, cm := 0, tm := 0), postOtm := false,
         aces := if d.postOtm then PostOtm(d.aces, 0) else d.aces)
    else d.(pstat := d.pstat.(s := 4, p := false, isop := false, cm := 1, tm := 0))
  }

  lemma DosScanned(ps: Pstat, to: int)
    ensures ScanPstat(ps, false, AskFor(to).pstat) == Scanned(ps.(s := to), true)
  {
    var members := [IntMember("s", to)];
    assert members[1..] == [];
    assert ScanDos(ps, false, members) == Scanned(ps.(s := to), true);
    assert AskFor(to).pstat[1..] == [];
  }

  // The whole table: from every state that a device can be in, for every number asked for.
  lemma StateChanges(d: Device, to: int, core: seq<Resource>, c: Chance)
    requires Inv(d)
    ensures Step(d, AskFor(to), core, c)
         == if Accepted(d, to) then (Reached(d, to, core, c), Changed) else (d, BadRequest)
  {
    DosScanned(d.pstat, to);
    KeyForIs(d, d.pstat.rowner);
    KeyForIs(d, d.doxm.rowner);
    KeyForIs(d, d.aclRowner);
    KeyForIs(d, d.credRowner);
    hide ScanPstat, DefaultAces, PostOtm, HasCredFor, KeyFor, DistinctAceIds, ProperIds;
  }

  // A device in normal operation can be taken to provisioning and back; nothing but the two
  // masks of pstat, which both states clear, differs afterwards.
  lemma OutAndBack(d: Device, core: seq<Resource>, c: Chance, c': Chance)
    requires Inv(d) && d.pstat.s == 3 && Fair(c)
    ensures var (out, first) := Step(d, AskFor(2), core, c);
            var (back, second) := Step(out, AskFor(3), core, c');
            && first == Changed && out == d.(pstat := d.pstat.(s := 2, isop := false, cm := 0, tm := 0))
            && second == Changed && back == d.(pstat := d.pstat.(cm := 0, tm := 0))
  {
    StateChanges(d, 2, core, c);
    StepKeepsInv(d, AskFor(2), core, c);
    var out := Step(d, AskFor(2), core, c).0;
    StateChanges(out, 3, core, c');
    hide Step, PostOtm, DefaultAces, HasCredFor, DistinctAceIds, ProperIds;
  }

  // ----- properties of the four resources

  // What pstat lets a client write besides the state: the resource owner outside RFPRO and RFNOP,
  // and at any time the integers whose names start with "tm" or "om".
  lemma PstatProperties(d: Device, p: Prop<()>, core: seq<Resource>, c: Chance)
    requires Inv(d) && (p.value.Text? || p.value.Boolean? || p.value.Integer?)
    ensures var (after, status) := Step(d, PstatPost([p]), core, c);
            if p.value.Text? && p.name == "rowneruuid" && (d.pstat.s == 1 || d.pstat.s == 4) then
              status == Changed && after == d.(pstat := d.pstat.(rowner := p.value.uuid))
            else if p.value.Integer? && |p.name| >= 2 && p.name[0] == 't' && p.name[1] == 'm' then
              status == Changed && after == d.(pstat := d.pstat.(tm := p.value.integer))
            else if p.value.Integer? && |p.name| >= 2 && p.name[0] == 'o' && p.name[1] == 'm' then
              status == Changed && after == d.(pstat := d.pstat.(om := p.value.integer))
            else status == BadRequest && after == d
  {
    OneProperty(d.pstat, p);
    SomeState(d);
    Prefixes(p.name);
    hide Inv, ScanPstat, StartsWith, HandleState;
  }

  lemma OneProperty(ps: Pstat, p: Prop<()>)
    ensures ScanPstat(ps, false, [p]) == ScanProp(ps, false, p)
  {
    assert [p][1..] == [];
    hide ScanProp;
  }

  lemma Prefixes(name: string)
    ensures StartsWith(name, "tm") <==> |name| >= 2 && name[0] == 't' && name[1] == 'm'
    ensures StartsWith(name, "om") <==> |name| >= 2 && name[0] == 'o' && name[1] == 'm'
  {
    if |name| >= 2 {
      assert name[..2] == [name[0], name[1]];
    }
  }

  // What doxm lets a client write: ownership in RFOTM, the resource owner in RFOTM and SRESET. A
  // non-nil owner comes with a new identity.
  lemma DoxmProperties(d: Device, p: Prop<()>, core: seq<Resource>, c: Chance)
    requires p.value.Text? || p.value.Boolean? || p.value.Integer?
    ensures var (after, status) := Step(d, DoxmPost([p]), core, c);
            var s := d.pstat.s;
            if p == Prop("owned", p.value) && p.value.Boolean? && s == 1 then
              status == Changed && after == d.(doxm := d.doxm.(owned := p.value.boolean))
            else if p.name == "oxmsel" && p.value.Integer? && s == 1 then
              status == Changed && after == d.(doxm := d.doxm.(oxmsel := p.value.integer))
            else if p.name == "deviceuuid" && p.value.Text? && s == 1 then
              status == Changed && after == d.(doxm := d.doxm.(deviceuuid := p.value.uuid))
            else if p.name == "devowneruuid" && p.value.Text? && s == 1 then
              status == Changed
              && after == d.(doxm := d.doxm.(devowner := p.value.uuid,
                                             deviceuuid := if p.value.uuid == 0 then d.doxm.deviceuuid else c.uuid(0)))
            else if p.name == "rowneruuid" && p.value.Text? && (s == 1 || s == 4) then
              status == Changed && after == d.(doxm := d.doxm.(rowner := p.value.uuid))
            else status == BadRequest && after == d
  {
    assert [p][..0] == [];
    assert [p][0] == p;
    assert DoxmAllowed(d.pstat.s, [p]) <==> DoxmPropAllowed(d.pstat.s, p);
    assert ApplyDoxm(d.doxm, [p], c) == ApplyDoxmProp(d.doxm, p, c.uuid(0));
  }

  // acl2 takes entries and deletions except in RFNOP, and a resource owner in the other states but RFPRO.
  lemma AclStates(d: Device, owner: Uuid, items: seq<AceEntry>, id: Option<int>, core: seq<Resource>, c: Chance)
    requires Inv(d)
    ensures Step(d, AclPost([Prop("rowneruuid", Text(owner))]), core, c)
         == if d.pstat.s == 1 || d.pstat.s == 4 then (d.(aclRowner := owner), Changed) else (d, BadRequest)
    ensures Step(d, AclPost([Prop("aclist2", ObjectArray(items))]), core, c).1
         == if d.pstat.s == 3 then BadRequest else Changed
    ensures d.pstat.s == 3 ==> Step(d, AclDelete(id), core, c) == (d, Forbidden)
    ensures d.pstat.s != 3 ==> Step(d, AclDelete(None), core, c) == (d.(aces := []), Deleted)
  {
    hide Inv, ApplyAceEntries;
    SomeState(d);
    var text, list := [Prop("rowneruuid", Text(owner))], [Prop("aclist2", ObjectArray(items))];
    assert text[1..] == [] && list[1..] == [];
    assert text[0].value.Text? && list[0].value.ObjectArray?;
    assert AclAllowed(d.pstat.s, text) <==> AclPropAllowed(d.pstat.s, text[0]);
    assert AclAllowed(d.pstat.s, list) <==> AclPropAllowed(d.pstat.s, list[0]);
    var start := AclState(AclAcc(d.aces, 0), d.aclRowner);
    assert ApplyAcl(start, text, c) == ApplyAclProp(start, text[0], c);
  }

  lemma SomeState(d: Device)
    requires Inv(d)
    ensures d.pstat.s == 1 || d.pstat.s == 2 || d.pstat.s == 3 || d.pstat.s == 4
  {
  }

  // cred takes entries and deletions except in RFNOP, and a resource owner in RFOTM and SRESET.
  lemma CredStates(d: Device, owner: Uuid, items: seq<CredEntry>, id: Option<int>, session: Option<nat>,
                   core: seq<Resource>, c: Chance)
    requires Inv(d)
    ensures Step(d, CredPost([Prop("rowneruuid", Text(owner))], session), core, c)
         == if d.pstat.s == 1 || d.pstat.s == 4 then (d.(credRowner := owner), Changed) else (d, BadRequest)
    ensures d.pstat.s == 3 ==> Step(d, CredPost([Prop("creds", ObjectArray(items))], session), core, c) == (d, BadRequest)
    ensures Step(d, CredPost([Prop("creds", ObjectArray([]))], session), core, c)
         == if d.pstat.s == 3 then (d, BadRequest) else (d, Changed)
    ensures d.pstat.s == 3 ==> Step(d, CredDelete(id), core, c) == (d, Forbidden)
    ensures d.pstat.s != 3 ==> Step(d, CredDelete(None), core, c) == (d.(creds := []), Deleted)
  {
    hide Inv, ApplyCredEntry;
    SomeState(d);
    var text, list, none := [Prop("rowneruuid", Text(owner))], [Prop("creds", ObjectArray(items))],
                            [Prop("creds", ObjectArray([]))];
    assert text[1..] == [] && none[1..] == [];
    assert text[0].value.Text? && list[0].value.ObjectArray? && none[0].value.ObjectArray?;
    assert CredAllowed(d.pstat.s, text) <==> CredPropAllowed(d.pstat.s, text[0]);
    assert CredAllowed(d.pstat.s, list) <==> CredPropAllowed(d.pstat.s, list[0]);
    assert CredAllowed(d.pstat.s, none) <==> CredPropAllowed(d.pstat.s, none[0]);
    var start := CredAcc(d.creds, d.credRowner, None, 0);
    assert ApplyCredProps(start, text, c) == ApplyCredProp(start, text[0], c);
    assert ApplyCredProps(start, none, c) == (start, true);
  }
}
