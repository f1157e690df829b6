/** The device's handlers as they run: one mutable record, changed in place by the
    loops of security/oc_pstat.c, oc_doxm.c, oc_acl.c and oc_cred.c. Each method is
    tied to the function of DeviceModel, AclModel or CredModel that specifies it. */
module SecureDevice {
  import opened Payload
  import opened AclModel
  import opened CredModel
  import opened DeviceModel
  import opened Lists
  import AccessControl
  import Base64
  import DeviceRuns

  // ----- list facts the loops rely on

  lemma {:induction false} RemoveAceAt(aces: seq<Ace>, aceid: int, k: nat)
    requires k < |aces| && aces[k].aceid == aceid && forall j :: 0 <= j < k ==> aces[j].aceid != aceid
    ensures RemoveAce(aces, aceid) == aces[..k] + aces[k + 1..]
  {
    if k > 0 {
      RemoveAceAt(aces[1..], aceid, k - 1);
      assert aces[..k] == [aces[0]] + aces[1..][..k - 1] && aces[k + 1..] == aces[1..][k..];
    }
  }

  lemma {:induction false} WithoutHrefSkips(a: seq<AceRes>, b: seq<AceRes>, href: string)
    requires forall j :: 0 <= j < |a| ==> a[j].href != href
    ensures WithoutHref(a + b, href) == a + WithoutHref(b, href)
  {
    if a == [] {
      assert a + b == b;
    } else {
      assert (a + b)[1..] == a[1..] + b && (a + b)[0] == a[0];
      WithoutHrefSkips(a[1..], b, href);
    }
  }

  lemma AbsentIds(aces: seq<Ace>, id: int)
    requires id !in AceIds(aces)
    ensures forall j :: 0 <= j < |aces| ==> aces[j].aceid != id
  {
    FreshIdIsNew(aces, id);
  }

  lemma StepKeeps(d: Device, r: Request, core: seq<Resource>, c: Chance)
    ensures DeviceRuns.Inv(d) && Fair(c) ==> DeviceRuns.Inv(Step(d, r, core, c).0)
    ensures var after := Step(d, r, core, c).0;
            DeviceRuns.Inv(d) && d.pstat.s != RFOTM ==>
              if after.pstat.s == RFOTM then DeviceRuns.JustReset(after, core, c)
              else after.doxm == d.doxm.(oxmsel := after.doxm.oxmsel, sct := after.doxm.sct, rowner := after.doxm.rowner)
  {
    hide Step, DeviceRuns.Inv, DeviceRuns.JustReset;
    if DeviceRuns.Inv(d) {
      if Fair(c) {
        DeviceRuns.StepKeepsInv(d, r, core, c);
      }
      if d.pstat.s != RFOTM {
        DeviceRuns.OneStepOfOwnership(d, r, core, c);
      }
    }
  }

  class SecureDevice {
    const core: seq<Resource>
    var pstat: Pstat
    var doxm: Doxm
    var creds: seq<Cred>
    var credRowner: Uuid
    var aces: seq<Ace>
    var aclRowner: Uuid
    var postOtm: bool

    function State(): Device
      reads this
    {
      Device(pstat, doxm, creds, credRowner, aces, aclRowner, postOtm)
    }

    // The reset of start-up over whatever the record holds.
    constructor (core: seq<Resource>, memory: Device, c: Chance)
      ensures this.core == core && State() == Default(memory, core, c)
      ensures Fair(c) ==> DeviceRuns.Inv(State())
    {
      this.core := core;
      pstat := memory.pstat;
      doxm, creds, credRowner := memory.doxm, memory.creds, memory.credRowner;
      aces, aclRowner, postOtm := memory.aces, memory.aclRowner, memory.postOtm;
      new;
      var ok := EnterState(pstat.(s := RESET), c);
      if Fair(c) {
        DeviceRuns.DefaultHoldsInv(memory, core, c);
      }
    }

    // ----- oc_acl.c

    method RemoveAceById(aceid: int) returns (removed: bool)
      modifies `aces
      ensures aces == RemoveAce(old(aces), aceid) && (removed <==> aceid in AceIds(old(aces)))
    {
      var k := 0;
      while k < |aces|
        invariant k <= |aces| && aces == old(aces) && forall j :: 0 <= j < k ==> aces[j].aceid != aceid
      {
        if aces[k].aceid == aceid {
          RemoveAceAt(aces, aceid, k);
          aces := aces[..k] + aces[k + 1..];
          return true;
        }
        k := k + 1;
      }
      RemoveAceAbsent(aces, aceid);
      removed := false;
    }

    method ClearAcl()
      modifies `aces
      ensures aces == []
    {
      while aces != []
        decreases |aces|
      {
        aces := aces[1..];
      }
    }

    method UpdateAce(subject: Subject, p: Pattern, aceid: int, permission: bv16, c: Chance, n: nat)
      modifies `aces
      ensures aces == UpdateRes(old(aces), subject, p, aceid, permission, c, n)
    {
      hide ResMatches;
      var k := AccessControl.FindSubject(-1, aces, subject, aceid, permission);
      if k < |aces| {
        var j := AccessControl.FindResource(-1, aces[k].resources, p);
        assert j < |aces[k].resources| <==> AnyResMatches(aces[k].resources, p);
        if j < |aces[k].resources| || !c.alloc(2 * n + 1) {
          return;
        }
      } else {
        if !c.alloc(2 * n) {
          return;
        }
        var id := aceid;
        if aceid == -1 {
          id := c.id(AceIds(aces));
        }
        aces := aces + [Ace(id, subject, permission, [])];
        assert aces[k].resources + [NewRes(p)] == [NewRes(p)];
        if !c.alloc(2 * n + 1) {
          return;
        }
      }
      aces := aces[k := aces[k].(resources := aces[k].resources + [NewRes(p)])];
    }

    method AclDefault(c: Chance)
      modifies `aces, `aclRowner
      ensures aces == DefaultAces(core, c) && aclRowner == NIL
    {
      ClearAcl();
      NoDefaultAces(c);
      hide UpdateRes, DefaultAces;
      for i := 0 to |core|
        invariant aces == DefaultAces(core[..i], c)
      {
        DefaultAcesOneMore(core, i, c);
        if core[i].uri != "" {
          if i < OCF_SEC_DOXM || i > OCF_SEC_CRED {
            UpdateAce(OfConn(ANON_CLEAR), CorePattern(core[i]), 1, 2, c, i);
          }
          if OCF_SEC_DOXM <= i < OCF_D {
            UpdateAce(OfConn(ANON_CLEAR), CorePattern(core[i]), 2, 14, c, i);
          }
        }
      }
      Ends(core);
      aclRowner := NIL;
    }

    // Drops the resources with this href, and the entry itself when it has none left.
    method FreeResources(k: nat, href: string) returns (gone: bool)
      requires k < |aces|
      modifies `aces
      ensures var left := WithoutHref(old(aces)[k].resources, href);
              && (gone <==> left == [])
              && aces == if gone then old(aces)[..k] + old(aces)[k + 1..]
                         else old(aces)[k := old(aces)[k].(resources := left)]
    {
      var res := aces[k].resources;
      var j := 0;
      while j < |res|
        invariant aces == old(aces) && j <= |res| && forall i :: 0 <= i < j ==> res[i].href != href
        invariant WithoutHref(aces[k].resources, href) == WithoutHref(res, href)
        decreases |res| - j
      {
        if res[j].href == href {
          ghost var before := res;
          res := res[..j] + res[j + 1..];
          assert before == before[..j] + before[j..] && before[j..][1..] == before[j + 1..];
          WithoutHrefSkips(before[..j], before[j..], href);
          WithoutHrefSkips(before[..j], before[j + 1..], href);
        } else {
          j := j + 1;
        }
      }
      assert res + [] == res;
      WithoutHrefSkips(res, [], href);
      if res == [] {
        aces := aces[..k] + aces[k + 1..];
        gone := true;
      } else {
        aces := aces[k := aces[k].(resources := res)];
        gone := false;
      }
    }

    // Takes acl2 and cred off one entry.
    method CloseEntry(k: nat) returns (gone: bool)
      requires k < |aces|
      modifies `aces
      ensures var left := WithoutHref(old(aces)[k].resources, ACL_URI);
              var rest := WithoutHref(left, CRED_URI);
              && (gone <==> left == [] || rest == [])
              && aces == if gone then old(aces)[..k] + old(aces)[k + 1..]
                         else old(aces)[k := old(aces)[k].(resources := rest)]
    {
      hide WithoutHref;
      ghost var before := aces;
      gone := FreeResources(k, ACL_URI);
      if !gone {
        gone := FreeResources(k, CRED_URI);
        assert gone ==> aces == before[..k] + before[k + 1..];
        assert !gone ==> aces == before[k := aces[k]];
      }
    }

    // Closes acl2 and cred to anonymous peers; stops when an entry was dropped.
    method SetPostOtmAcl()
      modifies `aces
      ensures aces == PostOtm(old(aces), 0)
    {
      var current, more := -1, true;
      hide WithoutHref;
      while more
        invariant -1 <= current && (more ==> current < |aces|)
        invariant PostOtm(old(aces), 0) == if more then PostOtm(aces, current + 1) else aces
        decreases more, |aces| - current
      {
        var k := AccessControl.FindSubject(current, aces, OfConn(ANON_CLEAR), -1, 14);
        if k < |aces| {
          var gone := CloseEntry(k);
          current, more := k, !gone;
        } else {
          more := false;
        }
      }
    }

    method DecodeAcl(rep: seq<Prop<AceEntry>>, c: Chance) returns (status: Status)
      modifies `aces, `aclRowner
      ensures (State(), status) == PostAcl(old(State()), rep, c)
    {
      hide UpdateRes;
      for i := 0 to |rep|
        invariant forall j :: 0 <= j < i ==> AclPropAllowed(pstat.s, rep[j])
      {
        match rep[i].value {
          case Text(_) =>
            if rep[i].name == "rowneruuid" && (pstat.s == RFNOP || pstat.s == RFPRO) {
              return BadRequest;
            }
          case ObjectArray(_) =>
            if pstat.s == RFNOP {
              return BadRequest;
            }
          case _ =>
        }
      }
      ghost var start := AclState(AclAcc(aces, 0), aclRowner);
      var n := 0;
      Ends(rep);
      for i := 0 to |rep|
        invariant ApplyAcl(start, rep, c) == ApplyAcl(AclState(AclAcc(aces, n), aclRowner), rep[i..], c)
      {
        OneMore(rep, i);
        match rep[i].value {
          case Text(uuid) =>
            if rep[i].name == "rowneruuid" {
              aclRowner := uuid;
            }
          case ObjectArray(items) =>
            n := ApplyAceList(items, c, n);
          case _ =>
        }
      }
      status := Changed;
    }

    method ApplyAceList(items: seq<AceEntry>, c: Chance, n: nat) returns (m: nat)
      modifies `aces
      ensures AclAcc(aces, m) == ApplyAceEntries(AclAcc(old(aces), n), items, c)
    {
      hide UpdateRes;
      m := n;
      Ends(items);
      for i := 0 to |items|
        invariant ApplyAceEntries(AclAcc(old(aces), n), items, c) == ApplyAceEntries(AclAcc(aces, m), items[i..], c)
      {
        OneMore(items, i);
        var e := items[i];
        ghost var before := AclAcc(aces, m);
        if e.aceid != -1 {
          // Removing an identifier that is not there changes nothing, so the source's test is only a shortcut.
          var removed := RemoveAceById(e.aceid);
        }
        ghost var cleared := AclAcc(aces, m);
        Ends(e.resources);
        for j := 0 to |e.resources|
          invariant ApplyPatterns(cleared, e, e.resources, c) == ApplyPatterns(AclAcc(aces, m), e, e.resources[j..], c)
        {
          OneMore(e.resources, j);
          UpdateAce(e.subject, e.resources[j], e.aceid, e.permission, c, m);
          m := m + 1;
        }
        assert AclAcc(aces, m) == ApplyAceEntry(before, e, c);
      }
    }

    method HandleAclDelete(aceid: Option<int>) returns (status: Status)
      modifies `aces
      ensures (State(), status) == DeleteAcl(old(State()), aceid)
    {
      if pstat.s == RFNOP {
        return Forbidden;
      }
      var success := false;
      match aceid {
        case Some(id) =>
          if id != 0 {
            success := RemoveAceById(id);
            if !success {
              RemoveAceAbsent(old(aces), id) by { AbsentIds(old(aces), id); }
            }
          }
        case None =>
          ClearAcl();
          success := true;
      }
      status := if success then Deleted else NotFound;
    }

    // ----- oc_cred.c

    method FindCred(credid: int) returns (k: nat)
      ensures k == Find(creds, ByCredid(credid))
    {
      k := 0;
      while k < |creds| && creds[k].credid != credid
        invariant k <= |creds| && forall j :: 0 <= j < k ==> creds[j].credid != credid
      {
        k := k + 1;
      }
    }

    method RemoveCredById(credid: int) returns (removed: bool)
      modifies `creds
      ensures creds == RemoveFirst(old(creds), ByCredid(credid)) && (removed <==> HasCredid(old(creds), credid))
    {
      var k := FindCred(credid);
      removed := k < |creds|;
      if removed {
        creds := RemoveAt(creds, k);
      }
    }

    method ClearCreds()
      modifies `creds
      ensures creds == []
    {
      while creds != []
        decreases |creds|
      {
        creds := creds[1..];
      }
    }

    // The key to store: base64 text is decoded in a buffer of its own.
    method ReadKey(e: CredEntry) returns (secret: Option<Secret>)
      requires e.Entry?
      ensures secret == EntrySecret(e)
    {
      hide Base64.WellFormed, Base64.ByteAt;
      if e.data == [] {
        return Some(NoSecret);
      }
      if e.credtype != CREDTYPE_PSK || e.encoding != Base64Text {
        return Some(Secret.Provisioned(e.encoding, e.data));
      }
      if |e.data| != 24 {
        return None;
      }
      var key := new bv8[24](i requires 0 <= i < |e.data| => e.data[i]);
      assert key[..24] == e.data;
      var size := Base64.Decode(key, 24);
      if size < 0 {
        return None;
      }
      assert key[..size] == key[..24][..size] == Base64.Decoded(e.data);
      secret := Some(Secret.Provisioned(Raw, key[..size]));
    }

    // First credential of the subject from `start` on, or |creds|.
    method FindCredsForSubject(subject: Uuid, start: nat) returns (k: nat)
      requires start <= |creds|
      ensures start <= k <= |creds| && (k < |creds| ==> creds[k].subject == subject)
      ensures forall j :: start <= j < k ==> creds[j].subject != subject
    {
      k := start;
      while k < |creds| && creds[k].subject != subject
        invariant start <= k <= |creds| && forall j :: start <= j < k ==> creds[j].subject != subject
      {
        k := k + 1;
      }
    }

    // The walk over the subject's credentials for one of this type and identifier.
    method RemoveSame(subject: Uuid, credtype: int, credid: int)
      modifies `creds
      ensures creds == RemoveFirst(old(creds), BySame(subject, credtype, credid))
    {
      var start, more := 0, true;
      while more
        invariant creds == old(creds) && start <= |creds| && (more || start == |creds|)
        invariant forall j :: 0 <= j < start ==> !Fits(creds[j], BySame(subject, credtype, credid))
        decreases more, |creds| - start
      {
        var k := FindCredsForSubject(subject, start);
        if k < |creds| && creds[k].credtype == credtype && creds[k].credid == credid {
          creds := RemoveAt(creds, k);
          return;
        }
        start := if k < |creds| then k + 1 else k;
        more := start < |creds|;
      }
    }

    // Adds a credential in place of the one with its identifier.
    method AddNewCred(e: CredEntry, room: bool, c: Chance) returns (id: int)
      requires e.Entry?
      modifies `creds
      ensures (creds, id) == AddCred(old(creds), e, room, c)
    {
      hide EntrySecret;
      if e.subject.None? {
        return -1;
      }
      var removed := RemoveCredById(e.credid);
      RemoveSame(e.subject.value, e.credtype, e.credid);
      if !room {
        return -1;
      }
      id := if e.credid == -1 then c.id(CredIds(creds) + {0}) else e.credid;
      var secret := ReadKey(e);
      if secret.None? {
        return -1;
      }
      var role, authority := "", "";
      if e.role.Some? {
        role := e.role.value;
        if e.authority.Some? {
          authority := e.authority.value;
        }
      }
      creds := creds + [Cred(id, e.credtype, e.subject.value, secret.value, role, authority)];
    }

    method ApplyCredList(items: seq<CredEntry>, owner: Option<int>, n: nat, c: Chance)
      returns (ok: bool, next: Option<int>, m: nat)
      modifies `creds
      ensures (CredAcc(creds, credRowner, next, m), ok)
           == ApplyCredEntries(CredAcc(old(creds), credRowner, owner, n), items, c)
    {
      hide AddCred;
      next, m := owner, n;
      ghost var start := CredAcc(creds, credRowner, owner, n);
      Ends(items);
      for i := 0 to |items|
        invariant ApplyCredEntries(start, items, c)
               == ApplyCredEntries(CredAcc(creds, credRowner, next, m), items[i..], c)
      {
        OneMore(items, i);
        match items[i] {
          case EmptyEntry =>
          case UnsupportedEncoding =>
            return false, next, m;
          case Entry(_, credtype, _, _, data, _, _) =>
            var credid := AddNewCred(items[i], c.alloc(m), c);
            m := m + 1;
            if credid == -1 {
              return false, next, m;
            }
            if credtype == CREDTYPE_PSK && data == [] {
              next := Some(credid);
            }
        }
      }
      ok := true;
    }

    // Checks every property before it applies any.
    method DecodeCred(rep: seq<Prop<CredEntry>>, c: Chance) returns (ok: bool, owner: Option<int>)
      modifies `creds, `credRowner
      ensures !CredAllowed(pstat.s, rep) ==> !ok && owner == None && State() == old(State())
      ensures CredAllowed(pstat.s, rep) ==> (
                var (a, good) := ApplyCredProps(CredAcc(old(creds), old(credRowner), None, 0), rep, c);
                ok == good && owner == a.owner && creds == a.creds && credRowner == a.rowner)
    {
      owner := None;
      for i := 0 to |rep|
        invariant forall j :: 0 <= j < i ==> CredPropAllowed(pstat.s, rep[j])
      {
        match rep[i].value {
          case Text(_) =>
            if rep[i].name == "rowneruuid" && pstat.s != RFOTM && pstat.s != SRESET {
              return false, None;
            }
          case ObjectArray(_) =>
            if pstat.s != RFOTM && pstat.s != SRESET && pstat.s != RFPRO {
              return false, None;
            }
          case _ =>
        }
      }
      ghost var start := CredAcc(creds, credRowner, None, 0);
      var n := 0;
      Ends(rep);
      for i := 0 to |rep|
        invariant ApplyCredProps(start, rep, c) == ApplyCredProps(CredAcc(creds, credRowner, owner, n), rep[i..], c)
      {
        OneMore(rep, i);
        match rep[i].value {
          case Text(uuid) =>
            if rep[i].name == "rowneruuid" {
              credRowner := uuid;
            }
          case ObjectArray(items) =>
            if rep[i].name == "creds" || rep[i].name == "roles" {
              ok, owner, n := ApplyCredList(items, owner, n, c);
              if !ok {
                return;
              }
            }
          case _ =>
        }
      }
      ok := true;
    }

    // The owner's key is derived in place once its entry is stored.
    method HandleCredPost(rep: seq<Prop<CredEntry>>, session: Option<nat>, c: Chance) returns (status: Status)
      modifies `creds, `credRowner
      ensures (State(), status) == PostCred(old(State()), rep, session, c)
    {
      hide CredAllowed, ApplyCredProps;
      var success, owner := DecodeCred(rep, c);
      if success && owner.Some? {
        var k := FindCred(owner.value);
        if k < |creds| && creds[k].subject == credRowner {
          var oxm := if doxm.oxmsel == OXM_JW then OXM_JUST_WORKS else OXM_RANDOM_PIN;
          if doxm.oxmsel != OXM_JW && doxm.oxmsel != OXM_RDP {
            creds := creds[k := creds[k].(secret := Unset)];
          } else if session.Some? {
            var args := KdfArgs(session.value, oxm, doxm.deviceuuid, creds[k].subject);
            creds := creds[k := creds[k].(secret := Derived(args))];
          } else {
            success := false;
          }
        }
      }
      if !success {
        if owner.Some? {
          var removed := RemoveCredById(owner.value);
        }
        status := BadRequest;
      } else {
        status := Changed;
      }
    }

    method HandleCredDelete(credid: Option<int>) returns (status: Status)
      modifies `creds
      ensures (State(), status) == DeleteCred(old(State()), credid)
    {
      if pstat.s == RFNOP {
        return Forbidden;
      }
      var success := false;
      match credid {
        case Some(id) =>
          if id != 0 {
            success := RemoveCredById(id);
          }
        case None =>
          ClearCreds();
          success := true;
      }
      status := if success then Deleted else NotFound;
    }

    // ----- oc_doxm.c

    // Checks every property before it applies any.
    method DecodeDoxm(rep: seq<Prop<()>>, c: Chance) returns (status: Status)
      modifies `doxm
      ensures (State(), status) == PostDoxm(old(State()), rep, c)
    {
      for i := 0 to |rep|
        invariant forall j :: 0 <= j < i ==> DoxmPropAllowed(pstat.s, rep[j])
      {
        var name := rep[i].name;
        match rep[i].value {
          case Boolean(_) =>
            if name != "owned" || pstat.s != RFOTM {
              return BadRequest;
            }
          case Integer(_) =>
            if name != "oxmsel" || pstat.s != RFOTM {
              return BadRequest;
            }
          case Text(_) =>
            if name == "deviceuuid" || name == "devowneruuid" {
              if pstat.s != RFOTM {
                return BadRequest;
              }
            } else if name == "rowneruuid" {
              if pstat.s != RFOTM && pstat.s != SRESET {
                return BadRequest;
              }
            } else {
              return BadRequest;
            }
          case IntArray =>
            if name == "oxms" {
              return BadRequest;
            }
          case _ =>
            if !IsInterfaceOrType(name) && name != "oxms" {
              return BadRequest;
            }
        }
      }
      Ends(rep);
      for i := 0 to |rep|
        invariant doxm == ApplyDoxm(old(doxm), rep[..i], c)
      {
        OneMore(rep, i);
        var name := rep[i].name;
        match rep[i].value {
          case Boolean(b) =>
            if name == "owned" {
              doxm := doxm.(owned := b);
            }
          case Integer(v) =>
            if name == "oxmsel" {
              doxm := doxm.(oxmsel := v);
            }
          case Text(uuid) =>
            if name == "deviceuuid" {
              doxm := doxm.(deviceuuid := uuid);
            } else if name == "devowneruuid" {
              doxm := doxm.(devowner := uuid);
              if uuid != NIL {
                doxm := doxm.(deviceuuid := c.uuid(i));
              }
            } else if name == "rowneruuid" {
              doxm := doxm.(rowner := uuid);
            }
          case _ =>
        }
      }
      status := Changed;
    }

    // ----- oc_pstat.c


    method IsProvisioned(ps: Pstat) returns (found: bool)
      ensures found <==> DeviceModel.Provisioned(State(), ps)
    {
      if !doxm.owned || doxm.devowner == NIL || doxm.deviceuuid == NIL || ps.rowner == NIL || doxm.rowner == NIL
         || aclRowner == NIL || credRowner == NIL {
        return false;
      }
      var k := FindCredsForSubject(ps.rowner, 0);
      if k < |creds| {
        k := FindCredsForSubject(doxm.rowner, 0);
      }
      if k < |creds| {
        k := FindCredsForSubject(aclRowner, 0);
      }
      if k < |creds| {
        k := FindCredsForSubject(credRowner, 0);
      }
      found := k < |creds|;
    }

    // Tries to enter the state that `target` names, preparing the record for it first.
    method EnterState(target: Pstat, c: Chance) returns (ok: bool)
      modifies this
      ensures (State(), ok) == HandleState(old(State()), target, core, c)
      ensures ok ==> pstat.s == if target.s == RESET then RFOTM else target.s
    {
      hide DeviceModel.Provisioned, DefaultAces;
      var ps := target;
      if ps.s == RESET {
        ps := ps.(isop := false, cm := 1, tm := 2, om := 3, sm := 4, rowner := NIL);
        doxm := Doxm(0, 1, false, c.uuid(0), NIL, NIL);
        ClearCreds();
        credRowner := NIL;
        AclDefault(c);
        postOtm := true;
        ps := ps.(s := RFOTM);
      }
      if ps.s == RFOTM {
        ps := ps.(cm := 2, tm := 0);
        ok := !doxm.owned && doxm.devowner == NIL && !ps.isop;
      } else if ps.s == RFPRO {
        ps := ps.(cm := 0, tm := 0, isop := false);
        ok := IsProvisioned(ps);
      } else if ps.s == RFNOP {
        ps := ps.(cm := 0, tm := 0, isop := true);
        ok := IsProvisioned(ps);
      } else if ps.s == SRESET {
        ps := ps.(cm := 1, tm := 0, isop := false);
        ok := IsProvisioned(ps);
      } else {
        ok := false;
      }
      if ok {
        pstat := ps.(p := false);
      }
    }

    // Reads the requested state into a copy, and commits or enters it only at the end.
    method DecodePstat(rep: seq<Prop<()>>, c: Chance) returns (status: Status)
      modifies this
      ensures (State(), status) == PostPstat(old(State()), rep, core, c)
    {
      hide HandleState, PostOtm;
      var ps, transition := pstat, false;
      Ends(rep);
      for i := 0 to |rep|
        modifies {}
        invariant ScanPstat(pstat, false, rep) == ScanPstat(ps, transition, rep[i..])
      {
        OneMore(rep, i);
        var name := rep[i].name;
        match rep[i].value {
          case Object(members) =>
            if name != "dos" {
              return BadRequest;
            }
            ghost var ps0, t0 := ps, transition;
            Ends(members);
            for j := 0 to |members|
              modifies {}
              invariant ScanDos(ps0, t0, members) == ScanDos(ps, transition, members[j..])
            {
              OneMore(members, j);
              match members[j] {
                case IntMember(member, integer) =>
                  if member != "s" {
                    return BadRequest;
                  }
                  ps, transition := ps.(s := integer), true;
                case OtherMember(member) =>
                  if member == "p" {
                    return BadRequest;
                  }
              }
            }
          case Boolean(_) =>
            return BadRequest;
          case Integer(v) =>
            if StartsWith(name, "tm") {
              ps := ps.(tm := v);
            } else if StartsWith(name, "om") {
              ps := ps.(om := v);
            } else {
              return BadRequest;
            }
          case Text(uuid) =>
            if ps.s == RFPRO || ps.s == RFNOP || name != "rowneruuid" {
              return BadRequest;
            }
            ps := ps.(rowner := uuid);
          case _ =>
            if !IsInterfaceOrType(name) {
              return BadRequest;
            }
        }
      }
      assert ScanPstat(pstat, false, rep) == Scanned(ps, transition);
      if !ValidTransition(pstat.s, ps.s) {
        return BadRequest;
      }
      if !transition {
        pstat := ps;
        return Changed;
      }
      var ok := EnterState(ps, c);
      if ok && pstat.s == RFNOP && postOtm {
        SetPostOtmAcl();
        postOtm := false;
      }
      status := if ok then Changed else BadRequest;
    }

    // ----- one request

    method Handle(r: Request, c: Chance) returns (status: Status)
      modifies this
      ensures (State(), status) == Step(old(State()), r, core, c)
      ensures DeviceRuns.Inv(old(State())) && Fair(c) ==> DeviceRuns.Inv(State())
      ensures DeviceRuns.Inv(old(State())) && old(pstat.s) != RFOTM ==>
                if pstat.s == RFOTM then DeviceRuns.JustReset(State(), core, c)
                else doxm == old(doxm).(oxmsel := doxm.oxmsel, sct := doxm.sct, rowner := doxm.rowner)
    {
      hide PostPstat, PostDoxm, PostAcl, DeleteAcl, PostCred, DeleteCred, DeviceRuns.Inv, DeviceRuns.JustReset;
      match r {
        case PstatPost(rep) => status := DecodePstat(rep, c);
        case DoxmPost(rep) => status := DecodeDoxm(rep, c);
        case AclPost(rep) => status := DecodeAcl(rep, c);
        case AclDelete(aceid) => status := HandleAclDelete(aceid);
        case CredPost(rep, session) => status := HandleCredPost(rep, session, c);
        case CredDelete(credid) => status := HandleCredDelete(credid);
      }
      StepKeeps(old(State()), r, core, c);
    }
  }
}
