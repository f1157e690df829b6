/** The credential list and its operations (security/oc_cred.c, without PKI). */
module CredModel {
  import opened Payload
  import Base64

  const CREDTYPE_PSK := 1
  const OXM_JUST_WORKS := "oic.sec.doxm.jw"
  const OXM_RANDOM_PIN := "oic.sec.doxm.rdp"

  datatype Encoding = Unsupported | Base64Text | Raw

  // What the key derivation is applied to: the TLS session and its three labels.
  datatype KdfArgs = KdfArgs(session: nat, oxm: string, server: Uuid, obt: Uuid)

  // A stored key. Derived keys are kept as the arguments that determine them.
  datatype Secret = NoSecret | Provisioned(encoding: Encoding, data: seq<bv8>) | Derived(args: KdfArgs) | Unset

  datatype Cred = Cred(credid: int, credtype: int, subject: Uuid, secret: Secret, role: string, authority: string)

  // An entry of a posted list. The subject "*" is one particular UUID.
  datatype CredEntry =
    | EmptyEntry
    | UnsupportedEncoding
    | Entry(credid: int, credtype: int, subject: Option<Uuid>, encoding: Encoding, data: seq<bv8>,
            role: Option<string>, authority: Option<string>)

  predicate HasCredFor(creds: seq<Cred>, subject: Uuid) {
    exists i :: 0 <= i < |creds| && creds[i].subject == subject
  }

  predicate HasCredid(creds: seq<Cred>, credid: int) {
    exists i :: 0 <= i < |creds| && creds[i].credid == credid
  }

  function CredIds(creds: seq<Cred>): set<int> {
    set i | 0 <= i < |creds| :: creds[i].credid
  }

  predicate DistinctCredIds(creds: seq<Cred>) {
    forall i, j :: 0 <= i < j < |creds| ==> creds[i].credid != creds[j].credid
  }

  // -1 stands for "no identifier" in requests and results, so no credential may carry it.
  predicate ProperIds(creds: seq<Cred>) {
    DistinctCredIds(creds) && !HasCredid(creds, -1)
  }

  // What the searches of the source look for.
  datatype Key =
    | ByCredid(credid: int)
    | BySubject(subject: Uuid)
    | ByPsk(subject: Uuid)
    | BySame(subject: Uuid, credtype: int, credid: int)

  predicate Fits(cred: Cred, key: Key) {
    match key
    case ByCredid(credid) => cred.credid == credid
    case BySubject(subject) => cred.subject == subject
    case ByPsk(subject) => cred.credtype == CREDTYPE_PSK && cred.subject == subject
    case BySame(subject, credtype, credid) =>
      cred.subject == subject && cred.credtype == credtype && cred.credid == credid
  }

  // First credential that fits, or |creds|.
  function Find(creds: seq<Cred>, key: Key): (k: nat)
    ensures k <= |creds| && (k < |creds| ==> Fits(creds[k], key))
    ensures forall j :: 0 <= j < k ==> !Fits(creds[j], key)
  {
    if creds == [] || Fits(creds[0], key) then 0 else 1 + Find(creds[1..], key)
  }

  function RemoveAt(creds: seq<Cred>, k: nat): seq<Cred>
    requires k < |creds|
  {
    creds[..k] + creds[k + 1..]
  }

  function RemoveFirst(creds: seq<Cred>, key: Key): seq<Cred> {
    var k := Find(creds, key);
    if k < |creds| then RemoveAt(creds, k) else creds
  }

  // The key an entry stores, or None when a base64 pre-shared key is malformed.
  function EntrySecret(e: CredEntry): Option<Secret>
    requires e.Entry?
  {
    if e.data == [] then Some(NoSecret)
    else if e.credtype == CREDTYPE_PSK && e.encoding == Base64Text then
      if |e.data| == 24 && Base64.WellFormed(e.data) then Some(Provisioned(Raw, Base64.Decoded(e.data))) else None
    else Some(Provisioned(e.encoding, e.data))
  }

  function EntryRole(e: CredEntry): string
    requires e.Entry?
  {
    if e.role.Some? then e.role.value else ""
  }

  function EntryAuthority(e: CredEntry): string
    requires e.Entry?
  {
    if e.role.Some? && e.authority.Some? then e.authority.value else ""
  }

  // Room for an entry: a credential with its identifier goes, and then one of the same
  // subject and type that still has it.
  function MakeWay(creds: seq<Cred>, e: CredEntry): seq<Cred>
    requires e.Entry? && e.subject.Some?
  {
    RemoveFirst(RemoveFirst(creds, ByCredid(e.credid)), BySame(e.subject.value, e.credtype, e.credid))
  }

  // Adds or replaces a credential; the result is its identifier, or -1.
  function AddCred(creds: seq<Cred>, e: CredEntry, room: bool, c: Chance): (seq<Cred>, int)
    requires e.Entry?
  {
    if e.subject.None? then (creds, -1)
    else
      var base := MakeWay(creds, e);
      if !room || EntrySecret(e).None? then (base, -1)
      else
        var id := if e.credid == -1 then c.id(CredIds(base) + {0}) else e.credid;
        (base + [Cred(id, e.credtype, e.subject.value, EntrySecret(e).value, EntryRole(e), EntryAuthority(e))], id)
  }

  // State of a POST while its payload is applied: `owner` is the entry awaiting an owner
  // key, `n` counts the entries handled.
  datatype CredAcc = CredAcc(creds: seq<Cred>, rowner: Uuid, owner: Option<int>, n: nat)

  function ApplyCredEntry(a: CredAcc, e: CredEntry, c: Chance): (CredAcc, bool) {
    match e
    case EmptyEntry => (a, true)
    case UnsupportedEncoding => (a, false)
    case Entry(_, _, _, _, _, _, _) =>
      var (creds, id) := AddCred(a.creds, e, c.alloc(a.n), c);
      var owner := if id != -1 && e.credtype == CREDTYPE_PSK && e.data == [] then Some(id) else a.owner;
      (CredAcc(creds, a.rowner, owner, a.n + 1), id != -1)
  }

  function ApplyCredEntries(a: CredAcc, es: seq<CredEntry>, c: Chance): (CredAcc, bool)
    decreases |es|
  {
    if es == [] then (a, true)
    else
      var (b, ok) := ApplyCredEntry(a, es[0], c);
      if ok then ApplyCredEntries(b, es[1..], c) else (b, false)
  }

  function ApplyCredProp(a: CredAcc, p: Prop<CredEntry>, c: Chance): (CredAcc, bool) {
    match p.value
    case Text(uuid) => (if p.name == "rowneruuid" then a.(rowner := uuid) else a, true)
    case ObjectArray(items) => if p.name == "creds" || p.name == "roles" then ApplyCredEntries(a, items, c) else (a, true)
    case _ => (a, true)
  }

  function ApplyCredProps(a: CredAcc, rep: seq<Prop<CredEntry>>, c: Chance): (CredAcc, bool)
    decreases |rep|
  {
    if rep == [] then (a, true)
    else
      var (b, ok) := ApplyCredProp(a, rep[0], c);
      if ok then ApplyCredProps(b, rep[1..], c) else (b, false)
  }

  // ----- identifiers stay distinct

  lemma RemoveCredidKeepsIds(creds: seq<Cred>, credid: int)
    requires ProperIds(creds)
    ensures var after := RemoveFirst(creds, ByCredid(credid)); ProperIds(after) && !HasCredid(after, credid)
  {
    var k := Find(creds, ByCredid(credid));
    var after := RemoveFirst(creds, ByCredid(credid));
    if k < |creds| {
      forall i | 0 <= i < |after| ensures after[i] == creds[if i < k then i else i + 1] {
      }
    }
  }

  // Identifiers being distinct, the second removal finds nothing.
  lemma MakeWayOnce(creds: seq<Cred>, e: CredEntry)
    requires e.Entry? && e.subject.Some? && ProperIds(creds)
    ensures MakeWay(creds, e) == RemoveFirst(creds, ByCredid(e.credid))
    ensures ProperIds(MakeWay(creds, e)) && !HasCredid(MakeWay(creds, e), e.credid)
  {
    RemoveCredidKeepsIds(creds, e.credid);
  }

  lemma AddCredKeepsIds(creds: seq<Cred>, e: CredEntry, room: bool, c: Chance)
    requires e.Entry? && Fair(c) && ProperIds(creds)
    ensures ProperIds(AddCred(creds, e, room, c).0)
  {
    if e.subject.Some? {
      MakeWayOnce(creds, e);
      var base := MakeWay(creds, e);
      var id := if e.credid == -1 then c.id(CredIds(base) + {0}) else e.credid;
      forall i | 0 <= i < |base| ensures base[i].credid != id {
        assert base[i].credid in CredIds(base);
      }
    }
  }

  lemma {:induction false} ApplyCredEntriesKeepsIds(a: CredAcc, es: seq<CredEntry>, c: Chance)
    requires Fair(c) && ProperIds(a.creds)
    ensures ProperIds(ApplyCredEntries(a, es, c).0.creds)
    decreases |es|
  {
    if es != [] {
      if es[0].Entry? {
        AddCredKeepsIds(a.creds, es[0], c.alloc(a.n), c);
      }
      var (b, ok) := ApplyCredEntry(a, es[0], c);
      if ok {
        ApplyCredEntriesKeepsIds(b, es[1..], c);
      }
    }
  }

  // Distinct before, distinct after, whatever is posted and wherever the POST gives up.
  lemma {:induction false} PostedCredIdsDistinct(a: CredAcc, rep: seq<Prop<CredEntry>>, c: Chance)
    requires Fair(c) && ProperIds(a.creds)
    ensures ProperIds(ApplyCredProps(a, rep, c).0.creds)
    decreases |rep|
  {
    if rep != [] {
      if rep[0].value.ObjectArray? {
        ApplyCredEntriesKeepsIds(a, rep[0].value.items, c);
      }
      var (b, ok) := ApplyCredProp(a, rep[0], c);
      if ok {
        PostedCredIdsDistinct(b, rep[1..], c);
      }
    }
  }
}
