/** Request and response payloads after CBOR parsing, and the sources of
    randomness and memory that handlers draw on. */
module Payload {

  datatype Option<+T> = None | Some(value: T)

  // A UUID is an opaque value with one nil element.
  type Uuid = nat

  const NIL: Uuid := 0

  // Members of a nested object: the handlers only tell integers from the rest.
  datatype Member = IntMember(name: string, integer: int) | OtherMember(name: string)

  // A text value stands for the UUID that its characters spell: no handler
  // reads a top-level string in any other way.
  datatype Value<+T> =
    | Boolean(boolean: bool)
    | Integer(integer: int)
    | Text(uuid: Uuid)
    | IntArray
    | Object(members: seq<Member>)
    | ObjectArray(items: seq<T>)
    | Other

  datatype Prop<+T> = Prop(name: string, value: Value<T>)

  // Names of properties that every resource accepts and ignores.
  predicate IsInterfaceOrType(name: string) {
    name == "rt" || name == "if"
  }

  // One request's supply of generated UUIDs, unused identifiers and
  // allocation outcomes, indexed by the order in which the handler asks.
  datatype Chance = Chance(uuid: nat -> Uuid, id: set<int> -> int, alloc: nat -> bool)

  ghost predicate Fair(c: Chance) {
    && (forall k: nat :: c.uuid(k) != NIL)
    && (forall used: set<int> :: c.id(used) !in used && c.id(used) >= 0)
  }

  ghost predicate Plentiful(c: Chance) {
    Fair(c) && forall k: nat :: c.alloc(k)
  }
}
