/** The life of block-wise buffers and of the timeouts that will free them
    (api/oc_blockwise.c), up to the end of a client request (api/oc_ri.c). */
module ClientCallbacks {
  import opened Payload

  // Addresses may be used again once they are free.
  type Address = nat

  datatype Buffer = Buffer(id: Address, client: Option<Address>, refs: nat)

  datatype Callback = RequestTimeout | ResponseTimeout | ClientTimeout | Unrelated

  // A pending delayed callback: the function to call and its argument.
  datatype Event = Event(data: Address, callback: Callback)

  // ----- lists

  function Ids(list: seq<Buffer>): set<Address> {
    set i | 0 <= i < |list| :: list[i].id
  }

  predicate DistinctIds(list: seq<Buffer>) {
    forall i, j :: 0 <= i < j < |list| ==> list[i].id != list[j].id
  }

  // Which buffers a sweep frees: those of a client request that ends, or those nobody refers to.
  datatype Sweep = OfClient(client: Address) | Unreferenced

  predicate Frees(w: Sweep, b: Buffer) {
    match w
    case OfClient(client) => b.client == Some(client)
    case Unreferenced => b.refs == 0
  }

  function Surviving(list: seq<Buffer>, w: Sweep): seq<Buffer> {
    if list == [] then [] else (if Frees(w, list[0]) then [] else [list[0]]) + Surviving(list[1..], w)
  }

  function FreeId(list: seq<Buffer>, id: Address): (r: seq<Buffer>)
    ensures |r| <= |list|
  {
    if list == [] then [] else if list[0].id == id then list[1..] else [list[0]] + FreeId(list[1..], id)
  }

  // A block-wise timeout is live while the buffer it would free is on its list.
  predicate IsLive(e: Event, requests: set<Address>, responses: set<Address>) {
    && (e.callback == RequestTimeout ==> e.data in requests)
    && (e.callback == ResponseTimeout ==> e.data in responses)
  }

  function LiveOnly(timed: seq<Event>, requests: set<Address>, responses: set<Address>): seq<Event> {
    if timed == [] then []
    else (if IsLive(timed[0], requests, responses) then [timed[0]] else []) + LiveOnly(timed[1..], requests, responses)
  }

  function RemoveEvent(timed: seq<Event>, data: Address, callback: Callback): seq<Event> {
    if timed == [] then []
    else if timed[0] == Event(data, callback) then timed[1..]
    else [timed[0]] + RemoveEvent(timed[1..], data, callback)
  }

  predicate IsBlockwise(e: Event) {
    e.callback == RequestTimeout || e.callback == ResponseTimeout
  }

  // At most one timeout is pending for a buffer.
  predicate OneTimeoutEach(timed: seq<Event>) {
    forall i, j :: 0 <= i < j < |timed| && IsBlockwise(timed[i]) ==> timed[i] != timed[j]
  }

  predicate AllLive(timed: seq<Event>, requests: set<Address>, responses: set<Address>) {
    forall i :: 0 <= i < |timed| ==> IsLive(timed[i], requests, responses)
  }

  // ----- list lemmas

  lemma {:induction false} RemoveEventAt(timed: seq<Event>, data: Address, callback: Callback, k: nat)
    requires k <= |timed| && (forall j :: 0 <= j < k ==> timed[j] != Event(data, callback))
    requires k < |timed| ==> timed[k] == Event(data, callback)
    ensures RemoveEvent(timed, data, callback) == if k < |timed| then timed[..k] + timed[k + 1..] else timed
  {
    if timed != [] && k > 0 {
      RemoveEventAt(timed[1..], data, callback, k - 1);
    }
  }

  lemma {:induction false} FreeIdAt(list: seq<Buffer>, id: Address, k: nat)
    requires k <= |list| && (forall j :: 0 <= j < k ==> list[j].id != id) && (k < |list| ==> list[k].id == id)
    ensures FreeId(list, id) == if k < |list| then list[..k] + list[k + 1..] else list
  {
    if list != [] && k > 0 {
      FreeIdAt(list[1..], id, k - 1);
    }
  }

  lemma FreeIdIds(list: seq<Buffer>, id: Address, k: nat)
    requires DistinctIds(list) && k < |list| && list[k].id == id
    ensures FreeId(list, id) == list[..k] + list[k + 1..]
    ensures DistinctIds(FreeId(list, id)) && Ids(FreeId(list, id)) == Ids(list) - {id}
  {
    FreeIdAt(list, id, k);
    var after := FreeId(list, id);
    forall i | 0 <= i < |after| ensures after[i] == list[if i < k then i else i + 1] {
    }
    forall x | x in Ids(list) - {id} ensures x in Ids(after) {
      var i :| 0 <= i < |list| && list[i].id == x;
      assert after[if i < k then i else i - 1].id == x;
    }
  }

  lemma {:induction false} LiveOnlyAll(timed: seq<Event>, requests: set<Address>, responses: set<Address>)
    requires AllLive(timed, requests, responses)
    ensures LiveOnly(timed, requests, responses) == timed
  {
    if timed != [] {
      assert forall i :: 0 <= i < |timed[1..]| ==> timed[1..][i] == timed[i + 1];
      LiveOnlyAll(timed[1..], requests, responses);
    }
  }

  lemma {:induction false} LiveOnlyKeeps(timed: seq<Event>, requests: set<Address>, responses: set<Address>, e: Event)
    ensures e in LiveOnly(timed, requests, responses) <==> e in timed && IsLive(e, requests, responses)
  {
    if timed != [] {
      LiveOnlyKeeps(timed[1..], requests, responses, e);
      assert e in timed <==> e == timed[0] || e in timed[1..];
    }
  }

  lemma {:induction false} LiveOnlyTwice(timed: seq<Event>, a: set<Address>, b: set<Address>, c: set<Address>, d: set<Address>)
    requires c <= a && d <= b
    ensures LiveOnly(LiveOnly(timed, a, b), c, d) == LiveOnly(timed, c, d)
  {
    if timed != [] {
      LiveOnlyTwice(timed[1..], a, b, c, d);
      var rest := LiveOnly(timed[1..], a, b);
      if IsLive(timed[0], a, b) {
        var all := [timed[0]] + rest;
        assert LiveOnly(timed, a, b) == all && all[0] == timed[0] && all[1..] == rest;
      } else {
        assert LiveOnly(timed, a, b) == rest;
      }
    }
  }

  // Cancelling the timeout of a buffer that goes leaves exactly the live timeouts.
  lemma {:induction false} CancelOne(timed: seq<Event>, data: Address, callback: Callback,
                                     requests: set<Address>, responses: set<Address>)
    requires OneTimeoutEach(timed) && AllLive(timed, requests, responses)
    requires callback == RequestTimeout || callback == ResponseTimeout
    ensures RemoveEvent(timed, data, callback)
         == if callback == RequestTimeout then LiveOnly(timed, requests - {data}, responses)
            else LiveOnly(timed, requests, responses - {data})
  {
    if timed != [] {
      var rest := timed[1..];
      assert forall i :: 0 <= i < |rest| ==> rest[i] == timed[i + 1];
      if timed[0] == Event(data, callback) {
        forall i | 0 <= i < |rest| ensures rest[i] != timed[0] {
          assert timed[0] != timed[i + 1];
        }
        if callback == RequestTimeout {
          LiveOnlyAll(rest, requests - {data}, responses);
        } else {
          LiveOnlyAll(rest, requests, responses - {data});
        }
      } else {
        CancelOne(rest, data, callback, requests, responses);
      }
    }
  }

  lemma {:induction false} LiveOnlyInv(timed: seq<Event>, requests: set<Address>, responses: set<Address>)
    requires OneTimeoutEach(timed)
    ensures OneTimeoutEach(LiveOnly(timed, requests, responses))
    ensures AllLive(LiveOnly(timed, requests, responses), requests, responses)
  {
    if timed != [] {
      var rest := timed[1..];
      assert forall i :: 0 <= i < |rest| ==> rest[i] == timed[i + 1];
      LiveOnlyInv(rest, requests, responses);
      var left := LiveOnly(rest, requests, responses);
      if IsLive(timed[0], requests, responses) {
        assert LiveOnly(timed, requests, responses) == [timed[0]] + left;
        forall j | 0 <= j < |left| && IsBlockwise(timed[0]) ensures left[j] != timed[0] {
          LiveOnlyKeeps(rest, requests, responses, left[j]);
          var i :| 0 <= i < |rest| && rest[i] == left[j];
          assert timed[0] != timed[i + 1];
        }
      } else {
        assert LiveOnly(timed, requests, responses) == left;
      }
    }
  }

  // ----- sweeps

  lemma {:induction false} SurvivingFront(a: seq<Buffer>, b: seq<Buffer>, w: Sweep)
    requires forall i :: 0 <= i < |a| ==> !Frees(w, a[i])
    ensures Surviving(a + b, w) == a + Surviving(b, w)
  {
    if a == [] {
      assert a + b == b;
    } else {
      SurvivingFront(a[1..], b, w);
      assert (a + b)[0] == a[0] && (a + b)[1..] == a[1..] + b;
    }
  }

  lemma {:induction false} SurvivingKeeps(list: seq<Buffer>, w: Sweep, b: Buffer)
    ensures b in Surviving(list, w) <==> b in list && !Frees(w, b)
  {
    if list != [] {
      SurvivingKeeps(list[1..], w, b);
      assert b in list <==> b == list[0] || b in list[1..];
    }
  }

  // One buffer less: the sweep of the list is that of the shorter list.
  lemma SweepOne(list: seq<Buffer>, i: nat, w: Sweep)
    requires i < |list| && Frees(w, list[i]) && forall j :: 0 <= j < i ==> !Frees(w, list[j])
    ensures Surviving(list, w) == Surviving(list[..i] + list[i + 1..], w)
  {
    SurvivingFront(list[..i], list[i..], w);
    SurvivingFront(list[..i], list[i + 1..], w);
    assert list[..i] + list[i..] == list && list[i..][1..] == list[i + 1..];
  }

  lemma SweepDone(list: seq<Buffer>, w: Sweep)
    requires forall j :: 0 <= j < |list| ==> !Frees(w, list[j])
    ensures Surviving(list, w) == list
  {
    SurvivingFront(list, [], w);
    assert list + [] == list;
  }

  // What a sweep does to the pending callbacks: it cancels the timeout of every buffer that
  // it frees, and nothing else. Other callbacks, and the timeouts of other buffers, stay.
  lemma SweepCancelsExactly(requests: seq<Buffer>, responses: seq<Buffer>, timed: seq<Event>, w: Sweep, e: Event)
    requires DistinctIds(requests) && DistinctIds(responses) && AllLive(timed, Ids(requests), Ids(responses))
    ensures e in LiveOnly(timed, Ids(Surviving(requests, w)), Ids(Surviving(responses, w))) <==> (
              && e in timed
              && !(e.callback == RequestTimeout && exists b :: b in requests && b.id == e.data && Frees(w, b))
              && !(e.callback == ResponseTimeout && exists b :: b in responses && b.id == e.data && Frees(w, b)))
  {
    LiveOnlyKeeps(timed, Ids(Surviving(requests, w)), Ids(Surviving(responses, w)), e);
    if e in timed {
      var i :| 0 <= i < |timed| && timed[i] == e;
      assert IsLive(timed[i], Ids(requests), Ids(responses));
      SurvivingIds(requests, w, e.data);
      SurvivingIds(responses, w, e.data);
    }
  }

  lemma SurvivingIds(list: seq<Buffer>, w: Sweep, id: Address)
    requires DistinctIds(list)
    ensures id in Ids(Surviving(list, w)) <==> id in Ids(list) && !exists b :: b in list && b.id == id && Frees(w, b)
  {
    var after := Surviving(list, w);
    if id in Ids(after) {
      var i :| 0 <= i < |after| && after[i].id == id;
      SurvivingKeeps(list, w, after[i]);
      var k :| 0 <= k < |list| && list[k] == after[i];
      forall b | b in list && b.id == id ensures !Frees(w, b) {
        var j :| 0 <= j < |list| && list[j] == b;
        assert j == k;
      }
    }
    if id in Ids(list) && !exists b :: b in list && b.id == id && Frees(w, b) {
      var k :| 0 <= k < |list| && list[k].id == id;
      SurvivingKeeps(list, w, list[k]);
      var i :| 0 <= i < |after| && after[i] == list[k];
      assert after[i].id == id;
    }
  }

  class Buffers {
    var requests: seq<Buffer>
    var responses: seq<Buffer>
    var timed: seq<Event>
    var clients: seq<Address>

    // No pending block-wise timeout refers to a buffer that is gone.
    predicate Valid()
      reads this
    {
      && DistinctIds(requests) && DistinctIds(responses)
      && AllLive(timed, Ids(requests), Ids(responses)) && OneTimeoutEach(timed)
    }

    constructor ()
      ensures Valid() && requests == [] && responses == [] && timed == [] && clients == []
    {
      requests, responses, timed, clients := [], [], [], [];
    }

    method RemoveTimed(data: Address, callback: Callback)
      modifies `timed
      ensures timed == RemoveEvent(old(timed), data, callback)
    {
      var k := 0;
      while k < |timed| && timed[k] != Event(data, callback)
        invariant timed == old(timed) && k <= |timed| && forall j :: 0 <= j < k ==> timed[j] != Event(data, callback)
      {
        k := k + 1;
      }
      RemoveEventAt(timed, data, callback, k);
      if k < |timed| {
        timed := timed[..k] + timed[k + 1..];
      }
    }

    method ListRemove(list: seq<Buffer>, id: Address) returns (rest: seq<Buffer>)
      ensures rest == FreeId(list, id)
    {
      var k := 0;
      while k < |list| && list[k].id != id
        invariant k <= |list| && forall j :: 0 <= j < k ==> list[j].id != id
      {
        k := k + 1;
      }
      FreeIdAt(list, id, k);
      rest := if k < |list| then list[..k] + list[k + 1..] else list;
    }

    // A buffer at an unused address. Without memory for its timeout it is added all the same.
    method AllocRequest(id: Address, room: bool, timerRoom: bool) returns (ok: bool)
      requires Valid() && id !in Ids(requests)
      modifies `requests, `timed
      ensures Valid() && ok == room
      ensures requests == old(requests) + if room then [Buffer(id, None, 1)] else []
      ensures timed == old(timed) + if room && timerRoom then [Event(id, RequestTimeout)] else []
    {
      if !room {
        return false;
      }
      NewTimeout(Event(id, RequestTimeout));
      NewBuffer(requests, Buffer(id, None, 1));
      if timerRoom {
        timed := timed + [Event(id, RequestTimeout)];
      }
      requests := requests + [Buffer(id, None, 1)];
      ok := true;
    }

    method AllocResponse(id: Address, room: bool, timerRoom: bool) returns (ok: bool)
      requires Valid() && id !in Ids(responses)
      modifies `responses, `timed
      ensures Valid() && ok == room
      ensures responses == old(responses) + if room then [Buffer(id, None, 1)] else []
      ensures timed == old(timed) + if room && timerRoom then [Event(id, ResponseTimeout)] else []
    {
      if !room {
        return false;
      }
      NewTimeout(Event(id, ResponseTimeout));
      NewBuffer(responses, Buffer(id, None, 1));
      if timerRoom {
        timed := timed + [Event(id, ResponseTimeout)];
      }
      responses := responses + [Buffer(id, None, 1)];
      ok := true;
    }

    lemma NewTimeout(e: Event)
      requires Valid() && IsBlockwise(e) && !IsLive(e, Ids(requests), Ids(responses))
      ensures OneTimeoutEach(timed + [e])
    {
      forall i | 0 <= i < |timed| ensures timed[i] != e {
        assert IsLive(timed[i], Ids(requests), Ids(responses));
      }
    }

    lemma NewBuffer(list: seq<Buffer>, b: Buffer)
      requires DistinctIds(list) && b.id !in Ids(list)
      ensures DistinctIds(list + [b]) && Ids(list + [b]) == Ids(list) + {b.id}
    {
      var more := list + [b];
      assert more[|list|] == b;
      forall i | 0 <= i < |list| ensures more[i] == list[i] && more[i].id in Ids(list) {
      }
      forall x | x in Ids(list) ensures x in Ids(more) {
        var i :| 0 <= i < |list| && list[i].id == x;
        assert more[i].id == x;
      }
    }

    method FreeRequest(id: Address)
      requires Valid() && id in Ids(requests)
      modifies `requests, `timed
      ensures Valid() && requests == FreeId(old(requests), id) && Ids(requests) == Ids(old(requests)) - {id}
      ensures timed == LiveOnly(old(timed), Ids(requests), Ids(responses))
    {
      ghost var k :| 0 <= k < |requests| && requests[k].id == id;
      FreeIdIds(requests, id, k);
      CancelOne(timed, id, RequestTimeout, Ids(requests), Ids(responses));
      LiveOnlyInv(timed, Ids(requests) - {id}, Ids(responses));
      RemoveTimed(id, RequestTimeout);
      requests := ListRemove(requests, id);
    }

    method FreeResponse(id: Address)
      requires Valid() && id in Ids(responses)
      modifies `responses, `timed
      ensures Valid() && responses == FreeId(old(responses), id) && Ids(responses) == Ids(old(responses)) - {id}
      ensures timed == LiveOnly(old(timed), Ids(requests), Ids(responses))
    {
      ghost var k :| 0 <= k < |responses| && responses[k].id == id;
      FreeIdIds(responses, id, k);
      CancelOne(timed, id, ResponseTimeout, Ids(requests), Ids(responses));
      LiveOnlyInv(timed, Ids(requests), Ids(responses) - {id});
      RemoveTimed(id, ResponseTimeout);
      responses := ListRemove(responses, id);
    }

    // The timeout of a buffer has fired: the buffer goes, and the callback with it.
    method RequestExpires(id: Address)
      requires Valid() && Event(id, RequestTimeout) in timed
      modifies `requests, `timed
      ensures Valid() && requests == FreeId(old(requests), id)
      ensures timed == LiveOnly(old(timed), Ids(requests), Ids(responses))
    {
      ghost var i :| 0 <= i < |timed| && timed[i] == Event(id, RequestTimeout);
      assert IsLive(timed[i], Ids(requests), Ids(responses));
      FreeRequest(id);
    }

    method ResponseExpires(id: Address)
      requires Valid() && Event(id, ResponseTimeout) in timed
      modifies `responses, `timed
      ensures Valid() && responses == FreeId(old(responses), id)
      ensures timed == LiveOnly(old(timed), Ids(requests), Ids(responses))
    {
      ghost var i :| 0 <= i < |timed| && timed[i] == Event(id, ResponseTimeout);
      assert IsLive(timed[i], Ids(requests), Ids(responses));
      FreeResponse(id);
    }

    method SweepRequests(w: Sweep)
      requires Valid()
      modifies `requests, `timed
      ensures Valid() && requests == Surviving(old(requests), w) && Ids(requests) <= Ids(old(requests))
      ensures timed == LiveOnly(old(timed), Ids(requests), Ids(responses))
    {
      LiveOnlyAll(timed, Ids(requests), Ids(responses));
      var i := 0;
      while i < |requests|
        invariant Valid() && i <= |requests| && forall j :: 0 <= j < i ==> !Frees(w, requests[j])
        invariant Surviving(requests, w) == Surviving(old(requests), w) && Ids(requests) <= Ids(old(requests))
        invariant timed == LiveOnly(old(timed), Ids(requests), Ids(responses))
        decreases |requests| - i
      {
        if Frees(w, requests[i]) {
          SweepOne(requests, i, w);
          FreeIdIds(requests, requests[i].id, i);
          LiveOnlyTwice(old(timed), Ids(requests), Ids(responses), Ids(requests) - {requests[i].id}, Ids(responses));
          assert requests[i].id in Ids(requests);
          FreeRequest(requests[i].id);
        } else {
          i := i + 1;
        }
      }
      SweepDone(requests, w);
    }

    method SweepResponses(w: Sweep)
      requires Valid()
      modifies `responses, `timed
      ensures Valid() && responses == Surviving(old(responses), w) && Ids(responses) <= Ids(old(responses))
      ensures timed == LiveOnly(old(timed), Ids(requests), Ids(responses))
    {
      LiveOnlyAll(timed, Ids(requests), Ids(responses));
      var i := 0;
      while i < |responses|
        invariant Valid() && i <= |responses| && forall j :: 0 <= j < i ==> !Frees(w, responses[j])
        invariant Surviving(responses, w) == Surviving(old(responses), w) && Ids(responses) <= Ids(old(responses))
        invariant timed == LiveOnly(old(timed), Ids(requests), Ids(responses))
        decreases |responses| - i
      {
        if Frees(w, responses[i]) {
          SweepOne(responses, i, w);
          FreeIdIds(responses, responses[i].id, i);
          LiveOnlyTwice(old(timed), Ids(requests), Ids(responses), Ids(requests), Ids(responses) - {responses[i].id});
          assert responses[i].id in Ids(responses);
          FreeResponse(responses[i].id);
        } else {
          i := i + 1;
        }
      }
      SweepDone(responses, w);
    }

    // Both lists are filtered in place, and exactly the timeouts of the freed buffers are cancelled.
    method Scrub(w: Sweep)
      requires Valid()
      modifies `requests, `responses, `timed
      ensures Valid() && requests == Surviving(old(requests), w) && responses == Surviving(old(responses), w)
      ensures timed == LiveOnly(old(timed), Ids(requests), Ids(responses))
    {
      SweepRequests(w);
      ghost var before := Ids(responses);
      SweepResponses(w);
      LiveOnlyTwice(old(timed), Ids(requests), before, Ids(requests), Ids(responses));
    }

    // The end of a client request.
    method FreeClientCb(client: Address)
      requires Valid()
      modifies this
      ensures Valid() && timed == LiveOnly(old(timed), Ids(requests), Ids(responses))
      ensures requests == Surviving(old(requests), OfClient(client))
      ensures responses == Surviving(old(responses), OfClient(client))
      ensures forall b :: b in requests || b in responses ==> b.client != Some(client)
      ensures multiset(clients) == multiset(old(clients)) - multiset{client}
    {
      Scrub(OfClient(client));
      forall b: Buffer ensures b in requests || b in responses ==> b.client != Some(client) {
        SurvivingKeeps(old(requests), OfClient(client), b);
        SurvivingKeeps(old(responses), OfClient(client), b);
      }
      var k := 0;
      while k < |clients| && clients[k] != client
        invariant k <= |clients| && clients == old(clients) && client !in clients[..k]
        modifies {}
      {
        k := k + 1;
      }
      assert clients[..|clients|] == clients;
      if k < |clients| {
        assert clients == clients[..k] + ([client] + clients[k + 1..]);
        clients := clients[..k] + clients[k + 1..];
      }
    }
  }
}
