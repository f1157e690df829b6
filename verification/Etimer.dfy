/** Event timers (util/etimer.c, with oc_timer.c): a linked list threaded through the
    timers themselves, on a clock that wraps around. */
module Etimer {

  // ----- the clock

  const WORD := 0x1_0000_0000_0000_0000

  type Clock = c: int | 0 <= c < WORD

  type Process = nat

  const NONE: Process := 0

  function Plus(a: Clock, d: int): Clock {
    (a + d) % WORD
  }

  // How far ahead of `now` the timer expires, on the wrapping clock.
  function Distance(start: Clock, interval: Clock, now: Clock): Clock {
    (start + interval - now) % WORD
  }

  // The source compares with one more than the elapsed time, which may wrap to zero.
  predicate Expired(start: Clock, interval: Clock, now: Clock) {
    interval < ((now - start) % WORD + 1) % WORD
  }

  lemma ModOnce(x: int)
    requires -WORD <= x < 2 * WORD
    ensures x % WORD == if x < 0 then x + WORD else if x < WORD then x else x - WORD
  {
  }

  // A timer has expired when its interval has elapsed, except in the last tick before the
  // elapsed time itself wraps.
  lemma ExpiredExactly(start: Clock, interval: Clock, now: Clock)
    ensures var elapsed := (now - start) % WORD; Expired(start, interval, now) <==> interval <= elapsed < WORD - 1
  {
    ModOnce((now - start) % WORD + 1);
  }

  // ----- timers

  class Timer {
    var start: Clock
    var interval: Clock
    var next: Timer?
    var p: Process

    constructor ()
      ensures start == 0 && interval == 0 && next == null && p == NONE
    {
      start, interval, next, p := 0, 0, null, NONE;
    }
  }

  predicate Distinct<T(==)>(s: seq<T>) {
    forall i, j :: 0 <= i < j < |s| ==> s[i] != s[j]
  }

  // Null marks the end of a list.
  function At(list: seq<Timer>, i: int): Timer? {
    if 0 <= i < |list| then list[i] else null
  }

  // The time of the next expiry: the one at the least distance from now.
  ghost predicate IsNext(e: Clock, list: seq<Timer>, now: Clock)
    reads list
  {
    if list == [] then e == 0
    else exists i :: 0 <= i < |list| && e == Plus(now, Distance(list[i].start, list[i].interval, now))
           && forall j :: 0 <= j < |list| ==>
                Distance(list[i].start, list[i].interval, now) <= Distance(list[j].start, list[j].interval, now)
  }

  // The timers of the list that do not belong to p, when owners[i] owns list[i].
  function Others(list: seq<Timer>, owners: seq<Process>, p: Process): seq<Timer>
    requires |owners| == |list|
  {
    if list == [] then []
    else (if owners[0] == p then [] else [list[0]]) + Others(list[1..], owners[1..], p)
  }

  function Keep(list: seq<Timer>, gone: seq<Timer>): (r: seq<Timer>) {
    if list == [] then [] else (if list[0] in gone then [] else [list[0]]) + Keep(list[1..], gone)
  }

  function Cut<T>(s: seq<T>, i: nat): seq<T>
    requires i < |s|
  {
    s[..i] + s[i + 1..]
  }

  lemma {:induction false} CutOther(list: seq<Timer>, owners: seq<Process>, p: Process, i: nat)
    requires i < |list| == |owners| && owners[i] == p
    ensures Others(Cut(list, i), Cut(owners, i), p) == Others(list, owners, p)
  {
    if i == 0 {
      assert Cut(list, 0) == list[1..] && Cut(owners, 0) == owners[1..];
    } else {
      CutOther(list[1..], owners[1..], p, i - 1);
      assert Cut(list, i)[1..] == Cut(list[1..], i - 1) && Cut(owners, i)[1..] == Cut(owners[1..], i - 1);
    }
  }

  // With true times T for the clock and E for the expiry, less than one turn of the clock apart,
  // the distance on the wrapping clock is the true one.
  lemma TrueDistance(start: Clock, interval: Clock, now: Clock, E: int, T: int)
    requires T % WORD == now && E % WORD == (start + interval) % WORD && T <= E < T + WORD
    ensures Distance(start, interval, now) == E - T && Plus(now, Distance(start, interval, now)) == E % WORD
  {
    var a, b, c := E / WORD, T / WORD, (start + interval) / WORD;
    assert E == a * WORD + E % WORD && T == b * WORD + now;
    assert start + interval - now == E - T + (c - a + b) * WORD;
    SameRemainder(E - T, c - a + b);
    assert now + (E - T) == E - b * WORD;
    SameRemainder(E, -b);
  }

  lemma SameRemainder(x: int, k: int)
    ensures (x + k * WORD) % WORD == x % WORD
  {
  }

  // When no timer is overdue, the next expiry is the earliest one, wrap-around or not.
  lemma NextIsEarliest(e: Clock, list: seq<Timer>, now: Clock, expiries: seq<int>, T: int)
    requires IsNext(e, list, now) && list != [] && |expiries| == |list| && T % WORD == now
    requires forall i :: 0 <= i < |list| ==> expiries[i] % WORD == (list[i].start + list[i].interval) % WORD
    requires forall i :: 0 <= i < |list| ==> T <= expiries[i] < T + WORD
    ensures exists i :: 0 <= i < |list| && e == expiries[i] % WORD && forall j :: 0 <= j < |list| ==> expiries[i] <= expiries[j]
  {
    var i :| 0 <= i < |list| && e == Plus(now, Distance(list[i].start, list[i].interval, now))
      && forall j :: 0 <= j < |list| ==>
           Distance(list[i].start, list[i].interval, now) <= Distance(list[j].start, list[j].interval, now);
    hide Distance, Plus;
    TrueDistance(list[i].start, list[i].interval, now, expiries[i], T);
    forall j | 0 <= j < |list| ensures expiries[i] <= expiries[j] {
      TrueDistance(list[j].start, list[j].interval, now, expiries[j], T);
    }
  }

  // One attempt to post a timer to its process.
  datatype Attempt = Attempt(timer: Timer, accepted: bool)

  // The outcomes are those that the event queue gives, in order.
  predicate Follows(log: seq<Attempt>, accept: nat -> bool) {
    forall k :: 0 <= k < |log| ==> log[k].accepted == accept(k)
  }

  function Posted(log: seq<Attempt>): seq<Timer> {
    if log == [] then []
    else Posted(log[..|log| - 1]) + if log[|log| - 1].accepted then [log[|log| - 1].timer] else []
  }

  lemma PostedOneMore(log: seq<Attempt>, a: Attempt)
    ensures Posted(log + [a]) == Posted(log) + if a.accepted then [a.timer] else []
  {
    assert (log + [a])[..|log|] == log;
  }

  predicate NoneOwns(owners: seq<Process>, n: nat, p: Process)
    requires n <= |owners|
  {
    forall k :: 0 <= k < n ==> owners[k] != p
  }

  lemma CutKeepsFront<T>(s: seq<T>, i: nat)
    requires i < |s|
    ensures |Cut(s, i)| == |s| - 1 && forall k :: 0 <= k < i ==> Cut(s, i)[k] == s[k]
  {
  }

  lemma CutElements<T>(s: seq<T>, i: nat)
    requires i < |s| && Distinct(s)
    ensures |Cut(s, i)| == |s| - 1 && forall k :: 0 <= k < |s| - 1 ==> Cut(s, i)[k] == s[if k < i then k else k + 1]
    ensures Distinct(Cut(s, i)) && s[i] !in Cut(s, i)
  {
  }

  lemma {:induction false} OthersAll(list: seq<Timer>, owners: seq<Process>, p: Process)
    requires |list| == |owners| && forall i :: 0 <= i < |list| ==> owners[i] != p
    ensures Others(list, owners, p) == list
  {
    if list != [] {
      OthersAll(list[1..], owners[1..], p);
    }
  }

  lemma {:induction false} KeepNone(list: seq<Timer>)
    ensures Keep(list, []) == list
  {
    if list != [] {
      KeepNone(list[1..]);
    }
  }

  lemma {:induction false} KeepIs(list: seq<Timer>, gone: seq<Timer>, t: Timer)
    ensures t in Keep(list, gone) <==> t in list && t !in gone
  {
    if list != [] {
      KeepIs(list[1..], gone, t);
      assert t in list <==> t == list[0] || t in list[1..];
    }
  }

  lemma DistinctRest<T>(s: seq<T>)
    requires s != [] && Distinct(s)
    ensures Distinct(s[1..]) && s[0] !in s[1..]
  {
    assert forall k :: 0 <= k < |s[1..]| ==> s[1..][k] == s[k + 1];
  }

  lemma KeepUnfolds(list: seq<Timer>, gone: seq<Timer>)
    requires list != []
    ensures Keep(list, gone) == (if list[0] in gone then [] else [list[0]]) + Keep(list[1..], gone)
  {
  }

  lemma CutHead<T>(x: T, s: seq<T>, i: nat)
    requires i <= |s|
    ensures Cut([x] + s, i) == if i == 0 then s else [x] + Cut(s, i - 1)
  {
  }

  // Leaving out one timer more.
  lemma {:induction false} KeepOneLess(list: seq<Timer>, gone: seq<Timer>, t: Timer, i: nat)
    requires Distinct(list) && i < |Keep(list, gone)| && Keep(list, gone)[i] == t
    ensures Keep(list, gone + [t]) == Cut(Keep(list, gone), i)
  {
    if list != [] {
      hide Distinct, Keep, Cut;
      var rest := list[1..];
      DistinctRest(list);
      KeepUnfolds(list, gone);
      KeepUnfolds(list, gone + [t]);
      if list[0] in gone {
        assert [] + Keep(rest, gone) == Keep(rest, gone);
        KeepOneLess(rest, gone, t, i);
      } else {
        CutHead(list[0], Keep(rest, gone), i);
        if i == 0 {
          KeepSame(rest, gone, t);
        } else {
          KeepIs(rest, gone, t);
          KeepOneLess(rest, gone, t, i - 1);
        }
      }
    }
  }

  lemma {:induction false} KeepSame(list: seq<Timer>, gone: seq<Timer>, t: Timer)
    requires t !in list
    ensures Keep(list, gone + [t]) == Keep(list, gone)
  {
    if list != [] {
      KeepSame(list[1..], gone, t);
      assert list[0] in gone + [t] <==> list[0] in gone;
    }
  }

  class TimerList {
    var head: Timer?
    var nextExpiration: Clock
    var pollRequested: bool
    ghost var list: seq<Timer>

    // The next pointers spell out the list, which ends and repeats nothing.
    ghost predicate Linked()
      reads `head, `list, list
    {
      && head == At(list, 0)
      && (forall i :: 0 <= i < |list| ==> list[i].next == At(list, i + 1))
      && Distinct(list)
    }

    // A timer on the list belongs to a process: this is what lets an insertion skip its search.
    ghost predicate Valid()
      reads `head, `list, list
    {
      Linked() && forall i :: 0 <= i < |list| ==> list[i].p != NONE
    }

    constructor ()
      ensures Valid() && list == [] && nextExpiration == 0
    {
      head, nextExpiration, pollRequested, list := null, 0, false, [];
    }

    method UpdateTime(now: Clock)
      requires Linked()
      modifies `nextExpiration
      ensures IsNext(nextExpiration, list, now)
    {
      hide Distance, Plus, Distinct;
      if head == null {
        nextExpiration := 0;
        return;
      }
      var least := Distance(head.start, head.interval, now);
      var t := head.next;
      ghost var best, i := 0, 1;
      while t != null
        invariant 1 <= i <= |list| && t == At(list, i)
        invariant 0 <= best < i && least == Distance(list[best].start, list[best].interval, now)
        invariant forall j :: 0 <= j < i ==> least <= Distance(list[j].start, list[j].interval, now)
        decreases |list| - i
      {
        if Distance(t.start, t.interval, now) < least {
          least := Distance(t.start, t.interval, now);
          best := i;
        }
        t, i := t.next, i + 1;
      }
      nextExpiration := Plus(now, least);
    }

    method OnList(timer: Timer) returns (found: bool)
      requires Linked()
      ensures found <==> timer in list
    {
      var t := head;
      ghost var i := 0;
      while t != null
        invariant i <= |list| && t == At(list, i) && timer !in list[..i]
        decreases |list| - i
      {
        if t == timer {
          return true;
        }
        t, i := t.next, i + 1;
      }
      found := false;
    }

    method Link(timer: Timer, current: Process)
      requires Valid() && timer !in list
      modifies `head, `list, timer`next, timer`p
      ensures Linked() && list == [timer] + old(list) && timer.p == current && (Valid() <==> current != NONE)
    {
      timer.p := current;
      timer.next := head;
      head, list := timer, [timer] + list;
      assert forall i :: 1 <= i < |list| ==> list[i] == old(list)[i - 1];
      assert list[0].p == current;
    }

    method Claim(timer: Timer, current: Process)
      requires Valid() && timer in list
      modifies timer`p
      ensures Linked() && timer.p == current && (Valid() <==> current != NONE)
    {
      timer.p := current;
      ghost var i :| 0 <= i < |list| && list[i] == timer;
    }

    lemma OnListHasProcess(timer: Timer)
      requires Valid() && timer.p == NONE
      ensures timer !in list
    {
    }

    // No search is needed for a timer without a process.
    method AlreadyOn(timer: Timer) returns (found: bool)
      requires Valid()
      ensures found <==> timer in list
    {
      if timer.p == NONE {
        OnListHasProcess(timer);
        return false;
      }
      found := OnList(timer);
    }

    // Puts a timer on the list unless it is there already. The list keeps the property that
    // later insertions rely on exactly when this runs inside a process.
    method AddTimer(timer: Timer, now: Clock, current: Process)
      requires Valid()
      modifies this, timer`next, timer`p
      ensures Linked() && list == (if timer in old(list) then old(list) else [timer] + old(list))
      ensures timer.p == current && (Valid() <==> current != NONE)
      ensures IsNext(nextExpiration, list, now)
    {
      hide *;
      var found := AlreadyOn(timer);
      if found {
        Claim(timer, current);
      } else {
        Link(timer, current);
      }
      pollRequested := true;
      UpdateTime(now);
    }

    method Set(timer: Timer, interval: Clock, now: Clock, current: Process)
      requires Valid()
      modifies this, timer
      ensures Linked() && (Valid() <==> current != NONE)
      ensures list == (if timer in old(list) then old(list) else [timer] + old(list))
      ensures timer.start == now && timer.interval == interval && timer.p == current
      ensures IsNext(nextExpiration, list, now)
    {
      timer.start, timer.interval := now, interval;
      AddTimer(timer, now, current);
    }

    // Starts again where the last period ended.
    method Reset(timer: Timer, now: Clock, current: Process)
      requires Valid()
      modifies this, timer
      ensures Linked() && (Valid() <==> current != NONE)
      ensures list == (if timer in old(list) then old(list) else [timer] + old(list))
      ensures timer.start == Plus(old(timer.start), old(timer.interval)) && timer.interval == old(timer.interval)
      ensures timer.p == current && IsNext(nextExpiration, list, now)
    {
      timer.start := Plus(timer.start, timer.interval);
      AddTimer(timer, now, current);
    }

    method ResetWithNewInterval(timer: Timer, interval: Clock, now: Clock, current: Process)
      requires Valid()
      modifies this, timer
      ensures Linked() && (Valid() <==> current != NONE)
      ensures list == (if timer in old(list) then old(list) else [timer] + old(list))
      ensures timer.start == Plus(old(timer.start), old(timer.interval)) && timer.interval == interval
      ensures timer.p == current && IsNext(nextExpiration, list, now)
    {
      timer.start := Plus(timer.start, timer.interval);
      timer.interval := interval;
      AddTimer(timer, now, current);
    }

    method Restart(timer: Timer, now: Clock, current: Process)
      requires Valid()
      modifies this, timer
      ensures Linked() && (Valid() <==> current != NONE)
      ensures list == (if timer in old(list) then old(list) else [timer] + old(list))
      ensures timer.start == now && timer.interval == old(timer.interval) && timer.p == current
      ensures IsNext(nextExpiration, list, now)
    {
      timer.start := now;
      AddTimer(timer, now, current);
    }

    method Adjust(timer: Timer, difference: int, now: Clock)
      requires Valid()
      modifies this, timer`start
      ensures Valid() && list == old(list) && timer.start == Plus(old(timer.start), difference)
      ensures IsNext(nextExpiration, list, now)
    {
      timer.start := Plus(timer.start, difference);
      UpdateTime(now);
    }

    // Takes number i out of the chain; u is its predecessor, if it has one.
    method Unlink(u: Timer?, t: Timer, ghost i: nat)
      requires Valid() && i < |list| && t == list[i] && u == At(list, i - 1)
      modifies `head, `list, list`next
      ensures Valid() && list == Cut(old(list), i) && t !in list
    {
      ghost var before := list;
      CutElements(list, i);
      hide Distinct, Cut;
      if u != null {
        u.next := t.next;
      } else {
        head := t.next;
      }
      list := Cut(list, i);
      Relinked(before, i);
    }

    // The chain without number i, when its predecessor points past it.
    lemma Relinked(before: seq<Timer>, i: nat)
      requires i < |before| && Distinct(before) && list == Cut(before, i)
      requires i == 0 ==> head == At(before, 1)
      requires i > 0 ==> head == At(before, 0)
      requires forall k :: 0 <= k < |before| && k != i ==> before[k].next == At(before, if k + 1 == i then i + 1 else k + 1)
      requires forall k :: 0 <= k < |before| ==> before[k].p != NONE
      ensures Valid()
    {
      CutElements(before, i);
    }

    // The predecessor of a timer that is not the head; null when the timer is not on the list.
    method FindBefore(timer: Timer) returns (t: Timer?, ghost i: nat)
      requires Linked() && timer != head
      ensures if t == null then timer !in list else i + 1 < |list| && t == list[i] && timer == list[i + 1]
    {
      t := head;
      i := 0;
      while t != null && t.next != timer
        invariant i <= |list| && t == At(list, i) && timer !in list[..i] && (i < |list| ==> list[i] != timer)
        decreases |list| - i
      {
        t, i := t.next, i + 1;
      }
    }

    lemma ListIsDistinct()
      requires Linked()
      ensures Distinct(list) && head == At(list, 0) && (head != null ==> list != [])
    {
    }

    lemma KeepCut(timer: Timer, i: nat)
      requires Linked() && i < |list| && list[i] == timer
      ensures Keep(list, [timer]) == Cut(list, i)
    {
      KeepNone(list);
      KeepOneLess(list, [], timer, i);
      assert [] + [timer] == [timer];
    }

    lemma KeepAll(timer: Timer)
      requires timer !in list
      ensures Keep(list, [timer]) == list
    {
      KeepNone(list);
      KeepSame(list, [], timer);
      assert [] + [timer] == [timer];
    }

    // A timer that is off the list no longer belongs to a process.
    method Mark(timer: Timer, ghost now: Clock)
      requires Valid() && timer !in list
      modifies timer`next, timer`p
      ensures Valid() && timer.next == null && timer.p == NONE
      ensures IsNext(nextExpiration, list, now) <==> old(IsNext(nextExpiration, list, now))
    {
      timer.next := null;
      timer.p := NONE;
    }

    // Takes number i off the list and brings the next expiry up to date.
    method TakeAt(u: Timer?, timer: Timer, now: Clock, ghost i: nat)
      requires Valid() && i < |list| && timer == list[i] && u == At(list, i - 1)
      modifies this, list`next
      ensures Valid() && list == Keep(old(list), [timer]) && timer !in list && IsNext(nextExpiration, list, now)
    {
      KeepCut(timer, i);
      hide *;
      Unlink(u, timer, i);
      StillLinked();
      UpdateTime(now);
    }

    // Takes a timer off the list, if it is there.
    method Take(timer: Timer, now: Clock)
      requires Valid()
      modifies this, list`next
      ensures Valid() && list == Keep(old(list), [timer]) && timer !in list
      ensures if timer in old(list) then IsNext(nextExpiration, list, now) else nextExpiration == old(nextExpiration)
    {
      ListIsDistinct();
      assert Linked();
      hide Valid, Linked, IsNext, Keep, Distinct, Cut;
      if timer == head {
        TakeAt(null, timer, now, 0);
      } else {
        var t; ghost var i;
        t, i := FindBefore(timer);
        if t != null {
          TakeAt(t, timer, now, i + 1);
        } else {
          KeepAll(timer);
        }
      }
    }

    lemma StillLinked()
      requires Valid()
      ensures Linked()
    {
    }

    method Stop(timer: Timer, now: Clock)
      requires Valid()
      modifies this, timer, list`next
      ensures Valid() && list == Keep(old(list), [timer]) && timer.p == NONE && timer.next == null
      ensures if timer in old(list) then IsNext(nextExpiration, list, now) else nextExpiration == old(nextExpiration)
    {
      hide *;
      Take(timer, now);
      Mark(timer, now);
    }

    ghost function Owners(): (r: seq<Process>)
      reads this, list
    {
      seq(|list|, i requires 0 <= i < |list| reads this, list => list[i].p)
    }

    ghost predicate OwnedBy(owners: seq<Process>)
      reads `list, list`p
    {
      |owners| == |list| && forall i :: 0 <= i < |list| ==> owners[i] == list[i].p
    }

    ghost predicate Within(frame: set<Timer>)
      reads `list
    {
      forall i :: 0 <= i < |list| ==> list[i] in frame
    }

    // One timer of the exited process p leaves the list.
    method Drop(u: Timer?, t: Timer, ghost i: nat, ghost owners: seq<Process>, p: Process, ghost frame: set<Timer>)
      returns (ghost left: seq<Process>)
      requires Valid() && OwnedBy(owners) && Within(frame)
      requires i < |list| && t == list[i] && u == At(list, i - 1) && owners[i] == p
      modifies `head, `list, frame`next
      ensures Valid() && list == Cut(old(list), i) && left == Cut(owners, i) && OwnedBy(left) && Within(frame)
      ensures Others(list, left, p) == Others(old(list), owners, p)
    {
      CutOther(list, owners, p, i);
      left := Cut(owners, i);
      Unlink(u, t, i);
    }

    // All of its timers at the front of the list.
    method DropFirst(ghost owners: seq<Process>, p: Process, ghost frame: set<Timer>) returns (ghost left: seq<Process>)
      requires Valid() && OwnedBy(owners) && Within(frame)
      modifies `head, `list, frame`next
      ensures Valid() && OwnedBy(left) && Others(list, left, p) == Others(old(list), owners, p) && Within(frame)
      ensures list != [] ==> left[0] != p
    {
      left := owners;
      while head != null && head.p == p
        invariant Valid() && OwnedBy(left) && Others(list, left, p) == Others(old(list), owners, p) && Within(frame)
        decreases |list|
      {
        left := Drop(null, head, 0, left, p, frame);
      }
    }

    // And those behind a timer of another process.
    method DropRest(ghost owners: seq<Process>, p: Process, ghost frame: set<Timer>) returns (ghost left: seq<Process>)
      requires Valid() && OwnedBy(owners) && Within(frame) && list != [] && owners[0] != p
      modifies `list, `head, frame`next
      ensures Valid() && OwnedBy(left) && Others(list, left, p) == Others(old(list), owners, p)
      ensures NoneOwns(left, |left|, p)
    {
      left := owners;
      var t := head;
      ghost var i := 0;
      NextOf(left, 0);
      hide Valid, Linked, Distinct, OwnedBy, Others, Within, Cut;
      while t.next != null
        invariant Valid() && OwnedBy(left) && Others(list, left, p) == Others(old(list), owners, p) && Within(frame)
        invariant i < |list| == |left| && t == list[i] && t.next == At(list, i + 1) && NoneOwns(left, i + 1, p)
        decreases |list| - i
      {
        NextOf(left, i + 1);
        if t.next.p == p {
          CutKeepsFront(list, i + 1);
          CutKeepsFront(left, i + 1);
          left := Drop(t, t.next, i + 1, left, p, frame);
        } else {
          t, i := t.next, i + 1;
        }
        NextOf(left, i);
      }
    }

    lemma NextOf(owners: seq<Process>, i: nat)
      requires Valid() && OwnedBy(owners) && i < |list|
      ensures head == list[0] && list[i].next == At(list, i + 1) && |owners| == |list| && owners[i] == list[i].p
    {
    }

    // A process has exited: its timers leave the list. The next expiry is not brought up to date.
    method Exit(p: Process)
      requires Valid()
      modifies `head, `list, list`next
      ensures Valid() && list == Others(old(list), old(Owners()), p)
    {
      ghost var owners, frame := Owners(), Frame();
      ghost var left := DropFirst(owners, p, frame);
      if head != null {
        left := DropRest(left, p, frame);
      }
      OthersAll(list, left, p);
    }

    // ----- polling

    predicate IsExpired(t: Timer, now: Clock)
      reads t`start, t`interval
    {
      Expired(t.start, t.interval, now)
    }

    // One pass over the list: attempts to post every expired timer, up to the first attempt that is accepted.
    method Scan(now: Clock, accept: nat -> bool, log: seq<Attempt>)
      returns (u: Timer?, t: Timer?, more: seq<Attempt>, ghost i: nat)
      requires Valid() && Follows(log, accept)
      modifies `pollRequested
      ensures Valid() && log <= more && Follows(more, accept)
      ensures t == null ==> Posted(more) == Posted(log) && AllRefused(more, now)
      ensures t != null ==> (
                && i < |list| && t == list[i] && u == At(list, i - 1) && IsExpired(t, now)
                && Posted(more) == Posted(log) + [t])
    {
      more := log;
      u, t, i := null, head, 0;
      NothingTried(log, now);
      hide Valid, Linked, Follows, Posted, AllRefused, Tried;
      while t != null
        invariant Valid() && i <= |list| && t == At(list, i) && u == At(list, i - 1)
        invariant log <= more && Follows(more, accept) && Posted(more) == Posted(log) && Tried(more, i, now)
        decreases |list| - i
      {
        if IsExpired(t, now) {
          var ok := accept(|more|);
          PostedOneMore(more, Attempt(t, ok));
          OneMoreTried(more, Attempt(t, ok), i, accept, now);
          more := more + [Attempt(t, ok)];
          if ok {
            return;
          }
          pollRequested := true;
        } else {
          NoneMoreTried(more, i, now);
        }
        NextIs(i);
        u, t, i := t, t.next, i + 1;
      }
      AllTried(more, now);
    }

    // The expired ones among the first n timers have been tried, and refused.
    ghost predicate Tried(log: seq<Attempt>, n: nat, now: Clock)
      requires n <= |list|
      reads `list, list`start, list`interval
    {
      forall k :: 0 <= k < n && IsExpired(list[k], now) ==> Attempt(list[k], false) in log
    }

    lemma NothingTried(log: seq<Attempt>, now: Clock)
      requires Valid()
      ensures Tried(log, 0, now) && head == At(list, 0)
    {
    }

    lemma AllTried(log: seq<Attempt>, now: Clock)
      ensures Tried(log, |list|, now) <==> AllRefused(log, now)
    {
    }

    lemma OneMoreTried(log: seq<Attempt>, a: Attempt, i: nat, accept: nat -> bool, now: Clock)
      requires i < |list| && a.timer == list[i] && Tried(log, i, now) && Follows(log, accept) && a.accepted == accept(|log|)
      ensures Follows(log + [a], accept) && (!a.accepted ==> Tried(log + [a], i + 1, now))
    {
    }

    lemma NoneMoreTried(log: seq<Attempt>, i: nat, now: Clock)
      requires i < |list| && Tried(log, i, now) && !IsExpired(list[i], now)
      ensures Tried(log, i + 1, now)
    {
    }

    lemma NextIs(i: nat)
      requires Valid() && i < |list|
      ensures list[i].next == At(list, i + 1)
    {
    }

    // Every expired timer on the list has been tried, and refused.
    ghost predicate AllRefused(log: seq<Attempt>, now: Clock)
      reads `list, list`start, list`interval
    {
      forall k :: 0 <= k < |list| && IsExpired(list[k], now) ==> Attempt(list[k], false) in log
    }

    // The posted timers are marked, unlinked and off the list.
    ghost predicate Done(posted: seq<Timer>, now: Clock)
      reads `list, posted
    {
      forall k :: 0 <= k < |posted| ==>
        posted[k].p == NONE && posted[k].next == null && IsExpired(posted[k], now) && posted[k] !in list
    }

    // Timer number i has been posted: it is marked and leaves the list.
    method Fire(u: Timer?, t: Timer, now: Clock, ghost i: nat, ghost posted: seq<Timer>, ghost frame: set<Timer>)
      requires Valid() && i < |list| && t == list[i] && u == At(list, i - 1) && IsExpired(t, now)
      requires Done(posted, now) && Within(frame)
      modifies this, frame`next, frame`p
      ensures Valid() && list == Cut(old(list), i) && IsNext(nextExpiration, list, now)
      ensures Done(posted + [t], now) && Within(frame)
    {
      UnlinkPosted(u, t, now, i, posted, frame);
      hide *;
      MarkPosted(t, now, posted, frame);
      StillLinked();
      UpdateTime(now);
    }

    method MarkPosted(t: Timer, ghost now: Clock, ghost posted: seq<Timer>, ghost frame: set<Timer>)
      requires Valid() && t !in list && t !in posted && Done(posted, now) && IsExpired(t, now) && Within(frame)
      modifies t`next, t`p
      ensures Valid() && Done(posted + [t], now) && Within(frame)
    {
      t.next := null;
      t.p := NONE;
      OneMoreDone(posted, t, now);
    }

    method UnlinkPosted(u: Timer?, t: Timer, ghost now: Clock, ghost i: nat, ghost posted: seq<Timer>, ghost frame: set<Timer>)
      requires Valid() && i < |list| && t == list[i] && u == At(list, i - 1) && IsExpired(t, now)
      requires Done(posted, now) && Within(frame)
      modifies `head, `list, frame`next
      ensures Valid() && list == Cut(old(list), i) && t !in list && t in frame && t !in posted && IsExpired(t, now)
      ensures Done(posted, now) && Within(frame)
    {
      assert t in frame && t !in posted;
      Unlink(u, t, i);
      StillDone(old(list), i, posted, frame, now);
    }

    lemma StillDone(before: seq<Timer>, i: nat, posted: seq<Timer>, frame: set<Timer>, now: Clock)
      requires i < |before| && list == Cut(before, i)
      requires forall k :: 0 <= k < |before| ==> before[k] in frame
      requires forall k :: 0 <= k < |posted| ==>
                 posted[k].p == NONE && posted[k].next == null && IsExpired(posted[k], now) && posted[k] !in before
      ensures Done(posted, now) && Within(frame)
    {
    }

    lemma OneMoreDone(posted: seq<Timer>, t: Timer, now: Clock)
      requires Done(posted, now) && t.p == NONE && t.next == null && IsExpired(t, now) && t !in list
      ensures Done(posted + [t], now)
    {
    }

    // From the list `start`, exactly the posted timers are gone, each posted once.
    ghost predicate Gone(start: seq<Timer>, posted: seq<Timer>, now: Clock)
      reads `list, posted
    {
      list == Keep(start, posted) && Done(posted, now) && Distinct(posted) && Distinct(start)
    }

    // A pass that ends with a timer posted and taken off the list, or with nothing left to post.
    method PollOnce(now: Clock, accept: nat -> bool, log: seq<Attempt>, ghost start: seq<Timer>, ghost frame: set<Timer>)
      returns (again: bool, more: seq<Attempt>)
      requires Valid() && Within(frame) && Follows(log, accept) && Gone(start, Posted(log), now)
      modifies this, frame`next, frame`p
      ensures Valid() && Within(frame) && Follows(more, accept) && Gone(start, Posted(more), now)
      ensures again ==> |list| < |old(list)| && Posted(more) != [] && IsNext(nextExpiration, list, now)
      ensures !again ==> (
                && list == old(list) && nextExpiration == old(nextExpiration) && Posted(more) == Posted(log)
                && AllRefused(more, now)
                && (IsNext(nextExpiration, list, now) <==> old(IsNext(nextExpiration, list, now))))
    {
      hide Valid, Linked, IsNext, Within, Done, Distinct, Keep, Posted, Follows, AllRefused;
      var u, t; ghost var i;
      ghost var posted := Posted(log);
      assert Done(posted, now);
      u, t, more, i := Scan(now, accept, log);
      assert Done(posted, now);
      if t == null {
        return false, more;
      }
      KeepOneLess(start, Posted(log), t, i);
      NewlyPosted(Posted(log), t, now);
      Fire(u, t, now, i, Posted(log), frame);
      again := true;
    }

    // With the clock standing still: posts the expired timers one after the other, starting over after each
    // accepted post, until a pass finds none left or all refused. `log` records the attempts.
    method Poll(now: Clock, accept: nat -> bool) returns (log: seq<Attempt>)
      requires Valid()
      modifies this, list`next, list`p
      ensures Valid() && Follows(log, accept) && Gone(old(list), Posted(log), now) && AllRefused(log, now)
      ensures if Posted(log) == [] then nextExpiration == old(nextExpiration) else IsNext(nextExpiration, list, now)
    {
      hide *;
      log := [];
      ghost var frame := Frame();
      NothingGone(now, accept);
      var again := true;
      while again
        invariant Valid() && Within(frame) && Follows(log, accept) && Gone(old(list), Posted(log), now)
        invariant if Posted(log) == [] then nextExpiration == old(nextExpiration) else IsNext(nextExpiration, list, now)
        invariant !again ==> AllRefused(log, now)
        decreases again, |list|
      {
        again, log := PollOnce(now, accept, log, old(list), frame);
      }
    }

    ghost function Frame(): (frame: set<Timer>)
      reads `list
      ensures forall t :: t in frame ==> t in list
    {
      set k | 0 <= k < |list| :: list[k]
    }

    lemma NothingGone(now: Clock, accept: nat -> bool)
      requires Valid()
      ensures Posted([]) == [] && Follows([], accept) && Gone(list, Posted([]), now) && Within(Frame())
    {
      KeepNone(list);
    }

    lemma NewlyPosted(posted: seq<Timer>, t: Timer, now: Clock)
      requires Done(posted, now) && Distinct(posted) && t in list
      ensures Distinct(posted + [t]) && posted + [t] != []
    {
    }
  }
}
