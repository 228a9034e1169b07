/**
`SessionStore` on its own, with no one interleaving: the scan that builds the expired and detached
lists while deleting from the map, the sort, and the eviction of the excess. Sessions are known by
their id; the map keeps every session object, the index is what the store still holds.
*/
module Stores {
  import opened Bytes
  import opened Sessions

  type Id = nat
  type SessionMap = map<Id, SessionState>

  ghost predicate NoDuplicates(q: seq<Id>) {
    forall id :: multiset(q)[id] <= 1
  }

  ghost function Elements(q: seq<Id>): set<Id> {
    set id | id in q
  }

  predicate Earlier(s: SessionMap, a: Id, b: Id)
    requires a in s && b in s
  {
    s[a].detachedAt <= s[b].detachedAt
  }

  ghost predicate Ordered(s: SessionMap, q: seq<Id>) {
    && (forall id <- q :: id in s)
    && forall i, j :: 0 <= i < j < |q| ==> Earlier(s, q[i], q[j])
  }

  function Insert(s: SessionMap, id: Id, q: seq<Id>): (r: seq<Id>)
    requires id in s && forall x <- q :: x in s
    ensures multiset(r) == multiset(q) + multiset{id}
    ensures forall x <- r :: x in s
  {
    if q == [] then [id]
    else if Earlier(s, id, q[0]) then [id] + q
    else
      assert q == [q[0]] + q[1..];
      [q[0]] + Insert(s, id, q[1..])
  }

  /** The detached sessions, longest detached first. */
  function SortDetached(s: SessionMap, q: seq<Id>): (r: seq<Id>)
    requires forall x <- q :: x in s
    ensures multiset(r) == multiset(q)
    ensures forall x <- r :: x in s
  {
    if q == [] then []
    else
      assert q == [q[0]] + q[1..];
      Insert(s, q[0], SortDetached(s, q[1..]))
  }

  lemma {:induction false} InsertOrdered(s: SessionMap, id: Id, q: seq<Id>)
    requires id in s && Ordered(s, q)
    ensures Ordered(s, Insert(s, id, q))
  {
    if q == [] {
    } else if Earlier(s, id, q[0]) {
      assert forall x <- q :: x == q[0] || Earlier(s, q[0], x);
      HeadOrdered(s, id, q);
    } else {
      var r := Insert(s, id, q[1..]);
      InsertOrdered(s, id, q[1..]);
      forall x | x in r ensures Earlier(s, q[0], x) {
        assert x in multiset(r);
        assert x == id || x in q[1..];
      }
      HeadOrdered(s, q[0], r);
    }
  }

  lemma HeadOrdered(s: SessionMap, h: Id, r: seq<Id>)
    requires h in s && Ordered(s, r) && forall x <- r :: Earlier(s, h, x)
    ensures Ordered(s, [h] + r)
  {
    forall i, j | 0 <= i < j < |r| + 1 ensures Earlier(s, ([h] + r)[i], ([h] + r)[j]) {
      assert i > 0 ==> Earlier(s, r[i - 1], r[j - 1]);
      assert i == 0 ==> r[j - 1] in r;
    }
  }

  lemma {:induction false} SortOrdered(s: SessionMap, q: seq<Id>)
    requires forall x <- q :: x in s
    ensures Ordered(s, SortDetached(s, q))
  {
    if q != [] {
      SortOrdered(s, q[1..]);
      InsertOrdered(s, q[0], SortDetached(s, q[1..]));
    }
  }

  lemma {:induction false} ElementsSize(q: seq<Id>)
    requires NoDuplicates(q)
    ensures |Elements(q)| == |q|
  {
    if q != [] {
      var rest := q[1..];
      assert q == [q[0]] + rest;
      assert forall id :: multiset(rest)[id] <= multiset(q)[id];
      ElementsSize(rest);
      assert q[0] !in multiset(rest);
      assert q[0] !in rest;
      assert Elements(q) == Elements(rest) + {q[0]};
    }
  }

  /** Parts of a list without duplicates have none either, and share no element. */
  lemma SplitNoDuplicates(q: seq<Id>, k: nat)
    requires NoDuplicates(q) && k <= |q|
    ensures NoDuplicates(q[..k]) && NoDuplicates(q[k..])
    ensures forall id :: !(id in q[..k] && id in q[k..])
  {
    assert q == q[..k] + q[k..];
    forall id ensures multiset(q[..k])[id] <= 1 && multiset(q[k..])[id] <= 1 && !(id in q[..k] && id in q[k..]) {
      assert multiset(q)[id] == multiset(q[..k])[id] + multiset(q[k..])[id];
      assert id in q[..k] <==> id in multiset(q[..k]);
      assert id in q[k..] <==> id in multiset(q[k..]);
    }
  }

  class SessionStore {
    var sessions: SessionMap
    var index: set<Id>
    const maxDetached: nat

    ghost predicate Valid()
      reads this
    {
      index <= sessions.Keys
    }

    constructor (maxDetached: nat)
      ensures Valid() && sessions == map[] && index == {} && this.maxDetached == maxDetached
    {
      sessions, index := map[], {};
      this.maxDetached := maxDetached;
    }

    /** Mark a session closed and drop it from the store. */
    method Drop(id: Id)
      requires Valid() && id in sessions
      modifies this
      ensures Valid() && sessions == old(sessions)[id := old(sessions)[id].(closed := true)]
      ensures index == old(index) - {id}
    {
      sessions := sessions[id := sessions[id].(closed := true)];
      index := index - {id};
    }

    method RemoveAndMarkClosed(id: Id, requireIdle: bool, now: int) returns (won: bool)
      requires Valid()
      modifies this
      ensures Valid()
      ensures won <==> && id in old(index) && !old(sessions)[id].closed
                       && (requireIdle ==>
                             var x := old(sessions)[id];
                             x.inFlight == 0 && !(x.resumable && !x.broken && now - x.detachedAt <= x.grace))
      ensures won ==> index == old(index) - {id}
                      && sessions == old(sessions)[id := old(sessions)[id].(closed := true)]
      ensures !won ==> index == old(index) && sessions == old(sessions)
    {
      if id !in index {
        return false;
      }
      var s := sessions[id];
      if s.closed || (requireIdle && (s.inFlight != 0 || s.InResumeGrace(now))) {
        return false;
      }
      Drop(id);
      return true;
    }

    /**
    The scan: whatever is due leaves, whatever waits is listed, everything else is untouched. Any
    order of visiting the map gives the same result.
    */
    method Scan(now: int, timeout: nat, order: seq<Id>) returns (expired: seq<Id>, detached: seq<Id>)
      requires Valid() && NoDuplicates(order) && (forall id :: id in order <==> id in index)
      modifies this
      ensures Valid() && Dropped(old(sessions), old(index), sessions, index, expired)
      ensures NoDuplicates(expired) && NoDuplicates(detached)
      ensures forall id :: id in expired <==> id in old(index) && old(sessions)[id].Due(now, timeout)
      ensures forall id :: id in detached <==> id in old(index) && old(sessions)[id].Waits(now)
      // in the fields the scan reads
      ensures forall id :: id in expired <==>
                id in old(index) && var x := old(sessions)[id];
                !x.closed && x.inFlight == 0
                && if x.resumable && !x.broken then now - x.detachedAt > x.grace else now - x.lastActive > timeout
      ensures forall id :: id in detached <==>
                id in old(index) && var x := old(sessions)[id];
                !x.closed && x.inFlight == 0 && x.resumable && !x.broken && x.pollGap < now - x.detachedAt <= x.grace
    {
      expired, detached := [], [];
      var i := 0;
      while i < |order|
        invariant 0 <= i <= |order| && Valid()
        invariant Dropped(old(sessions), old(index), sessions, index, expired)
        invariant NoDuplicates(expired) && NoDuplicates(detached)
        invariant forall id :: id in expired <==> id in order[..i] && old(sessions)[id].Due(now, timeout)
        invariant forall id :: id in detached <==> id in order[..i] && old(sessions)[id].Waits(now)
      {
        var id := order[i];
        SplitNoDuplicates(order, i);
        assert id in order[i..];
        assert order[..i + 1] == order[..i] + [id];
        var s := sessions[id];
        if !s.closed && s.inFlight == 0 {
          if s.Resumable() {
            if now - s.detachedAt > s.grace {
              Drop(id);
              expired := Append(expired, id);
            } else if s.DetachedBeyondPollGap(now) {
              detached := Append(detached, id);
            }
          } else if now - s.lastActive > timeout {
            Drop(id);
            expired := Append(expired, id);
          }
        }
        i := i + 1;
      }
      assert order[..i] == order;
    }

    /** The eviction loop: those at the head of the sorted list leave, in turn. */
    method EvictExcess(now: int, sorted: seq<Id>, excess: nat, before: seq<Id>) returns (expired: seq<Id>)
      requires Valid() && excess <= |sorted|
      requires NoDuplicates(sorted) && NoDuplicates(before)
      requires forall id <- sorted :: id in sessions && sessions[id].Waits(now) && id !in before
      modifies this
      ensures Valid() && Dropped(old(sessions), old(index), sessions, index, sorted[..excess])
      ensures NoDuplicates(expired)
      ensures forall id :: id in expired <==> id in before || id in sorted[..excess]
    {
      expired := before;
      var k := 0;
      while k < excess
        invariant 0 <= k <= excess && Valid() && NoDuplicates(expired)
        invariant Dropped(old(sessions), old(index), sessions, index, sorted[..k])
        invariant forall id :: id in expired <==> id in before || id in sorted[..k]
      {
        var id := sorted[k];
        SplitNoDuplicates(sorted, k);
        assert id in sorted[k..];
        assert sorted[..k + 1] == sorted[..k] + [id];
        var s := sessions[id];
        if !s.closed && s.DetachedBeyondPollGap(now) {
          Drop(id);
          expired := Append(expired, id);
        }
        k := k + 1;
      }
    }

    /** `sweep`, when nothing interleaves with it. */
    method Sweep(now: int, timeout: nat, order: seq<Id>) returns (expired: seq<Id>)
      requires Valid() && NoDuplicates(order) && (forall id :: id in order <==> id in index)
      modifies this
      // each session that leaves is closed and reported once; the others are as they were
      ensures Valid() && Dropped(old(sessions), old(index), sessions, index, expired) && NoDuplicates(expired)
      ensures forall id <- expired :: id in old(index)
      // everything due leaves, and what else leaves was waiting
      ensures forall id :: id in old(index) && old(sessions)[id].Due(now, timeout) ==> id in expired
      ensures forall id <- expired ::
                old(sessions)[id].Due(now, timeout) || (old(sessions)[id].Waits(now) && maxDetached > 0)
      // in the fields it reads: evicted before its time only with nothing attached and past its normal gap
      ensures forall id <- expired ::
                var x := old(sessions)[id];
                && x.inFlight == 0 && !x.closed
                && (|| (if x.resumable && !x.broken then now - x.detachedAt > x.grace else now - x.lastActive > timeout)
                    || (maxDetached > 0 && x.resumable && !x.broken && x.pollGap < now - x.detachedAt <= x.grace))
      // no one waiting outlives someone evicted who had waited less
      ensures LongestFirst(old(sessions), index, expired, now, timeout)
      // the cap is met, and no more leave than it takes
      ensures Waiting(sessions, index, now) <= Waiting(old(sessions), old(index), now)
      ensures |Waiting(sessions, index, now)|
              == if maxDetached > 0 then Min(maxDetached, |Waiting(old(sessions), old(index), now)|)
                 else |Waiting(old(sessions), old(index), now)|
    {
      var due, detached := Scan(now, timeout, order);
      var excess := if maxDetached > 0 && |detached| > maxDetached then |detached| - maxDetached else 0;
      var sorted := SortDetached(sessions, detached);
      SortOrdered(sessions, detached);
      SortedFacts(sessions, detached);
      ghost var scanned, scannedIndex := sessions, index;
      expired := EvictExcess(now, sorted, excess, due);
      hide *;
      DroppedTwice(old(sessions), old(index), scanned, scannedIndex, sessions, index, due, sorted[..excess], expired);
      FromScan(old(sessions), old(index), scanned, scannedIndex, due, detached, sorted, now, timeout);
      LongestLeaveFirst(old(sessions), index, due, sorted, excess, expired, now, timeout);
      CapMet(old(sessions), old(index), sessions, index, due, sorted, excess, expired, now, timeout);
    }
  }

  /** Exactly the sessions of `gone` were marked closed and left the store. */
  ghost predicate Dropped(s: SessionMap, i: set<Id>, s': SessionMap, i': set<Id>, gone: seq<Id>) {
    && s'.Keys == s.Keys
    && (forall id :: id in i' <==> id in i && id !in gone)
    && (forall id :: id in s' ==> s'[id] == if id in gone then s[id].(closed := true) else s[id])
  }

  /** The sessions held that wait for a resume at `now`. */
  ghost function Waiting(s: SessionMap, i: set<Id>, now: int): set<Id> {
    set id | id in i && id in s
             && !s[id].closed && s[id].resumable && !s[id].broken && s[id].inFlight == 0
             && s[id].pollGap < now - s[id].detachedAt <= s[id].grace
  }

  ghost predicate LongestFirst(s: SessionMap, left: set<Id>, expired: seq<Id>, now: int, timeout: nat) {
    forall id, k :: id in expired && id in s && !s[id].Due(now, timeout) && k in left && k in s && s[k].Waits(now)
                    ==> s[id].detachedAt <= s[k].detachedAt
  }

  lemma DroppedTwice(s: SessionMap, i: set<Id>, s1: SessionMap, i1: set<Id>, s2: SessionMap, i2: set<Id>,
                     a: seq<Id>, b: seq<Id>, both: seq<Id>)
    requires Dropped(s, i, s1, i1, a) && Dropped(s1, i1, s2, i2, b)
    requires forall id :: id in both <==> id in a || id in b
    ensures Dropped(s, i, s2, i2, both)
  {
  }

  /** The sorted list as the state before the scan sees it: who was due, and who waits, in order. */
  ghost predicate Listed(s: SessionMap, i: set<Id>, due: seq<Id>, sorted: seq<Id>, now: int, timeout: nat) {
    && i <= s.Keys && NoDuplicates(sorted) && Ordered(s, sorted)
    && (forall id :: id in due <==> id in i && s[id].Due(now, timeout))
    && (forall id :: id in sorted <==> id in i && s[id].Waits(now))
  }

  lemma FromScan(s: SessionMap, i: set<Id>, s1: SessionMap, i1: set<Id>, due: seq<Id>, detached: seq<Id>,
                 sorted: seq<Id>, now: int, timeout: nat)
    requires i <= s.Keys && Dropped(s, i, s1, i1, due) && NoDuplicates(sorted) && Ordered(s1, sorted)
    requires forall id :: id in due <==> id in i && s[id].Due(now, timeout)
    requires forall id :: id in detached <==> id in i && s[id].Waits(now)
    requires forall id :: id in sorted <==> id in detached
    ensures Listed(s, i, due, sorted, now, timeout)
  {
    forall j, k | 0 <= j < k < |sorted| ensures sorted[j] in s && sorted[k] in s && Earlier(s, sorted[j], sorted[k]) {
      assert sorted[j] in detached && sorted[k] in detached;
      assert Earlier(s1, sorted[j], sorted[k]);
    }
  }

  lemma LongestLeaveFirst(s: SessionMap, left: set<Id>, due: seq<Id>, sorted: seq<Id>, excess: nat,
                          expired: seq<Id>, now: int, timeout: nat)
    requires excess <= |sorted| && left <= s.Keys
    requires exists i :: left <= i && Listed(s, i, due, sorted, now, timeout)
    requires forall id :: id in expired <==> id in due || id in sorted[..excess]
    requires forall id :: id in left ==> id !in expired
    ensures LongestFirst(s, left, expired, now, timeout)
  {
    forall id, k | id in expired && id in s && !s[id].Due(now, timeout) && k in left && s[k].Waits(now)
      ensures s[id].detachedAt <= s[k].detachedAt
    {
      assert id in sorted[..excess] && k in sorted && k !in sorted[..excess];
      var a :| 0 <= a < excess && sorted[a] == id;
      var b :| 0 <= b < |sorted| && sorted[b] == k;
      assert b >= excess;
      assert Earlier(s, sorted[a], sorted[b]);
    }
  }

  lemma CapMet(s: SessionMap, i: set<Id>, s': SessionMap, i': set<Id>, due: seq<Id>, sorted: seq<Id>, excess: nat,
               expired: seq<Id>, now: int, timeout: nat)
    requires excess <= |sorted| && Listed(s, i, due, sorted, now, timeout)
    requires Dropped(s, i, s', i', expired)
    requires forall id :: id in expired <==> id in due || id in sorted[..excess]
    ensures Waiting(s', i', now) <= Waiting(s, i, now)
    ensures |Waiting(s, i, now)| == |sorted| && |Waiting(s', i', now)| == |sorted| - excess
  {
    SplitNoDuplicates(sorted, excess);
    var keep := sorted[excess..];
    assert sorted == sorted[..excess] + keep;
    forall id ensures id in keep <==> id in i' && id in s' && s'[id].Waits(now) {
      assert id in sorted <==> id in sorted[..excess] || id in keep;
    }
    WaitingIs(s, i, now, sorted);
    WaitingIs(s', i', now, keep);
  }

  lemma WaitingIs(s: SessionMap, i: set<Id>, now: int, q: seq<Id>)
    requires NoDuplicates(q)
    requires forall id :: id in q <==> id in i && id in s && s[id].Waits(now)
    ensures |Waiting(s, i, now)| == |q|
  {
    ElementsSize(q);
    assert Elements(q) == Waiting(s, i, now);
  }

  /** `append`, for a list that must stay free of duplicates. */
  function Append(q: seq<Id>, id: Id): (r: seq<Id>)
    requires NoDuplicates(q) && id !in q
    ensures NoDuplicates(r) && forall x :: x in r <==> x in q || x == id
  {
    assert multiset(q + [id]) == multiset(q) + multiset{id};
    q + [id]
  }

  lemma SortedFacts(s: SessionMap, q: seq<Id>)
    requires NoDuplicates(q) && forall x <- q :: x in s
    ensures var r := SortDetached(s, q);
            NoDuplicates(r) && |r| == |q| && forall x :: x in r <==> x in q
  {
    var r := SortDetached(s, q);
    assert |multiset(r)| == |multiset(q)|;
    forall x ensures x in r <==> x in q {
      assert x in r <==> x in multiset(r);
      assert x in q <==> x in multiset(q);
    }
  }
}
