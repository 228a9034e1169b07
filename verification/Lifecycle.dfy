/**
Every session of a store, interleaved at lock granularity: transports attaching and leaving, layers
breaking, deletes, conditional closes, direct closes, and a sweeper that holds the store's lock for
its whole scan but takes each session's lock only while it looks at that session. Time only moves
forward. A disconnect callback runs some time after the lock of the close that won is released.
*/
module Lifecycle {
  import opened Sessions

  type Id = nat

  /** How a session came to be closed, what it was then, the time its closer had read, and the time it was. */
  datatype How = Direct | Deleted | Conditional | Expired | CapExcess
  datatype Closing = Closing(how: How, was: SessionState, at: int, now: int)

  datatype Sweep =
    | NoSweep
    | Sampled(at: int)                                                // now read, lock not yet taken
    | Scanning(at: int, todo: set<Id>, detached: seq<Id>)
    | Evicting(at: int, excess: seq<Id>, keep: seq<Id>)
    | Swept(at: int)                                                  // lock about to be released

  datatype State = State(
    now: int,
    timeout: nat,
    cap: nat,
    sessions: map<Id, SessionState>,   // every session object ever published
    index: set<Id>,                    // the store's map
    sweep: Sweep,
    closings: map<Id, Closing>,
    pending: multiset<Id>,             // closes won, callback not yet run
    fired: seq<Id>)                    // callbacks run
  {
    predicate StoreLocked() {
      !sweep.NoSweep? && !sweep.Sampled?
    }

    function Put(id: Id, s: SessionState): State {
      this.(sessions := sessions[id := s])
    }

    /** Mark closed, and for a store-level close drop it from the map and owe one callback. */
    function Close(id: Id, how: How, at: int): State
      requires id in sessions
    {
      var s := sessions[id];
      this.(sessions := sessions[id := s.(closed := true)],
            closings := closings[id := Closing(how, s, at, now)],
            index := if how.Direct? then index else index - {id},
            pending := if how.Direct? then pending else pending + multiset{id})
    }
  }

  datatype Event =
    | Tick(d: nat)
    | Connect(id: Id, resumable: bool, grace: nat, pollGap: nat)
    | Unindex(id: Id)               // SessionStore.Remove
    | BeginPoll(id: Id)
    | EndPoll(id: Id)
    | BeginWebSocket(id: Id)
    | EndWebSocket(id: Id)
    | Touch(id: Id)
    | Break(id: Id)
    | CloseDirect(id: Id)           // Session.Close
    | RemoveAndMarkClosed(id: Id, requireIdle: bool)
    | Notify(id: Id)
    | SweepSample
    | SweepLock
    | SweepVisit(id: Id)
    | SweepSort(order: seq<Id>)
    | SweepEvict
    | SweepUnlock
  {
    predicate OfTransport() {
      BeginPoll? || EndPoll? || BeginWebSocket? || EndWebSocket? || Touch? || Break?
    }

    function OnSession(now: int): Op
      requires OfTransport()
    {
      match this
      case BeginPoll(_) => Op.OpenPoll(now)
      case EndPoll(_) => Op.LeavePoll(now)
      case BeginWebSocket(_) => Op.OpenSocket(now)
      case EndWebSocket(_) => Op.LeaveSocket(now)
      case Touch(_) => Op.Touch(now)
      case Break(_) => Op.Break
    }

    predicate OfSweep() {
      SweepSample? || SweepLock? || SweepVisit? || SweepSort? || SweepEvict? || SweepUnlock?
    }
  }

  function Init(now: int, timeout: nat, cap: nat): State {
    State(now, timeout, cap, map[], {}, NoSweep, map[], multiset{}, [])
  }

  /** A handler's own sections, at the time its clock shows. */
  function Transport(s: SessionState, e: Event, now: int): SessionState
    requires e.OfTransport()
  {
    Apply(s, e.OnSession(now)).0
  }

  function Visit(s: State, id: Id): State
    requires s.sweep.Scanning? && id in s.sessions
  {
    var x, at := s.sessions[id], s.sweep.at;
    var s' := s.(sweep := s.sweep.(todo := s.sweep.todo - {id}));
    if x.Due(at, s.timeout) then s'.Close(id, Expired, at)
    else if x.Waits(at) then s'.(sweep := s'.sweep.(detached := s.sweep.detached + [id]))
    else s'
  }

  function SweepStep(s: State, e: Event): State
    requires e.OfSweep()
  {
    match e
    case SweepSample => if s.sweep.NoSweep? then s.(sweep := Sampled(s.now)) else s
    case SweepLock => if s.sweep.Sampled? then s.(sweep := Scanning(s.sweep.at, s.index, [])) else s
    case SweepVisit(id) =>
      if s.sweep.Scanning? && id in s.sweep.todo && id in s.sessions then Visit(s, id) else s
    case SweepSort(order) =>
      if !s.sweep.Scanning? || s.sweep.todo != {} then s
      else if s.cap == 0 || |s.sweep.detached| <= s.cap then s.(sweep := Swept(s.sweep.at))
      else if multiset(order) != multiset(s.sweep.detached) || |order| != |s.sweep.detached| then s
      else s.(sweep := Evicting(s.sweep.at, order[..|order| - s.cap], order[|order| - s.cap..]))
    case SweepEvict =>
      if !s.sweep.Evicting? then s
      else if s.sweep.excess == [] then s.(sweep := Swept(s.sweep.at))
      else
        var id := s.sweep.excess[0];
        var s' := s.(sweep := s.sweep.(excess := s.sweep.excess[1..]));
        if id in s.sessions && !s.sessions[id].closed && s.sessions[id].DetachedBeyondPollGap(s.sweep.at)
        then s'.Close(id, CapExcess, s.sweep.at) else s'
    case SweepUnlock => if s.sweep.Swept? then s.(sweep := NoSweep) else s
  }

  function Step(s: State, e: Event): State {
    if e.OfTransport() then
      if e.id in s.sessions then s.Put(e.id, Transport(s.sessions[e.id], e, s.now)) else s
    else if e.OfSweep() then SweepStep(s, e)
    else
      match e
      case Tick(d) => s.(now := s.now + d)
      case Connect(id, resumable, grace, pollGap) =>
        if s.StoreLocked() || id in s.sessions then s
        else s.Put(id, NewSession(resumable, grace, pollGap, s.now)).(index := s.index + {id})
      case Unindex(id) => if s.StoreLocked() then s else s.(index := s.index - {id})
      case CloseDirect(id) =>
        if id in s.sessions && !s.sessions[id].closed then s.Close(id, Direct, s.now) else s
      case RemoveAndMarkClosed(id, requireIdle) =>
        if s.StoreLocked() || id !in s.index || id !in s.sessions then s else
        var x := s.sessions[id];
        if x.closed || (requireIdle && (x.inFlight != 0 || x.InResumeGrace(s.now))) then s
        else s.Close(id, if requireIdle then Conditional else Deleted, s.now)
      case Notify(id) =>
        if id in s.pending then s.(pending := s.pending - multiset{id}, fired := s.fired + [id]) else s
  }

  function Run(s: State, events: seq<Event>): State {
    if events == [] then s else Step(Run(s, events[..|events| - 1]), events[|events| - 1])
  }

  // ---- what holds of one session, in every reachable state ----

  /** Callbacks run or owed for a session: one if a store-level close won it, otherwise none. */
  function Callbacks(s: State, id: Id): nat {
    s.pending[id] + multiset(s.fired)[id]
  }

  /** Why a session was closed, in its fields and the time its closer had read. */
  ghost predicate Justified(c: Closing, timeout: nat) {
    && c.at <= c.now && !c.was.closed
    && (c.how in {Conditional, Expired, CapExcess} ==> c.was.inFlight == 0)
    && (c.how == Expired ==>
          if c.was.resumable && !c.was.broken then c.at - c.was.detachedAt > c.was.grace
          else c.at - c.was.lastActive > timeout)
    && (c.how == CapExcess ==> c.at - c.was.detachedAt > c.was.pollGap)
    && (c.how == Conditional ==> !(c.was.resumable && !c.was.broken && c.at - c.was.detachedAt <= c.was.grace))
  }

  ghost predicate ClosingOk(s: State, id: Id) {
    && (id in s.closings <==> id in s.sessions && s.sessions[id].closed)
    && Callbacks(s, id) == (if id in s.closings && !s.closings[id].how.Direct? then 1 else 0)
    && (id in s.closings && !s.closings[id].how.Direct? ==> id !in s.index)
    && (id in s.closings ==>
          var c := s.closings[id];
          (c.how in {Conditional, Expired, CapExcess} ==> s.sessions[id].inFlight == 0) && Justified(c, s.timeout))
  }

  ghost predicate SessionOk(s: State, id: Id) {
    && (id in s.index ==> id in s.sessions)
    && (id in s.sessions ==>
          && s.sessions[id].detachedAt <= s.now
          && (s.sessions[id].wsAttached ==> s.sessions[id].inFlight > 0))
  }

  /** Detached past its grace, as of `at`. */
  predicate Overdue(x: SessionState, at: int) {
    !x.closed && x.resumable && !x.broken && x.inFlight == 0 && at - x.detachedAt > x.grace
  }

  /** While the sweeper works, every session it would still count is one it has listed or not yet seen. */
  ghost predicate SweepCovers(s: State, id: Id) {
    var w := s.sweep;
    id in s.index && id in s.sessions && (w.Scanning? || w.Evicting? || w.Swept?) && s.sessions[id].Counted(w.at) ==>
      match w
      case Scanning(_, todo, detached) => id in todo || id in detached
      case Evicting(_, excess, keep) => id in excess || id in keep
      case _ => true
  }

  /** And every one past its grace is one it has not yet seen. */
  ghost predicate SweepCatches(s: State, id: Id) {
    id in s.index && id in s.sessions && !s.sweep.NoSweep? && !s.sweep.Sampled? && Overdue(s.sessions[id], s.sweep.at)
    ==> s.sweep.Scanning? && id in s.sweep.todo
  }

  ghost predicate Inv(s: State) {
    && (forall id :: ClosingOk(s, id) && SessionOk(s, id) && SweepCovers(s, id) && SweepCatches(s, id))
    && (!s.sweep.NoSweep? ==> s.sweep.at <= s.now)
    && (s.sweep.Scanning? ==> s.sweep.todo <= s.index)
    && (s.sweep.Evicting? ==> |s.sweep.keep| == s.cap > 0)
    && (s.sweep.Swept? && s.cap > 0 ==> |CountedIds(s, s.sweep.at)| <= s.cap)
  }

  /** The sessions in the store that count as detached at `at`. */
  ghost function CountedIds(s: State, at: int): set<Id> {
    set id | id in s.index && id in s.sessions
             && !s.sessions[id].closed && s.sessions[id].resumable && !s.sessions[id].broken
             && s.sessions[id].inFlight == 0 && at - s.sessions[id].detachedAt > s.sessions[id].pollGap
  }

  // ---- every event keeps it ----

  /** A handler's section keeps a session sound and can only take it out of the sweeper's count. */
  lemma TransportKeeps(x: SessionState, e: Event, now: int, at: int)
    requires e.OfTransport() && at <= now && x.detachedAt <= now && (x.wsAttached ==> x.inFlight > 0)
    ensures var x' := Transport(x, e, now);
            && x'.detachedAt <= now && (x'.wsAttached ==> x'.inFlight > 0)
            && x'.closed == x.closed
            && (x'.Counted(at) ==> x.Counted(at)) && (Overdue(x', at) ==> Overdue(x, at))
            && (x.closed && x.inFlight == 0 ==> x'.inFlight == 0)
  {
  }

  /** Fewer counted sessions in the same sweep still fit. */
  lemma CountShrinks(s: State, s': State)
    requires Inv(s) && s'.sweep == s.sweep && s'.cap == s.cap && s'.index <= s.index
    requires forall id :: id in s'.index && id in s'.sessions && !s.sweep.NoSweep?
                          && s'.sessions[id].Counted(s.sweep.at)
                          ==> id in s.sessions && s.sessions[id].Counted(s.sweep.at)
    ensures s'.sweep.Swept? && s'.cap > 0 ==> |CountedIds(s', s'.sweep.at)| <= s'.cap
  {
    if s'.sweep.Swept? && s'.cap > 0 {
      assert CountedIds(s', s'.sweep.at) <= CountedIds(s, s.sweep.at);
      SubsetSize(CountedIds(s', s'.sweep.at), CountedIds(s, s.sweep.at));
    }
  }

  lemma {:induction false} SubsetSize(a: set<Id>, b: set<Id>)
    requires a <= b
    ensures |a| <= |b|
  {
    assert b == a + (b - a);
  }

  lemma TransportInv(s: State, e: Event)
    requires Inv(s) && e.OfTransport() && e.id in s.sessions
    ensures Inv(Step(s, e))
  {
    var s' := Step(s, e);
    var at := if s.sweep.NoSweep? then s.now else s.sweep.at;
    assert SessionOk(s, e.id) && ClosingOk(s, e.id);
    TransportKeeps(s.sessions[e.id], e, s.now, at);
    forall id ensures ClosingOk(s', id) && SessionOk(s', id) && SweepCovers(s', id) && SweepCatches(s', id) {
      assert ClosingOk(s, id) && SessionOk(s, id) && SweepCovers(s, id) && SweepCatches(s, id);
    }
    CountShrinks(s, s');
  }

  /** Closing an open session, for any reason its caller has checked. */
  lemma CloseInv(s: State, id: Id, how: How, at: int)
    requires Inv(s) && id in s.sessions && !s.sessions[id].closed
    requires how in {Conditional, Expired, CapExcess} ==> s.sessions[id].inFlight == 0
    requires Justified(Closing(how, s.sessions[id], at, s.now), s.timeout)
    requires s.sweep.Scanning? && !how.Direct? ==> id !in s.sweep.todo
    ensures Inv(s.Close(id, how, at))
  {
    var s' := s.Close(id, how, at);
    forall x ensures ClosingOk(s', x) && SessionOk(s', x) && SweepCovers(s', x) && SweepCatches(s', x) {
      assert ClosingOk(s, x) && SessionOk(s, x) && SweepCovers(s, x) && SweepCatches(s, x);
    }
    CountShrinks(s, s');
  }

  lemma VisitInv(s: State, id: Id)
    requires Inv(s) && s.sweep.Scanning? && id in s.sweep.todo && id in s.sessions
    ensures Inv(Visit(s, id))
  {
    var x, at := s.sessions[id], s.sweep.at;
    var counted, closes := x.Waits(at), x.Due(at, s.timeout);
    var s1 := s.(sweep := s.sweep.(todo := s.sweep.todo - {id},
                                   detached := if counted then s.sweep.detached + [id] else s.sweep.detached));
    // Before closing it the sweeper still covers everyone but `id`.
    forall y | y != id || !closes
      ensures ClosingOk(s1, y) && SessionOk(s1, y) && SweepCovers(s1, y) && SweepCatches(s1, y)
    {
      assert ClosingOk(s, y) && SessionOk(s, y) && SweepCovers(s, y) && SweepCatches(s, y);
    }
    if closes {
      var s' := s1.Close(id, Expired, at);
      assert ClosingOk(s, id) && SessionOk(s, id);
      forall y ensures ClosingOk(s', y) && SessionOk(s', y) && SweepCovers(s', y) && SweepCatches(s', y) {
        assert y != id ==> ClosingOk(s1, y) && SessionOk(s1, y) && SweepCovers(s1, y) && SweepCatches(s1, y);
      }
    }
  }

  lemma {:induction false} SeqSetSize(q: seq<Id>, a: set<Id>)
    requires forall x :: x in a ==> x in q
    ensures |a| <= |q|
  {
    if q != [] {
      SeqSetSize(q[1..], a - {q[0]});
      SubsetSize(a, (a - {q[0]}) + {q[0]});
    } else {
      assert a == {};
    }
  }

  lemma SortInv(s: State, order: seq<Id>)
    requires Inv(s)
    ensures Inv(SweepStep(s, SweepSort(order)))
  {
    var s' := SweepStep(s, SweepSort(order));
    if s' != s {
      assert forall x :: x in s.sweep.detached <==> x in multiset(s.sweep.detached);
      assert forall x :: x in order <==> x in multiset(order);
      if s'.sweep.Evicting? {
        assert order == s'.sweep.excess + s'.sweep.keep;
      } else {
        if s'.cap > 0 {
          forall x | x in CountedIds(s', s'.sweep.at) ensures x in s.sweep.detached {
            assert SweepCovers(s, x);
          }
          SeqSetSize(s.sweep.detached, CountedIds(s', s'.sweep.at));
        }
      }
      forall x ensures ClosingOk(s', x) && SessionOk(s', x) && SweepCovers(s', x) && SweepCatches(s', x) {
        assert ClosingOk(s, x) && SessionOk(s, x) && SweepCovers(s, x) && SweepCatches(s, x);
      }
    }
  }

  lemma EvictInv(s: State)
    requires Inv(s) && s.sweep.Evicting?
    ensures Inv(SweepStep(s, SweepEvict))
  {
    var s' := SweepStep(s, SweepEvict);
    if s.sweep.excess == [] {
      forall x | x in CountedIds(s', s'.sweep.at) ensures x in s.sweep.keep {
        assert SweepCovers(s, x);
      }
      SeqSetSize(s.sweep.keep, CountedIds(s', s'.sweep.at));
      forall x ensures ClosingOk(s', x) && SessionOk(s', x) && SweepCovers(s', x) && SweepCatches(s', x) {
        assert ClosingOk(s, x) && SessionOk(s, x);
      }
    } else {
      var id := s.sweep.excess[0];
      assert ClosingOk(s, id) && SessionOk(s, id) && SweepCovers(s, id) && SweepCatches(s, id);
      forall x ensures ClosingOk(s', x) && SessionOk(s', x) && SweepCovers(s', x) && SweepCatches(s', x) {
        assert ClosingOk(s, x) && SessionOk(s, x) && SweepCovers(s, x) && SweepCatches(s, x);
      }
    }
  }

  lemma SweepInv(s: State, e: Event)
    requires Inv(s) && e.OfSweep()
    ensures Inv(SweepStep(s, e))
  {
    if e.SweepVisit? {
      if s.sweep.Scanning? && e.id in s.sweep.todo && e.id in s.sessions { VisitInv(s, e.id); }
    } else if e.SweepSort? {
      SortInv(s, e.order);
    } else if e.SweepEvict? {
      if s.sweep.Evicting? { EvictInv(s); }
    } else {
      var s' := SweepStep(s, e);
      forall x ensures ClosingOk(s', x) && SessionOk(s', x) && SweepCovers(s', x) && SweepCatches(s', x) {
        assert ClosingOk(s, x) && SessionOk(s, x) && SweepCovers(s, x) && SweepCatches(s, x);
      }
    }
  }

  lemma StoreInv(s: State, e: Event)
    requires Inv(s) && (e.Tick? || e.Connect? || e.Unindex? || e.Notify?)
    ensures Inv(Step(s, e))
  {
    var s' := Step(s, e);
    forall x ensures ClosingOk(s', x) && SessionOk(s', x) && SweepCovers(s', x) && SweepCatches(s', x) {
      assert ClosingOk(s, x) && SessionOk(s, x) && SweepCovers(s, x) && SweepCatches(s, x);
    }
    if !e.Connect? {
      CountShrinks(s, s');
    }
  }

  lemma StepInv(s: State, e: Event)
    requires Inv(s)
    ensures Inv(Step(s, e))
  {
    if e.OfTransport() {
      if e.id in s.sessions { TransportInv(s, e); }
    } else if e.OfSweep() {
      SweepInv(s, e);
    } else if e.CloseDirect? {
      if e.id in s.sessions && !s.sessions[e.id].closed { CloseInv(s, e.id, Direct, s.now); }
    } else if e.RemoveAndMarkClosed? {
      if Step(s, e) != s { CloseInv(s, e.id, if e.requireIdle then Conditional else Deleted, s.now); }
    } else {
      StoreInv(s, e);
    }
  }

  lemma {:induction false} RunInv(s: State, events: seq<Event>)
    requires Inv(s)
    ensures Inv(Run(s, events))
  {
    if events != [] {
      RunInv(s, events[..|events| - 1]);
      StepInv(Run(s, events[..|events| - 1]), events[|events| - 1]);
    }
  }

  // ---- the theorems ----

  /**
  Sweep under interleaving. In every reachable state, a session the sweeper or a conditional close
  closed had no transport attached at that moment. One it expired was past its grace, or idle past
  the timeout if it has none; one it evicted was past the normal gap between its polls; one closed
  inside its grace was closed by its owner or as excess over the cap. When a sweep is done, however
  attaches, detaches, breaks and closes interleaved with it, at most the positive cap of sessions
  still count as detached at the time it read, and no resumable one is still past its grace.
  */
  lemma {:induction false} SweepSafety(now: int, timeout: nat, cap: nat, events: seq<Event>)
    ensures var s := Run(Init(now, timeout, cap), events);
            && (forall id :: id in s.closings ==>
                  var c := s.closings[id];
                  && (c.how in {Conditional, Expired, CapExcess} ==> c.was.inFlight == 0)
                  && (c.how == Expired ==>
                        if c.was.resumable && !c.was.broken then c.at - c.was.detachedAt > c.was.grace
                        else c.at - c.was.lastActive > timeout)
                  && (c.how == CapExcess ==> c.at - c.was.detachedAt > c.was.pollGap)
                  && (c.was.resumable && !c.was.broken && c.was.inFlight == 0 && c.now - c.was.detachedAt <= c.was.grace
                      ==> c.how in {Direct, Deleted, CapExcess}))
            && (s.sweep.Swept? && cap > 0 ==> |CountedIds(s, s.sweep.at)| <= cap)
            && (s.sweep.Swept? ==>
                  forall id :: id in s.index && id in s.sessions ==>
                    var x := s.sessions[id];
                    !(!x.closed && x.resumable && !x.broken && x.inFlight == 0 && s.sweep.at - x.detachedAt > x.grace))
  {
    hide Run, Step;
    InitInv(now, timeout, cap);
    RunInv(Init(now, timeout, cap), events);
    RunCap(Init(now, timeout, cap), events);
    var s := Run(Init(now, timeout, cap), events);
    forall id | id in s.closings ensures Justified(s.closings[id], timeout) {
      assert ClosingOk(s, id);
    }
    if s.sweep.Swept? {
      forall id | id in s.index && id in s.sessions ensures !Overdue(s.sessions[id], s.sweep.at) {
        assert SweepCatches(s, id);
      }
    }
    hide Inv, CountedIds;
  }

  lemma InitInv(now: int, timeout: nat, cap: nat)
    ensures Inv(Init(now, timeout, cap))
  {
  }

  lemma StepCap(s: State, e: Event)
    ensures Step(s, e).cap == s.cap && Step(s, e).timeout == s.timeout && s.now <= Step(s, e).now
  {
    hide Transport;
  }

  lemma {:induction false} RunCap(s: State, events: seq<Event>)
    ensures Run(s, events).cap == s.cap && Run(s, events).timeout == s.timeout && s.now <= Run(s, events).now
  {
    if events != [] {
      hide Step;
      RunCap(s, events[..|events| - 1]);
      StepCap(Run(s, events[..|events| - 1]), events[|events| - 1]);
    }
  }

  /**
  Disconnect notification. In every reachable state a session has at most one callback run or owed;
  it has exactly one if a delete, a conditional close or the sweeper won its close, and none if it
  is open or its owner closed it directly. What the sweeper or a conditional close closed has no
  transport attached now either.
  */
  lemma {:induction false} NotifiedAtMostOnce(now: int, timeout: nat, cap: nat, events: seq<Event>, id: Id)
    ensures var s := Run(Init(now, timeout, cap), events);
            && multiset(s.fired)[id] <= Callbacks(s, id) <= 1
            && (Callbacks(s, id) == 1 <==> id in s.closings && !s.closings[id].how.Direct?)
            && (Callbacks(s, id) == 1 ==> id in s.sessions && s.sessions[id].closed && id !in s.index)
            && (id in s.closings && s.closings[id].how in {Conditional, Expired, CapExcess}
                ==> id in s.sessions && s.sessions[id].inFlight == 0)
  {
    hide Run, Step;
    InitInv(now, timeout, cap);
    RunInv(Init(now, timeout, cap), events);
    assert ClosingOk(Run(Init(now, timeout, cap), events), id);
  }

  lemma ExpiredStep(s: State, e: Event, id: Id)
    requires Inv(s) && id in s.sessions && s.sessions[id].ResumeExpired(s.now)
    ensures var s' := Step(s, e);
            && id in s'.sessions
            && s'.sessions[id] == s.sessions[id].(closed := s'.sessions[id].closed)
            && (s.sessions[id].closed ==> s'.sessions[id].closed)
            && (id in s'.index ==> id in s.index)
            && s'.sessions[id].ResumeExpired(s'.now)
  {
    assert SessionOk(s, id);
    if e.OfTransport() {
      hide SweepStep;
    } else if e.OfSweep() {
      hide Transport;
    } else {
      hide SweepStep, Transport;
    }
  }

  /**
  Grace expiry is final. Once a detached, unbroken resumable session is past its grace, no run from
  any reachable state attaches a transport to it, moves its detach time, touches it or breaks its
  layer: being closed and leaving the store are the only changes left to it.
  */
  lemma {:induction false} GraceExpiryFinal(s: State, events: seq<Event>, id: Id)
    requires Inv(s) && id in s.sessions
    requires var x := s.sessions[id]; x.resumable && !x.broken && x.inFlight == 0 && s.now - x.detachedAt > x.grace
    ensures var s' := Run(s, events);
            && id in s'.sessions
            && s'.sessions[id] == s.sessions[id].(closed := s'.sessions[id].closed)
            && (s.sessions[id].closed ==> s'.sessions[id].closed)
            && (id in s'.index ==> id in s.index)
            && s'.sessions[id].ResumeExpired(s'.now)
  {
    if events != [] {
      var shorter := events[..|events| - 1];
      GraceExpiryFinal(s, shorter, id);
      RunInv(s, shorter);
      ExpiredStep(Run(s, shorter), events[|events| - 1], id);
    }
  }

  // ---- what is in the store ----

  /** `Remove` takes the session out of the map. */
  predicate Removes(s: State, e: Event, id: Id) {
    e == Unindex(id) && !s.StoreLocked() && id in s.index
  }

  predicate RemovedAt(s: State, events: seq<Event>, id: Id, i: nat) {
    i < |events| && Removes(Run(s, events[..i]), events[i], id)
  }

  ghost predicate EverRemoved(s: State, events: seq<Event>, id: Id) {
    exists i: nat :: RemovedAt(s, events, id, i)
  }

  lemma RemovedEarlier(s: State, events: seq<Event>, id: Id, i: nat)
    requires i < |events| - 1
    ensures RemovedAt(s, events, id, i) <==> RemovedAt(s, events[..|events| - 1], id, i)
  {
    hide Run, Removes;
    assert events[..|events| - 1][..i] == events[..i];
  }

  lemma RemovedSplits(s: State, events: seq<Event>, id: Id)
    requires events != []
    ensures var n := |events| - 1;
            EverRemoved(s, events, id)
            <==> EverRemoved(s, events[..n], id) || Removes(Run(s, events[..n]), events[n], id)
  {
    var n := |events| - 1;
    assert RemovedAt(s, events, id, n) <==> Removes(Run(s, events[..n]), events[n], id);
    assert forall i: nat :: RemovedAt(s, events, id, i) ==> i <= n;
    assert forall i: nat :: RemovedAt(s, events[..n], id, i) ==> i < n;
    hide RemovedAt, Removes, Run;
    forall i: nat | i < n ensures RemovedAt(s, events, id, i) <==> RemovedAt(s, events[..n], id, i) {
      RemovedEarlier(s, events, id, i);
    }
    if EverRemoved(s, events, id) {
      var i: nat :| RemovedAt(s, events, id, i);
    }
    if EverRemoved(s, events[..n], id) {
      var i: nat :| RemovedAt(s, events[..n], id, i);
      assert RemovedAt(s, events, id, i);
    }
  }

  /** No store-level close has won this session. */
  predicate NotTaken(s: State, id: Id) {
    id in s.closings ==> s.closings[id].how.Direct?
  }

  /** What one step may do to a session's place in the map. */
  ghost predicate IndexNext(s: State, e: Event, id: Id, s': State) {
    && (id in s.sessions ==> id in s'.sessions)
    && (id in s'.sessions && id in s.sessions ==>
          (id in s'.index && NotTaken(s', id)
           <==> id in s.index && NotTaken(s, id) && !Removes(s, e, id) && NotTaken(s', id)))
    && (id in s'.sessions && id !in s.sessions ==> id in s'.index && NotTaken(s', id) && !Removes(s, e, id))
    && (!NotTaken(s, id) ==> !NotTaken(s', id))
  }

  lemma TransportIndex(s: State, e: Event, id: Id)
    requires ClosingOk(s, id) && SessionOk(s, id) && e.OfTransport()
    ensures IndexNext(s, e, id, Step(s, e))
  {
    hide Transport;
  }

  lemma SweepIndex(s: State, e: Event, id: Id)
    requires ClosingOk(s, id) && SessionOk(s, id) && e.OfSweep()
    ensures IndexNext(s, e, id, SweepStep(s, e))
  {
  }

  lemma StoreIndex(s: State, e: Event, id: Id)
    requires ClosingOk(s, id) && SessionOk(s, id) && !e.OfTransport() && !e.OfSweep()
    ensures IndexNext(s, e, id, Step(s, e))
  {
  }

  /** One step takes a session out of the map exactly by `Remove` or by winning its close. */
  lemma IndexStep(s: State, e: Event, id: Id)
    requires Inv(s)
    ensures IndexNext(s, e, id, Step(s, e))
  {
    assert ClosingOk(s, id) && SessionOk(s, id);
    hide Inv, IndexNext, SweepStep, ClosingOk, SessionOk;
    if e.OfTransport() {
      TransportIndex(s, e, id);
    } else if e.OfSweep() {
      SweepIndex(s, e, id);
    } else {
      StoreIndex(s, e, id);
    }
  }

  lemma {:induction false} IndexRun(s: State, events: seq<Event>, id: Id)
    requires Inv(s) && id !in s.sessions
    ensures var s' := Run(s, events);
            && (id in s'.sessions ==>
                  (id in s'.index && NotTaken(s', id) <==> NotTaken(s', id) && !EverRemoved(s, events, id)))
            && (EverRemoved(s, events, id) ==> id in s'.sessions)
  {
    if events != [] {
      var shorter := events[..|events| - 1];
      IndexRun(s, shorter, id);
      RunInv(s, shorter);
      RemovedSplits(s, events, id);
      IndexStep(Run(s, shorter), events[|events| - 1], id);
      assert SessionOk(Run(s, shorter), id);
      hide Step, Inv, EverRemoved;
    }
  }

  /**
  What the store holds. In every reachable state a session ever published is in the map exactly
  when `Remove` never took it and it is open or was closed directly; so a closed one is still there
  exactly when its owner closed it directly and never removed it, with no callback run or owed: over
  no run does a delete, a conditional close or a sweep collect it.
  */
  lemma {:induction false} InStoreExactly(now: int, timeout: nat, cap: nat, events: seq<Event>, id: Id)
    requires id in Run(Init(now, timeout, cap), events).sessions
    ensures var s := Run(Init(now, timeout, cap), events);
            && (id in s.index <==> NotTaken(s, id) && !EverRemoved(Init(now, timeout, cap), events, id))
            && (s.sessions[id].closed && id in s.index
                <==> id in s.closings && s.closings[id].how.Direct?
                     && !EverRemoved(Init(now, timeout, cap), events, id))
            && (s.sessions[id].closed && id in s.index ==> Callbacks(s, id) == 0)
  {
    hide Run, Step, EverRemoved;
    var s0 := Init(now, timeout, cap);
    InitInv(now, timeout, cap);
    IndexRun(s0, events, id);
    RunInv(s0, events);
    assert ClosingOk(Run(s0, events), id);
  }

  /** Such a session needs two events: published, and closed by its owner. */
  lemma DirectCloseLingers(now: int, timeout: nat, cap: nat, id: Id, resumable: bool, grace: nat, pollGap: nat)
    ensures var s := Run(Init(now, timeout, cap), [Connect(id, resumable, grace, pollGap), CloseDirect(id)]);
            id in s.sessions && s.sessions[id].closed && id in s.index && Callbacks(s, id) == 0
  {
    var events := [Connect(id, resumable, grace, pollGap), CloseDirect(id)];
    assert events[..1] == [events[0]] && events[..1][..0] == [];
    assert Run(Init(now, timeout, cap), events[..1]) == Step(Init(now, timeout, cap), events[0]);
  }

  // ---- what can always be done ----

  /** A delete of an open session the store holds closes it and tells its owner, once. */
  lemma DeleteNotifies(s: State, id: Id)
    requires Inv(s) && !s.StoreLocked() && id in s.index && id in s.sessions && !s.sessions[id].closed
    ensures var s' := Step(Step(s, RemoveAndMarkClosed(id, false)), Notify(id));
            && s'.sessions[id].closed && id !in s'.index
            && s'.fired == s.fired + [id] && s'.pending == s.pending && Callbacks(s', id) == 1
  {
    assert ClosingOk(s, id);
    hide Inv;
    var s1 := Step(s, RemoveAndMarkClosed(id, false));
    assert s1 == s.Close(id, Deleted, s.now);
    assert multiset(s.fired + [id]) == multiset(s.fired) + multiset{id};
    assert s1.pending - multiset{id} == s.pending;
  }

  /** A conditional close of a session the store holds succeeds exactly when it is idle and out of grace. */
  lemma ConditionalExactly(s: State, id: Id)
    requires Inv(s) && !s.StoreLocked() && id in s.index && id in s.sessions && !s.sessions[id].closed
    ensures var x := s.sessions[id];
            Step(s, RemoveAndMarkClosed(id, true)).sessions[id].closed
            <==> x.inFlight == 0 && !(x.resumable && !x.broken && s.now - x.detachedAt <= x.grace)
  {
  }

  /** Left alone long enough, a detached resumable session is past its grace, and attaching is refused. */
  lemma LeftAloneExpires(s: State, id: Id, d: nat)
    requires Inv(s) && id in s.sessions
    requires var x := s.sessions[id];
             x.resumable && !x.broken && !x.closed && x.inFlight == 0 && s.now + d - x.detachedAt > x.grace
    ensures var s' := Step(s, Tick(d));
            && id in s'.sessions && s'.sessions[id].ResumeExpired(s'.now)
            && Step(s', BeginPoll(id)) == s' && Step(s', BeginWebSocket(id)) == s'
  {
    hide Inv;
  }

  lemma {:induction false} RunAppend(s: State, a: seq<Event>, b: seq<Event>)
    ensures Run(s, a + b) == Run(Run(s, a), b)
  {
    if b == [] {
      assert a + b == a;
    } else {
      hide Step;
      assert (a + b)[..|a + b| - 1] == a + b[..|b| - 1];
      RunAppend(s, a, b[..|b| - 1]);
    }
  }

  lemma RunOne(s: State, e: Event)
    ensures Run(s, [e]) == Step(s, e)
  {
    assert [e][..0] == [];
  }

  lemma RunHead(s: State, e: Event, more: seq<Event>)
    ensures Run(s, [e] + more) == Run(Step(s, e), more)
  {
    hide Step;
    RunAppend(s, [e], more);
    RunOne(s, e);
  }

  ghost predicate OnlySweeps(events: seq<Event>) {
    forall e <- events :: e.OfSweep()
  }

  lemma VisitStep(s: State, id: Id)
    requires Inv(s) && s.sweep.Scanning? && id in s.sweep.todo
    ensures id in s.sessions
    ensures var s' := Step(s, SweepVisit(id));
            && s'.sweep.Scanning? && s'.sweep.at == s.sweep.at && s'.sweep.todo == s.sweep.todo - {id}
            && s'.index <= s.index && s'.timeout == s.timeout
            && (forall k :: k in s.sweep.todo && k != id ==>
                  k in s.sessions && k in s'.sessions && s'.sessions[k] == s.sessions[k])
            && (s.sessions[id].Due(s.sweep.at, s.timeout) ==> id !in s'.index)
  {
    assert SessionOk(s, id);
    forall k | k in s.sweep.todo ensures k in s.sessions {
      assert SessionOk(s, k);
    }
  }

  /** The scan can always be finished, and nothing due when it is looked at stays in the map. */
  lemma {:induction false} ScanCompletes(s: State) returns (events: seq<Event>)
    requires Inv(s) && s.sweep.Scanning?
    ensures OnlySweeps(events) && Inv(Run(s, events))
    ensures var s' := Run(s, events);
            && s'.sweep.Scanning? && s'.sweep.at == s.sweep.at && s'.sweep.todo == {} && s'.index <= s.index
            && forall id :: id in s.sweep.todo && id in s.sessions && s.sessions[id].Due(s.sweep.at, s.timeout)
                            ==> id !in s'.index
    decreases |s.sweep.todo|
  {
    if s.sweep.todo == {} {
      events := [];
    } else {
      var id :| id in s.sweep.todo;
      VisitStep(s, id);
      StepInv(s, SweepVisit(id));
      hide Step, Inv;
      var more := ScanCompletes(Step(s, SweepVisit(id)));
      events := [SweepVisit(id)] + more;
      RunHead(s, SweepVisit(id), more);
    }
  }

  lemma EvictStep(s: State)
    requires s.sweep.Evicting?
    ensures var s' := Step(s, SweepEvict);
            && s'.index <= s.index
            && if s.sweep.excess == [] then s'.sweep == Swept(s.sweep.at)
               else s'.sweep.Evicting? && s'.sweep.at == s.sweep.at && s'.sweep.excess == s.sweep.excess[1..]
  {
  }

  lemma {:induction false} EvictionCompletes(s: State) returns (events: seq<Event>)
    requires Inv(s) && s.sweep.Evicting?
    ensures OnlySweeps(events)
    ensures Run(s, events).sweep == Swept(s.sweep.at) && Run(s, events).index <= s.index
    decreases |s.sweep.excess|
  {
    EvictStep(s);
    StepInv(s, SweepEvict);
    hide Step, Inv;
    if s.sweep.excess == [] {
      events := [SweepEvict];
      RunOne(s, SweepEvict);
    } else {
      var more := EvictionCompletes(Step(s, SweepEvict));
      events := [SweepEvict] + more;
      RunHead(s, SweepEvict, more);
    }
  }

  lemma SortStep(s: State)
    requires s.sweep.Scanning? && s.sweep.todo == {}
    ensures var s' := Step(s, SweepSort(s.sweep.detached));
            s'.index == s.index && s'.sweep.at == s.sweep.at && (s'.sweep.Swept? || s'.sweep.Evicting?)
  {
  }

  lemma BeginSteps(s: State)
    requires s.sweep.NoSweep?
    ensures Step(Step(s, SweepSample), SweepLock) == s.(sweep := Scanning(s.now, s.index, []))
  {
  }

  /**
  A sweep can always be run to its end from any reachable state, and when nothing interleaves it
  leaves no session in the map that was detached past its grace or idle past the timeout.
  */
  lemma {:induction false} SweepCompletes(s: State) returns (events: seq<Event>)
    requires Inv(s) && s.sweep.NoSweep?
    ensures OnlySweeps(events) && Run(s, events).sweep == Swept(s.now)
    ensures forall id :: id in s.index && id in s.sessions && !s.sessions[id].closed && s.sessions[id].inFlight == 0
                         && (if s.sessions[id].resumable && !s.sessions[id].broken
                             then s.now - s.sessions[id].detachedAt > s.sessions[id].grace
                             else s.now - s.sessions[id].lastActive > s.timeout)
                         ==> id !in Run(s, events).index
  {
    var s2 := Step(Step(s, SweepSample), SweepLock);
    BeginSteps(s);
    StepInv(s, SweepSample);
    StepInv(Step(s, SweepSample), SweepLock);
    var scan := ScanCompletes(s2);
    var tail := AfterScan(Run(s2, scan));
    events := [SweepSample] + ([SweepLock] + (scan + tail));
    hide Step, Run, Inv;
    RunHead(s, SweepSample, [SweepLock] + (scan + tail));
    RunHead(Step(s, SweepSample), SweepLock, scan + tail);
    RunAppend(s2, scan, tail);
  }

  lemma {:induction false} AfterScan(s: State) returns (tail: seq<Event>)
    requires Inv(s) && s.sweep.Scanning? && s.sweep.todo == {}
    ensures OnlySweeps(tail) && Run(s, tail).sweep == Swept(s.sweep.at) && Run(s, tail).index <= s.index
  {
    var sort := SweepSort(s.sweep.detached);
    SortStep(s);
    StepInv(s, sort);
    hide Step, Run, Inv;
    if Step(s, sort).sweep.Evicting? {
      var evict := EvictionCompletes(Step(s, sort));
      tail := [sort] + evict;
      RunHead(s, sort, evict);
    } else {
      tail := [sort];
      RunOne(s, sort);
    }
  }
}
