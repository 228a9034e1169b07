/**
What handlers and resumes can always do: a handler can leave from wherever it is by its own steps, a
newcomer finds a free direction, takes over one whose owner leaves, and a resume whose predecessors
leave rewinds the layer and ends.
*/
module HandlerProgress {
  import opened Bytes
  import opened Layers
  import opened Attachments
  import opened Handlers

  /** One more event of a run under construction. */
  lemma Grow(s0: State, events: seq<Event>, s: State, e: Event) returns (events': seq<Event>, s': State)
    requires s0.layer.Valid() && Run(s0, events) == s && Inv(s)
    ensures events' == events + [e] && s.layer.Valid() && s' == Step(s, e) == Run(s0, events') && Inv(s')
  {
    events', s' := events + [e], Step(s, e);
    assert events'[..|events|] == events;
    StepInv(s, e);
  }

  lemma Ranged(s: State)
    requires Inv(s)
    ensures s.layer.Valid() && Run(s, []) == s
  {
  }

  // ---- leaving ----

  /** Handler `id` is in this phase, its kind as it was. */
  ghost predicate In(s: State, id: Id, kind: Kind, phase: Phase) {
    Inv(s) && s.Is(id) && s.handlers[id] == Handler(kind, phase)
  }

  lemma LeaveSteps(s: State, id: Id, kind: Kind, claimed: set<Dir>)
    requires In(s, id, kind, Detaching(claimed))
    ensures s.layer.Valid()
    ensures var s' := Step(Step(s, ClearSlots(id)), CloseDone(id));
            && s'.slots == s.slots.Clear(id) && s'.done == s.done + {id} && In(s', id, kind, Gone)
            && s'.layer == s.layer && s'.resume == s.resume && s'.handlers == s.handlers[id := Handler(kind, Gone)]
  {
    StepInv(s, ClearSlots(id));
    StepInv(Step(s, ClearSlots(id)), CloseDone(id));
    assert s.layer.Valid();
    hide Inv;
  }

  lemma LeaveStep(s: State, id: Id, kind: Kind)
    requires In(s, id, kind, Working)
    ensures s.layer.Valid()
    ensures var s' := Step(s, Leave(id));
            && In(s', id, kind, Detaching(s.handlers[id].All())) && s'.slots == s.slots && s'.done == s.done
            && s'.layer == s.layer && s'.resume == s.resume
            && s'.handlers == s.handlers[id := Handler(kind, Detaching(s.handlers[id].All()))]
  {
    StepInv(s, Leave(id));
    assert s.layer.Valid();
    hide Inv;
  }

  /** A working handler leaves in three steps, taking nothing of anyone else's with it. */
  lemma {:induction false} WorkerLeaves(s: State, id: Id, kind: Kind)
    requires In(s, id, kind, Working)
    ensures s.layer.Valid()
    ensures var s' := Step(Step(Step(s, Leave(id)), ClearSlots(id)), CloseDone(id));
            && Inv(s') && s'.slots == s.slots.Clear(id) && s'.done == s.done + {id} && s'.layer == s.layer
            && s'.resume == s.resume && s'.handlers == s.handlers[id := Handler(kind, Gone)]
  {
    LeaveStep(s, id, kind);
    LeaveSteps(Step(s, Leave(id)), id, kind, s.handlers[id].All());
    assert s.handlers[id := Handler(kind, Detaching(s.handlers[id].All()))][id := Handler(kind, Gone)]
        == s.handlers[id := Handler(kind, Gone)];
    hide Step;
  }

  /** The next step of a handler that wants to leave. */
  function WayOut(phase: Phase, id: Id): Event
    requires !phase.Gone?
  {
    match phase
    case Claiming(_) => TryClaim(id)
    case Waiting(_, _) => WaitTimeout(id)
    case Entered => RefuseTransport(id)
    case Working => Leave(id)
    case Reading => TakeNothing(id)
    case Holding(_) => Number(id)
    case Detaching(_) => ClearSlots(id)
    case Closing => CloseDone(id)
  }

  /** How many steps a handler in a phase may still need. */
  function StepsOut(phase: Phase): nat {
    match phase
    case Claiming(d) => if d.Down? then 10 else 8
    case Waiting(_, _) => 3
    case Entered => 7
    case Working => 4
    case Reading => 5
    case Holding(_) => 5
    case Detaching(_) => 2
    case Closing => 1
    case Gone => 0
  }

  ghost predicate Nearer(s: State, s': State, id: Id)
    requires s.Is(id)
  {
    Inv(s') && s'.Is(id) && StepsOut(s'.handlers[id].phase) < StepsOut(s.handlers[id].phase)
  }

  lemma AttachNearer(s: State, id: Id)
    requires Inv(s) && s.Is(id) && (s.handlers[id].phase.Claiming? || s.handlers[id].phase.Waiting?)
    ensures s.layer.Valid() && Nearer(s, Step(s, WayOut(s.handlers[id].phase, id)), id)
  {
    StepInv(s, WayOut(s.handlers[id].phase, id));
    assert s.layer.Valid() && PhaseOk(s.handlers[id]);
    hide Inv, BodyStep, SendStep, ResumeStep;
  }

  lemma SendNearer(s: State, id: Id)
    requires Inv(s) && s.Is(id) && s.handlers[id].InNextOut()
    ensures s.layer.Valid() && Nearer(s, Step(s, WayOut(s.handlers[id].phase, id)), id)
  {
    StepInv(s, WayOut(s.handlers[id].phase, id));
    assert s.layer.Valid() && !s.handlers[id].kind.OnlyUp?;
    hide Inv, AttachStep, BodyStep, ResumeStep, Layer.Number;
  }

  lemma BodyNearer(s: State, id: Id)
    requires Inv(s) && s.Is(id) && !s.handlers[id].InNextOut() && !s.handlers[id].phase.Gone?
    requires !s.handlers[id].phase.Claiming? && !s.handlers[id].phase.Waiting?
    ensures s.layer.Valid() && Nearer(s, Step(s, WayOut(s.handlers[id].phase, id)), id)
  {
    StepInv(s, WayOut(s.handlers[id].phase, id));
    assert s.layer.Valid();
    hide Inv, AttachStep, SendStep, ResumeStep;
  }

  lemma WayOutStep(s: State, id: Id)
    requires Inv(s) && s.Is(id) && !s.handlers[id].phase.Gone?
    ensures s.layer.Valid() && Nearer(s, Step(s, WayOut(s.handlers[id].phase, id)), id)
  {
    hide Inv, Step, WayOut, Nearer;
    if s.handlers[id].phase.Claiming? || s.handlers[id].phase.Waiting? {
      AttachNearer(s, id);
    } else if s.handlers[id].InNextOut() {
      SendNearer(s, id);
    } else {
      BodyNearer(s, id);
    }
  }

  /** From any reachable state a handler can leave by its own steps alone, and then holds no slot. */
  lemma {:induction false} CanLeave(s: State, id: Id) returns (events: seq<Event>)
    requires Inv(s) && s.Is(id)
    ensures s.layer.Valid() && Inv(Run(s, events)) && Run(s, events).Is(id) && Run(s, events).handlers[id].phase.Gone?
    ensures |events| <= StepsOut(s.handlers[id].phase)
    ensures !Run(s, events).slots.Owns(id)
    decreases StepsOut(s.handlers[id].phase)
  {
    Ranged(s);
    if s.handlers[id].phase.Gone? {
      events := [];
      assert s.handlers[id].Claimed() == {};
      assert s.slots.At(Down) != Some(id) && s.slots.At(Up) != Some(id);
    } else {
      var e := WayOut(s.handlers[id].phase, id);
      WayOutStep(s, id);
      assert Nearer(s, Step(s, e), id);
      hide Run, Step, Inv, WayOut, StepsOut;
      var more := CanLeave(Step(s, e), id);
      events := [e] + more;
      RunHead(s, e, more);
    }
  }

  lemma {:induction false} RunHead(s: State, e: Event, more: seq<Event>)
    requires s.layer.Valid()
    ensures Run(s, [e] + more) == Run(Step(s, e), more)
    decreases |more|
  {
    if more == [] {
      assert [e] + more == [e] && [e][..0] == [];
    } else {
      hide Step;
      var last := |more| - 1;
      assert ([e] + more)[..last + 1] == [e] + more[..last];
      RunHead(s, e, more[..last]);
    }
  }

  // ---- attaching ----

  lemma ArriveStep(s: State, id: Id, kind: Kind)
    requires Inv(s) && !s.Is(id)
    ensures s.layer.Valid()
    ensures var s' := Step(s, Arrive(id, kind));
            && In(s', id, kind, Claiming(kind.Dirs()[0])) && s'.slots == s.slots && s'.done == s.done
            && s'.handlers == s.handlers[id := Handler(kind, Claiming(kind.Dirs()[0]))]
  {
    StepInv(s, Arrive(id, kind));
    assert s.layer.Valid();
    hide Inv;
  }

  lemma ClaimStep(s: State, id: Id, kind: Kind, d: Dir)
    requires In(s, id, kind, Claiming(d)) && !s.slots.resuming && s.slots.At(d) == None
    ensures s.layer.Valid()
    ensures var s' := Step(s, TryClaim(id));
            && In(s', id, kind, if kind.Both? && d.Down? then Claiming(Up) else Entered)
            && s'.slots.At(d) == Some(id) && !s'.slots.resuming
            && forall x :: x != d ==> s'.slots.At(x) == s.slots.At(x)
  {
    StepInv(s, TryClaim(id));
    assert s.layer.Valid();
    hide Inv;
  }

  lemma EnterStep(s: State, id: Id, kind: Kind)
    requires In(s, id, kind, Entered)
    ensures s.layer.Valid()
    ensures var s' := Step(s, BeginTransport(id)); In(s', id, kind, Working) && s'.slots == s.slots
  {
    StepInv(s, BeginTransport(id));
    if kind.Both? {
      NoConflict(s, id);
    }
    assert s.layer.Valid();
    hide Inv;
  }

  /** A newcomer that finds its directions free and no resume running is at work after claiming them. */
  lemma {:induction false} NewcomerAttaches(s: State, id: Id, kind: Kind) returns (events: seq<Event>)
    requires Inv(s) && !s.Is(id) && !s.slots.resuming && forall d <- kind.Dirs() :: s.slots.At(d) == None
    ensures s.layer.Valid() && In(Run(s, events), id, kind, Working)
    ensures forall d <- kind.Dirs() :: Run(s, events).slots.At(d) == Some(id)
  {
    var t;
    Ranged(s);
    ArriveStep(s, id, kind);
    events, t := Grow(s, [], s, Arrive(id, kind));
    hide Run, Step, Inv;
    ClaimStep(t, id, kind, kind.Dirs()[0]);
    events, t := Grow(s, events, t, TryClaim(id));
    if kind.Both? {
      ClaimStep(t, id, kind, Up);
      events, t := Grow(s, events, t, TryClaim(id));
    }
    EnterStep(t, id, kind);
    events, t := Grow(s, events, t, BeginTransport(id));
  }

  lemma BusyStep(s: State, id: Id, kind: Kind, d: Dir, owner: Id)
    requires In(s, id, kind, Claiming(d)) && !s.slots.resuming && s.slots.At(d) == Some(owner)
    ensures s.layer.Valid()
    ensures var s' := Step(s, TryClaim(id));
            && In(s', id, kind, Waiting(d, owner)) && s'.slots == s.slots && s'.done == s.done
            && s'.handlers == s.handlers[id := Handler(kind, Waiting(d, owner))]
  {
    StepInv(s, TryClaim(id));
    assert s.layer.Valid();
    hide Inv;
  }

  lemma SeeDoneStep(s: State, id: Id, kind: Kind, d: Dir, owner: Id)
    requires In(s, id, kind, Waiting(d, owner)) && owner in s.done
    ensures s.layer.Valid()
    ensures var s' := Step(s, SeeDone(id)); In(s', id, kind, Claiming(d)) && s'.slots == s.slots
  {
    StepInv(s, SeeDone(id));
    assert s.layer.Valid();
    hide Inv;
  }

  /** A waiting newcomer is at work once the owner it waits for has left. */
  lemma {:induction false} TakesOver(s: State, id: Id, kind: Kind, d: Dir, owner: Id, was: Kind)
    returns (events: seq<Event>)
    requires In(s, id, kind, Waiting(d, owner)) && !s.slots.resuming && !kind.Both?
    requires In(s, owner, was, Working) && s.slots.At(d) == Some(owner)
    ensures s.layer.Valid() && In(Run(s, events), id, kind, Working) && Run(s, events).slots.At(d) == Some(id)
  {
    var t := s;
    Ranged(s);
    hide Run, Step, Inv;
    WorkerLeaves(t, owner, was);
    events, t := Grow(s, [], t, Leave(owner));
    events, t := Grow(s, events, t, ClearSlots(owner));
    events, t := Grow(s, events, t, CloseDone(owner));
    SeeDoneStep(t, id, kind, d, owner);
    events, t := Grow(s, events, t, SeeDone(id));
    ClaimStep(t, id, kind, d);
    events, t := Grow(s, events, t, TryClaim(id));
    EnterStep(t, id, kind);
    events, t := Grow(s, events, t, BeginTransport(id));
  }

  /** A newcomer that finds its direction taken waits for the owner, and is at work in it once that has left. */
  lemma {:induction false} ReplacementAttaches(s: State, id: Id, kind: Kind, owner: Id, was: Kind)
    returns (events: seq<Event>)
    requires Inv(s) && !s.Is(id) && !s.slots.resuming && !kind.Both?
    requires In(s, owner, was, Working) && s.slots.At(kind.Dirs()[0]) == Some(owner)
    ensures s.layer.Valid() && In(Run(s, events), id, kind, Working)
    ensures Run(s, events).slots.At(kind.Dirs()[0]) == Some(id)
  {
    var t, d := s, kind.Dirs()[0];
    Ranged(s);
    ArriveStep(s, id, kind);
    events, t := Grow(s, [], s, Arrive(id, kind));
    hide Run, Step, Inv;
    BusyStep(t, id, kind, d, owner);
    events, t := Grow(s, events, t, TryClaim(id));
    var more := TakesOver(t, id, kind, d, owner, was);
    RunAppend(s, events, more);
    events := events + more;
  }

  // ---- sending ----

  lemma ResendStep(s: State, id: Id, kind: Kind, room: nat)
    requires In(s, id, kind, Working) && !kind.OnlyUp? && s.layer.HasPending() && room > 0
    ensures s.layer.Valid() && Step(s, Resend(id, room)).layer.cursor > s.layer.cursor
  {
    assert s.layer.Represents(s.numbered);
    SendReplayRepresents(s.layer, s.numbered, room);
    hide Inv;
  }

  lemma SendSteps(s: State, id: Id, kind: Kind, n: nat)
    requires In(s, id, kind, Working) && !kind.OnlyUp? && !s.layer.HasPending() && 0 < n <= |s.pipe|
    ensures s.layer.Valid()
    ensures var s' := Step(Step(Step(s, Check(id)), Take(id, n)), Number(id));
            && s'.numbered == s.numbered + s.pipe[..n] && s'.pipe == s.pipe[n..]
            && s'.layer == s.layer.Number(s.pipe[..n]).0 && s'.Is(id) && s'.handlers[id] == Handler(kind, Working)
  {
    assert s.layer.Valid();
    hide Inv, Layer.Number;
  }

  /** A handler at work on the way down sends what is to be sent: replay first, then what is in the pipe. */
  lemma {:induction false} WorkerSends(s: State, id: Id, kind: Kind, room: nat) returns (events: seq<Event>)
    requires In(s, id, kind, Working) && !kind.OnlyUp? && room > 0 && (s.layer.HasPending() || s.pipe != [])
    ensures s.layer.Valid()
    ensures var s' := Run(s, events);
            if s.layer.HasPending() then s'.layer.cursor > s.layer.cursor && s'.layer.send == s.layer.send
            else var n := Min(room, |s.pipe|);
              s'.numbered == s.numbered + s.pipe[..n] && s'.pipe == s.pipe[n..]
  {
    var t;
    Ranged(s);
    if s.layer.HasPending() {
      ResendStep(s, id, kind, room);
      events, t := Grow(s, [], s, Resend(id, room));
    } else {
      var n := Min(room, |s.pipe|);
      SendSteps(s, id, kind, n);
      events, t := Grow(s, [], s, Check(id));
      events, t := Grow(s, events, t, Take(id, n));
      events, t := Grow(s, events, t, Number(id));
    }
    hide Run, Inv;
  }

  // ---- resuming ----

  /** What `resumeOut` and, on a refusal, `markBroken` leave of a layer. */
  function Resumed(l: Layer, r: nat): Layer
    requires l.Valid()
  {
    var (l', ok) := l.ResumeOut(r);
    if ok then l' else l'.MarkBroken()
  }

  lemma BeginSteps(s: State)
    requires Inv(s) && !s.slots.resuming
    ensures s.layer.Valid()
    ensures var s' := Step(Step(s, BeginResume), Snapshot);
            && Inv(s') && s'.layer == s.layer && s'.handlers == s.handlers && s'.done == s.done
            && s'.slots == s.slots.(resuming := true)
            && s'.resume == if Owners(s.slots) == [] then Quiet else Kicking(Owners(s.slots))
  {
    StepInv(s, BeginResume);
    StepInv(Step(s, BeginResume), Snapshot);
    assert s.layer.Valid();
    hide Inv;
  }

  lemma EndSteps(s: State, r: nat)
    requires Inv(s) && s.resume.Quiet?
    ensures s.layer.Valid()
    ensures var s' := Step(Step(s, ResumeOut(r)), EndResume);
            s'.layer == Resumed(s.layer, r) && s'.resume == Idle && !s'.slots.resuming
  {
    assert s.layer.Valid();
    hide Inv;
  }

  /** With nobody attached a resume runs straight through. */
  lemma {:induction false} ResumeAlone(s: State, r: nat)
    requires Inv(s) && !s.slots.resuming && s.slots.down == None && s.slots.up == None
    ensures s.layer.Valid()
    ensures var s2 := Step(Step(s, BeginResume), Snapshot);
            var s4 := Step(Step(s2, ResumeOut(r)), EndResume);
            s4.layer == Resumed(s.layer, r) && s4.resume == Idle && !s4.slots.resuming
  {
    BeginSteps(s);
    EndSteps(Step(Step(s, BeginResume), Snapshot), r);
    hide Step;
  }

  lemma SeeStep(s: State)
    requires Inv(s) && s.resume.Kicking? && s.resume.olds != [] && s.resume.olds[0] in s.done
    ensures s.layer.Valid()
    ensures var s' := Step(s, SeeOld);
            && Inv(s') && s'.layer == s.layer && s'.handlers == s.handlers && s'.done == s.done && s'.slots == s.slots
            && s'.resume == if |s.resume.olds| == 1 then Quiet else Kicking(s.resume.olds[1..])
  {
    StepInv(s, SeeOld);
    assert s.layer.Valid();
    hide Inv;
  }

  /** Every old owner has left or is at work. */
  ghost predicate OldsAtWork(s: State) {
    && s.resume.Kicking? && s.resume.olds != []
    && forall x <- s.resume.olds :: s.Is(x) && (x in s.done || s.handlers[x].phase.Working?)
  }

  lemma StillAtWork(s: State, t: State, x: Id, kind: Kind)
    requires OldsAtWork(s) && x == s.resume.olds[0] && t.resume == s.resume && t.done == s.done + {x}
    requires t.handlers == s.handlers[x := Handler(kind, Gone)]
    ensures OldsAtWork(t) && t.resume.olds[0] in t.done
  {
  }

  /** The first of them leaves, if it has not. */
  lemma {:induction false} FirstGone(s: State) returns (events: seq<Event>, t: State)
    requires Inv(s) && OldsAtWork(s)
    ensures s.layer.Valid() && t == Run(s, events) && Inv(t) && t.layer == s.layer && t.resume == s.resume
    ensures OldsAtWork(t) && t.resume.olds[0] in t.done
  {
    Ranged(s);
    var x := s.resume.olds[0];
    events, t := [], s;
    assert x in s.resume.olds;
    var kind := s.handlers[x].kind;
    assert x !in s.done ==> In(s, x, kind, Working);
    hide Run, Step, Inv, In;
    if x !in s.done {
      WorkerLeaves(s, x, kind);
      events, t := Grow(s, events, t, Leave(x));
      events, t := Grow(s, events, t, ClearSlots(x));
      events, t := Grow(s, events, t, CloseDone(x));
      StillAtWork(s, t, x, kind);
    }
  }

  lemma SeeTail(s: State)
    requires Inv(s) && OldsAtWork(s) && s.resume.olds[0] in s.done
    ensures s.layer.Valid()
    ensures var t := Step(s, SeeOld);
            && Inv(t) && t.layer == s.layer
            && if |s.resume.olds| == 1 then t.resume == Quiet
               else OldsAtWork(t) && t.resume.olds == s.resume.olds[1..]
  {
    SeeStep(s);
    assert forall y <- s.resume.olds[1..] :: y in s.resume.olds;
    hide Step, Inv;
  }

  lemma {:induction false} FirstLeaves(s: State) returns (events: seq<Event>, t: State)
    requires Inv(s) && OldsAtWork(s)
    ensures s.layer.Valid() && t == Run(s, events) && Inv(t) && t.layer == s.layer
    ensures if |s.resume.olds| == 1 then t.resume == Quiet
            else OldsAtWork(t) && t.resume.olds == s.resume.olds[1..]
  {
    events, t := FirstGone(s);
    SeeTail(t);
    hide Run, Step, Inv, OldsAtWork;
    events, t := Grow(s, events, t, SeeOld);
  }

  /** A resume that waits for owners at work becomes quiet once each has left. */
  lemma {:induction false} KickedLeave(s: State) returns (events: seq<Event>)
    requires Inv(s) && OldsAtWork(s)
    ensures s.layer.Valid() && Inv(Run(s, events)) && Run(s, events).resume.Quiet? && Run(s, events).layer == s.layer
    decreases |s.resume.olds|
  {
    var t;
    events, t := FirstLeaves(s);
    assert s.resume.olds != [];
    hide Run, Inv, OldsAtWork;
    if |s.resume.olds| > 1 {
      var more := KickedLeave(t);
      RunAppend(s, events, more);
      events := events + more;
    }
  }

  lemma {:induction false} RunAppend(s: State, a: seq<Event>, b: seq<Event>)
    requires s.layer.Valid()
    ensures Run(s, a + b) == Run(Run(s, a), b)
  {
    if b == [] {
      assert a + b == a;
    } else {
      hide Step;
      assert (a + b)[..|a + b| - 1] == a + b[..|b| - 1];
      RunAppend(s, a, b[..|b| - 1]);
    }
  }

  /**
  A resume can always be seen through: from any reachable state with none running, whose attached
  handlers are at work, once they have left it rewinds the layer to what the client has, or breaks
  it, and lets others attach again.
  */
  lemma {:induction false} ResumeCompletes(s: State, r: nat) returns (events: seq<Event>)
    requires Inv(s) && !s.slots.resuming
    requires forall x <- Owners(s.slots) :: s.Is(x) && s.handlers[x].phase.Working?
    ensures s.layer.Valid() && Run(s, events).layer == Resumed(s.layer, r)
    ensures Run(s, events).resume == Idle && !Run(s, events).slots.resuming
  {
    var t := s;
    Ranged(s);
    BeginSteps(s);
    events, t := Grow(s, [], t, BeginResume);
    hide Run, Step, Inv, Resumed;
    events, t := Grow(s, events, t, Snapshot);
    if Owners(s.slots) != [] {
      assert OldsAtWork(t);
      var more := KickedLeave(t);
      RunAppend(s, events, more);
      events, t := events + more, Run(t, more);
    }
    EndSteps(t, r);
    events, t := Grow(s, events, t, ResumeOut(r));
    events, t := Grow(s, events, t, EndResume);
  }
}
