/**
The server's handlers, resume requests and byte layer of one session, interleaved at lock
granularity. Every event is one critical section (or one channel close) of one goroutine. A kick
clears nothing: a handler leaves in its own time, even after taking more bytes, and nothing here
lets it check who owns its direction before it does.
*/
module Handlers {
  import opened Bytes
  import opened Layers
  import opened Attachments

  datatype Phase =
    | Claiming(dir: Dir)                    // in attach, about to lock for this direction
    | Waiting(dir: Dir, owner: Id)          // in attach, waiting for owner's done
    | Entered                               // attach returned; a WebSocket has yet to begin
    | Working
    | Reading                               // inside nextOut, nothing was pending, waiting on the pipe
    | Holding(bytes: seq<Byte>)             // inside nextOut, bytes taken and not numbered
    | Detaching(claimed: set<Dir>)          // about to run detach, having claimed these
    | Closing                               // slots cleared, done about to be closed
    | Gone

  datatype Handler = Handler(kind: Kind, phase: Phase) {
    predicate Inside() {
      phase.Entered? || Serving()
    }

    predicate Serving() {
      phase.Working? || InNextOut()
    }

    /** Past the check for pending replay and not back yet. */
    predicate InNextOut() {
      phase.Reading? || phase.Holding?
    }

    predicate Left() {
      phase.Closing? || phase.Gone?
    }

    /** Directions claimed so far. */
    function Claimed(): set<Dir> {
      match phase
      case Closing => {}
      case Gone => {}
      case Detaching(claimed) => claimed
      case Claiming(d) => Before(d)
      case Waiting(d, _) => Before(d)
      case _ => All()
    }

    function All(): set<Dir> {
      match kind
      case OnlyDown => {Down}
      case OnlyUp => {Up}
      case Both => {Down, Up}
    }

    /** `attach` claims down before up. */
    function Before(d: Dir): set<Dir> {
      if kind.Both? && d.Up? then {Down} else {}
    }
  }

  datatype Resume = Idle | Began | Kicking(olds: seq<Id>) | Quiet

  datatype State = State(
    slots: Slots,
    done: set<Id>,
    handlers: map<Id, Handler>,
    resume: Resume,
    wsAttached: bool,
    wsConflict: bool,            // some WebSocket was answered 409
    layer: Layer,
    written: seq<Byte>,
    pipe: seq<Byte>,
    numbered: seq<Byte>)
  {
    predicate Is(id: Id) {
      id in handlers
    }

    function To(id: Id, phase: Phase): State
      requires Is(id)
    {
      this.(handlers := handlers[id := handlers[id].(phase := phase)])
    }
  }

  datatype Event =
    | Arrive(id: Id, kind: Kind)
    | TryClaim(id: Id)
    | SeeDone(id: Id)
    | WaitTimeout(id: Id)
    | BeginTransport(id: Id)     // beginWebSocket, or nothing for a poll
    | RefuseTransport(id: Id)    // the session is closed or expired
    | Resend(id: Id, room: nat)  // nextOut finds replay pending and sends some of it
    | Check(id: Id)              // nextOut finds none and goes on to the pipe
    | Take(id: Id, n: nat)
    | TakeNothing(id: Id)        // a timeout, an interrupt or the end of the pipe
    | Number(id: Id)
    | Rewind(id: Id)             // a batch poll, before its nextOut
    | Leave(id: Id)              // the body returned; endWebSocket runs before detach
    | ClearSlots(id: Id)
    | CloseDone(id: Id)
    | BeginResume
    | Snapshot
    | SeeOld
    | ResumeOut(r: nat)
    | EndResume                  // by success, refusal or the detach deadline
    | AppWrite(p: seq<Byte>)
    | Ack(n: nat)                // from any request, attached or not
    | Break                      // markBroken: recvIn met a gap, on any request
  {
    predicate InAttach() {
      TryClaim? || SeeDone? || WaitTimeout?
    }

    predicate InBody() {
      BeginTransport? || RefuseTransport? || Leave? || ClearSlots? || CloseDone?
    }

    predicate InSending() {
      Resend? || Check? || Take? || TakeNothing? || Number? || Rewind?
    }

    predicate InResume() {
      BeginResume? || Snapshot? || SeeOld? || ResumeOut? || EndResume?
    }
  }

  function Init(maxReplay: int): State {
    State(Slots(None, None, false), {}, map[], Idle, false, false, NewLayer(maxReplay), [], [], [])
  }

  function Owners(s: Slots): seq<Id> {
    (if s.down.Some? then [s.down.value] else []) + (if s.up.Some? then [s.up.value] else [])
  }

  function AfterClaim(h: Handler): Phase
    requires h.phase.Claiming?
  {
    if h.kind.Both? && h.phase.dir.Down? then Claiming(Up) else Entered
  }

  function AttachStep(s: State, e: Event): (r: State)
    requires e.InAttach()
  {
    if !s.Is(e.id) then s else
    var ph := s.handlers[e.id].phase;
    match e
    case TryClaim(id) =>
      if !ph.Claiming? then s else
      var (slots, res) := s.slots.Claim(id, ph.dir);
      (match res
       case ResumeInProgress => s.To(id, Detaching(s.handlers[id].Claimed()))
       case Busy(owner) => s.To(id, Waiting(ph.dir, owner))
       case Claimed =>
         s.(slots := slots).To(id, AfterClaim(s.handlers[id])))
    case SeeDone(id) => if ph.Waiting? && ph.owner in s.done then s.To(id, Claiming(ph.dir)) else s
    case WaitTimeout(id) => if ph.Waiting? then s.To(id, Detaching(s.handlers[id].Claimed())) else s
  }

  function BodyStep(s: State, e: Event): (r: State)
    requires e.InBody()
    requires s.layer.Valid()
    ensures r.layer.Valid()
  {
    if !s.Is(e.id) then s else
    var h := s.handlers[e.id];
    match e
    case BeginTransport(id) =>
      if !h.phase.Entered? then s
      else if !h.kind.Both? then s.To(id, Working)
      else if s.wsAttached then s.To(id, Detaching(h.Claimed())).(wsConflict := true)
      else s.To(id, Working).(wsAttached := true)
    case RefuseTransport(id) => if h.phase.Entered? then s.To(id, Detaching(h.Claimed())) else s
    case Leave(id) =>
      if h.phase.Working?
      then s.To(id, Detaching(h.Claimed())).(wsAttached := if h.kind.Both? then false else s.wsAttached) else s
    case ClearSlots(id) =>
      if h.phase.Detaching? then s.To(id, Closing).(slots := s.slots.Clear(id)) else s
    case CloseDone(id) =>
      if h.phase.Closing? then s.To(id, Gone).(done := s.done + {id}) else s
  }

  function SendStep(s: State, e: Event): (r: State)
    requires e.InSending()
    requires s.layer.Valid()
    ensures r.layer.Valid()
  {
    if !s.Is(e.id) || s.handlers[e.id].kind.OnlyUp? then s else
    var h := s.handlers[e.id];
    match e
    case Resend(_, room) =>
      if h.phase.Working? && s.layer.HasPending() then s.(layer := s.layer.SendReplay(room).0) else s
    case Check(id) => if h.phase.Working? && !s.layer.HasPending() then s.To(id, Reading) else s
    case Take(id, n) =>
      if h.phase.Reading? && 0 < n <= |s.pipe| then s.To(id, Holding(s.pipe[..n])).(pipe := s.pipe[n..]) else s
    case TakeNothing(id) => if h.phase.Reading? then s.To(id, Working) else s
    case Number(id) =>
      if !h.phase.Holding? then s
      else s.To(id, Working).(layer := s.layer.Number(h.phase.bytes).0,
                              numbered := s.numbered + h.phase.bytes)
    case Rewind(_) =>
      if h.kind.OnlyDown? && h.phase.Working? then s.(layer := s.layer.RewindToAcked()) else s
  }

  function ResumeStep(s: State, e: Event): (r: State)
    requires e.InResume() && s.layer.Valid()
    ensures r.layer.Valid()
  {
    match e
    case BeginResume =>
      if s.slots.resuming then s else s.(slots := s.slots.(resuming := true), resume := Began)
    case Snapshot =>
      if !s.resume.Began? then s
      else s.(resume := if Owners(s.slots) == [] then Quiet else Kicking(Owners(s.slots)))
    case SeeOld =>
      if s.resume.Kicking? && s.resume.olds != [] && s.resume.olds[0] in s.done
      then s.(resume := if |s.resume.olds| == 1 then Quiet else Kicking(s.resume.olds[1..])) else s
    case ResumeOut(r) =>
      if !s.resume.Quiet? then s else
      var (l, ok) := s.layer.ResumeOut(r);
      s.(layer := if ok then l else l.MarkBroken())
    case EndResume =>
      if s.resume.Idle? then s else s.(slots := s.slots.(resuming := false), resume := Idle)
  }

  function Step(s: State, e: Event): (r: State)
    requires s.layer.Valid()
    ensures r.layer.Valid()
  {
    if e.InAttach() then AttachStep(s, e)
    else if e.InBody() then BodyStep(s, e)
    else if e.InSending() then SendStep(s, e)
    else if e.InResume() then ResumeStep(s, e)
    else
      match e
      case Arrive(id, kind) =>
        if s.Is(id) then s
        else s.(handlers := s.handlers[id := Handler(kind, Claiming(kind.Dirs()[0]))])
      case AppWrite(p) => s.(written := s.written + p, pipe := s.pipe + p)
      case Ack(n) => s.(layer := s.layer.Ack(n).0)
      case Break => s.(layer := s.layer.MarkBroken())
  }

  function Run(s: State, events: seq<Event>): (r: State)
    requires s.layer.Valid()
    ensures r.layer.Valid()
  {
    if events == [] then s else Step(Run(s, events[..|events| - 1]), events[|events| - 1])
  }

  // ---- the invariant ----

  /** A slot names exactly the handler that has claimed that direction and not yet cleared it. */
  ghost predicate SlotsExact(s: State) {
    forall d, id :: s.slots.At(d) == Some(id) <==> s.Is(id) && d in s.handlers[id].Claimed()
  }

  ghost predicate PhaseOk(h: Handler) {
    h.phase.Claiming? || h.phase.Waiting? ==> h.phase.dir in h.All()
  }

  ghost predicate PhasesOk(s: State) {
    && (forall id :: s.Is(id) ==> PhaseOk(s.handlers[id]))
    && (forall id :: s.Is(id) && s.handlers[id].InNextOut() ==> !s.handlers[id].kind.OnlyUp?)
    && (forall id :: s.Is(id) && s.handlers[id].phase.Holding? ==> s.handlers[id].phase.bytes != [])
    && (forall id :: id in s.done ==> s.Is(id) && s.handlers[id].phase.Gone?)
  }

  /** Once a resume has looked at the slots, whoever is still in one is someone it waits for. */
  ghost predicate ResumeOk(s: State) {
    && (s.slots.resuming <==> !s.resume.Idle?)
    && (s.resume.Kicking? ==> s.resume.olds != []
                              && forall d :: s.slots.At(d).Some? ==> s.slots.At(d).value in s.resume.olds)
    && (s.resume.Quiet? ==> s.slots.down == None && s.slots.up == None)
  }

  ghost predicate WsOk(s: State) {
    && !s.wsConflict
    && (s.wsAttached ==>
          && s.slots.down.Some? && s.Is(s.slots.down.value)
          && var h := s.handlers[s.slots.down.value];
          h.kind.Both? && h.Serving())
    && (forall id :: s.Is(id) && s.handlers[id].kind.Both? && s.handlers[id].Serving() ==> s.wsAttached)
  }

  /** The bytes some handler has taken and not numbered. */
  function Held(s: State): seq<Byte> {
    if s.slots.down.Some? && s.Is(s.slots.down.value) && s.handlers[s.slots.down.value].phase.Holding?
    then s.handlers[s.slots.down.value].phase.bytes
    else []
  }

  ghost predicate BytesOk(s: State) {
    && s.numbered + Held(s) + s.pipe == s.written
    && s.layer.Represents(s.numbered)
  }

  /** Whoever is past the check still has nothing to replay. */
  ghost predicate NothingPending(s: State) {
    forall id :: s.Is(id) && s.handlers[id].InNextOut() ==> s.layer.cursor == s.layer.send
  }

  ghost predicate Inv(s: State) {
    SlotsExact(s) && PhasesOk(s) && ResumeOk(s) && WsOk(s) && BytesOk(s) && NothingPending(s)
  }

  // ---- every event keeps it ----

  /** A handler that holds bytes owns the down slot, so at most one does. */
  lemma HolderOwnsDown(s: State, id: Id)
    requires SlotsExact(s) && PhasesOk(s) && s.Is(id)
    requires s.handlers[id].InNextOut() || (s.handlers[id].Inside() && !s.handlers[id].kind.OnlyUp?)
    ensures s.slots.down == Some(id)
  {
    assert Down in s.handlers[id].Claimed();
    assert s.slots.At(Down) == Some(id);
  }

  /** Moving one handler between phases with the same claims, with no bytes in hand. */
  lemma MoveInv(s: State, id: Id, phase: Phase)
    requires Inv(s) && s.Is(id)
    requires s.handlers[id].(phase := phase).Claimed() == s.handlers[id].Claimed()
    requires PhaseOk(s.handlers[id].(phase := phase))
    requires !s.handlers[id].phase.Gone? && !s.handlers[id].phase.Holding? && !phase.Holding?
    requires s.wsAttached && s.slots.down == Some(id) ==> phase.Working? || phase.Reading?
    requires phase.Reading? ==> !s.handlers[id].kind.OnlyUp? && s.layer.cursor == s.layer.send
    requires phase.Working? || phase.Reading? ==> s.handlers[id].kind.Both? ==> s.handlers[id].Serving()
    ensures Inv(s.To(id, phase))
  {
    var s' := s.To(id, phase);
    forall d, x ensures s'.slots.At(d) == Some(x) <==> s'.Is(x) && d in s'.handlers[x].Claimed() {
      assert s.slots.At(d) == Some(x) <==> s.Is(x) && d in s.handlers[x].Claimed();
    }
    assert Held(s') == Held(s);
  }

  /** A successful claim adds exactly the direction claimed. */
  lemma ClaimInv(s: State, id: Id)
    requires Inv(s) && s.Is(id) && s.handlers[id].phase.Claiming?
    requires s.slots.Claim(id, s.handlers[id].phase.dir).1.Claimed?
    ensures Inv(Step(s, TryClaim(id)))
  {
    var h, s' := s.handlers[id], Step(s, TryClaim(id));
    assert PhaseOk(h);
    assert s'.handlers[id].Claimed() == h.Claimed() + {h.phase.dir};
    forall d, x ensures s'.slots.At(d) == Some(x) <==> s'.Is(x) && d in s'.handlers[x].Claimed() {
      assert s.slots.At(d) == Some(x) <==> s.Is(x) && d in s.handlers[x].Claimed();
    }
    assert Held(s') == Held(s);
  }

  lemma {:induction false} AttachInv(s: State, e: Event)
    requires Inv(s) && e.InAttach()
    ensures Inv(Step(s, e))
  {
    if s.Is(e.id) {
      var h := s.handlers[e.id];
      assert PhaseOk(h);
      match e
      case TryClaim(id) =>
        if h.phase.Claiming? {
          var res := s.slots.Claim(id, h.phase.dir).1;
          match res
          case Claimed => ClaimInv(s, id);
          case Busy(owner) => MoveInv(s, id, Waiting(h.phase.dir, owner));
          case ResumeInProgress => MoveInv(s, id, Detaching(h.Claimed()));
        }
      case SeeDone(id) => if h.phase.Waiting? { MoveInv(s, id, Claiming(h.phase.dir)); }
      case WaitTimeout(id) => if h.phase.Waiting? { MoveInv(s, id, Detaching(h.Claimed())); }
    }
  }

  /** A WebSocket that has claimed both directions always finds `wsAttached` clear. */
  lemma NoConflict(s: State, id: Id)
    requires Inv(s) && s.Is(id) && s.handlers[id].phase.Entered? && s.handlers[id].kind.Both?
    ensures !s.wsAttached
  {
    HolderOwnsDown(s, id);
  }

  lemma BeginInv(s: State, id: Id)
    requires Inv(s) && s.Is(id) && s.handlers[id].phase.Entered?
    ensures Inv(Step(s, BeginTransport(id))) && Inv(Step(s, RefuseTransport(id)))
  {
    MoveInv(s, id, Detaching(s.handlers[id].Claimed()));
    if s.handlers[id].kind.Both? {
      NoConflict(s, id);
      BeginWsInv(s, id);
    } else {
      MoveInv(s, id, Working);
    }
  }

  lemma BeginWsInv(s: State, id: Id)
    requires Inv(s) && s.Is(id) && s.handlers[id].phase.Entered? && s.handlers[id].kind.Both? && !s.wsAttached
    ensures Inv(s.To(id, Working).(wsAttached := true))
  {
    HolderOwnsDown(s, id);
    var s' := s.To(id, Working).(wsAttached := true);
    forall d, x ensures s'.slots.At(d) == Some(x) <==> s'.Is(x) && d in s'.handlers[x].Claimed() {
      assert s.slots.At(d) == Some(x) <==> s.Is(x) && d in s.handlers[x].Claimed();
    }
    assert Held(s') == Held(s);
  }

  lemma TakeInv(s: State, id: Id, n: nat)
    requires Inv(s) && s.Is(id) && s.handlers[id].phase.Reading?
    requires 0 < n <= |s.pipe|
    ensures Inv(s.To(id, Holding(s.pipe[..n])).(pipe := s.pipe[n..]))
  {
    HolderOwnsDown(s, id);
    var s' := s.To(id, Holding(s.pipe[..n])).(pipe := s.pipe[n..]);
    forall d, x ensures s'.slots.At(d) == Some(x) <==> s'.Is(x) && d in s'.handlers[x].Claimed() {
      assert s.slots.At(d) == Some(x) <==> s.Is(x) && d in s.handlers[x].Claimed();
    }
    assert Held(s) == [] && Held(s') == s.pipe[..n];
    assert s.numbered + [] + s.pipe == s.numbered + s.pipe[..n] + s.pipe[n..];
  }

  lemma NumberInv(s: State, id: Id)
    requires Inv(s) && s.Is(id) && s.handlers[id].phase.Holding?
    ensures Inv(Step(s, Number(id)))
  {
    HolderOwnsDown(s, id);
    var s' := Step(s, Number(id));
    forall d, x ensures s'.slots.At(d) == Some(x) <==> s'.Is(x) && d in s'.handlers[x].Claimed() {
      assert s.slots.At(d) == Some(x) <==> s.Is(x) && d in s.handlers[x].Claimed();
    }
    NumberRepresents(s.layer, s.numbered, Held(s));
    hide Layer.Number, Layer.Represents;
    assert s.numbered + Held(s) + [] + s.pipe == s.written;
  }

  lemma LeaveInv(s: State, id: Id)
    requires Inv(s) && s.Is(id) && s.handlers[id].phase.Working?
    ensures Inv(Step(s, Leave(id)))
  {
    var h := s.handlers[id];
    if h.kind.Both? {
      LeaveWsInv(s, id);
    } else {
      MoveInv(s, id, Detaching(h.Claimed()));
    }
  }

  /** The WebSocket that leaves was the only one, for it owned the down slot. */
  lemma LeaveWsInv(s: State, id: Id)
    requires Inv(s) && s.Is(id) && s.handlers[id].phase.Working? && s.handlers[id].kind.Both?
    ensures Inv(s.To(id, Detaching(s.handlers[id].Claimed())).(wsAttached := false))
  {
    HolderOwnsDown(s, id);
    var s' := s.To(id, Detaching(s.handlers[id].Claimed())).(wsAttached := false);
    forall d, x ensures s'.slots.At(d) == Some(x) <==> s'.Is(x) && d in s'.handlers[x].Claimed() {
      assert s.slots.At(d) == Some(x) <==> s.Is(x) && d in s.handlers[x].Claimed();
    }
    forall x | s'.Is(x) && s'.handlers[x].kind.Both? ensures !s'.handlers[x].Serving() {
      if x != id && s.handlers[x].Serving() {
        HolderOwnsDown(s, x);
      }
    }
    assert Held(s') == Held(s);
  }

  lemma ClearInv(s: State, id: Id)
    requires Inv(s) && s.Is(id) && s.handlers[id].phase.Detaching?
    ensures Inv(Step(s, ClearSlots(id)))
  {
    var s' := Step(s, ClearSlots(id));
    assert forall d :: s'.slots.At(d).Some? ==> s'.slots.At(d) == s.slots.At(d);
    forall d, x ensures s'.slots.At(d) == Some(x) <==> s'.Is(x) && d in s'.handlers[x].Claimed() {
      assert s.slots.At(d) == Some(x) <==> s.Is(x) && d in s.handlers[x].Claimed();
    }
    assert Held(s') == Held(s);
  }

  lemma CloseInv(s: State, id: Id)
    requires Inv(s) && s.Is(id) && s.handlers[id].phase.Closing?
    ensures Inv(Step(s, CloseDone(id)))
  {
    assert !(Down in s.handlers[id].Claimed());
    assert s.slots.At(Down) != Some(id);
    MoveInv(s, id, Gone);
  }

  lemma BodyInv(s: State, e: Event)
    requires Inv(s)
    requires e.InBody()
    ensures Inv(BodyStep(s, e))
  {
    assert s.layer.Valid();
    hide Inv;
    if s.Is(e.id) {
      var h := s.handlers[e.id];
      match e
      case BeginTransport(id) => if h.phase.Entered? { BeginInv(s, id); }
      case RefuseTransport(id) => if h.phase.Entered? { BeginInv(s, id); }
      case Leave(id) => if h.phase.Working? { LeaveInv(s, id); }
      case ClearSlots(id) => if h.phase.Detaching? { ClearInv(s, id); }
      case CloseDone(id) => if h.phase.Closing? { CloseInv(s, id); }
    }
  }

  /** A handler about to call `nextOut` is the only one that could be in it. */
  lemma RewindInv(s: State, id: Id, l: Layer)
    requires Inv(s) && s.Is(id) && s.handlers[id].phase.Working? && !s.handlers[id].kind.OnlyUp?
    requires l.Represents(s.numbered)
    ensures Inv(s.(layer := l))
  {
    HolderOwnsDown(s, id);
    forall x | s.Is(x) ensures !s.handlers[x].InNextOut() {
      if s.handlers[x].InNextOut() {
        HolderOwnsDown(s, x);
      }
    }
    LayerInv(s, l);
  }

  lemma SendInv(s: State, e: Event)
    requires Inv(s)
    requires e.InSending()
    ensures Inv(SendStep(s, e))
  {
    assert s.layer.Represents(s.numbered);
    if s.Is(e.id) && !s.handlers[e.id].kind.OnlyUp? {
      var h := s.handlers[e.id];
      if e.Resend? && h.phase.Working? && s.layer.HasPending() {
        RewindInv(s, e.id, s.layer.SendReplay(e.room).0);
      } else if e.Rewind? && h.phase.Working? {
        RewindInv(s, e.id, s.layer.RewindToAcked());
      } else if e.Check? && h.phase.Working? && !s.layer.HasPending() {
        MoveInv(s, e.id, Reading);
      } else if e.TakeNothing? && h.phase.Reading? {
        MoveInv(s, e.id, Working);
      } else if e.Take? && h.phase.Reading? && 0 < e.n <= |s.pipe| {
        TakeInv(s, e.id, e.n);
      } else if e.Number? && h.phase.Holding? {
        NumberInv(s, e.id);
      }
    }
  }

  /** Whoever's `done` a resume has seen is in no slot, so seeing them all empties both. */
  lemma SeeOldInv(s: State)
    requires Inv(s) && s.resume.Kicking? && s.resume.olds != [] && s.resume.olds[0] in s.done
    ensures Inv(Step(s, SeeOld))
  {
    var old0 := s.resume.olds[0];
    var s' := Step(s, SeeOld);
    assert SlotsExact(s') && PhasesOk(s') && WsOk(s') && Held(s') == Held(s);
    assert s.handlers[old0].Claimed() == {};
    forall d | s.slots.At(d).Some? ensures s.slots.At(d).value in s.resume.olds[1..] {
      assert s.slots.At(d) != Some(old0);
    }
    assert s.slots.At(Down).None? || s.slots.At(Down).value in s.resume.olds[1..];
    assert s.slots.At(Up).None? || s.slots.At(Up).value in s.resume.olds[1..];
  }

  lemma SnapshotInv(s: State)
    requires Inv(s) && s.resume.Began?
    ensures Inv(Step(s, Snapshot))
  {
    assert Held(Step(s, Snapshot)) == Held(s);
    assert s.slots.At(Down).Some? ==> s.slots.At(Down).value in Owners(s.slots);
    assert s.slots.At(Up).Some? ==> s.slots.At(Up).value in Owners(s.slots);
  }

  /** Once a resume has waited both owners out, nobody is inside `nextOut`. */
  lemma NobodyInNextOut(s: State)
    requires Inv(s) && s.resume.Quiet?
    ensures forall x :: s.Is(x) ==> !s.handlers[x].InNextOut()
  {
    forall x | s.Is(x) ensures !s.handlers[x].InNextOut() {
      if s.handlers[x].InNextOut() {
        HolderOwnsDown(s, x);
      }
    }
  }

  lemma RewoundInv(s: State, r: nat)
    requires Inv(s) && s.resume.Quiet?
    ensures Inv(ResumeStep(s, ResumeOut(r)))
  {
    NobodyInNextOut(s);
    ResumeOutRepresents(s.layer, s.numbered, r);
    var (l, ok) := s.layer.ResumeOut(r);
    LayerInv(s, if ok then l else l.MarkBroken());
  }

  lemma BeginEndInv(s: State)
    requires Inv(s)
    ensures Inv(ResumeStep(s, BeginResume)) && Inv(ResumeStep(s, EndResume))
  {
    FrameInv(s, ResumeStep(s, BeginResume));
    FrameInv(s, ResumeStep(s, EndResume));
  }

  lemma ResumeInv(s: State, e: Event)
    requires Inv(s)
    requires e.InResume()
    ensures Inv(ResumeStep(s, e))
  {
    assert s.layer.Valid();
    BeginEndInv(s);
    SnapshotStep(s);
    SeeOldStep(s);
    if e.ResumeOut? {
      RewoundStep(s, e.r);
    }
    hide Inv, ResumeStep;
  }

  lemma SnapshotStep(s: State)
    requires Inv(s)
    ensures Inv(ResumeStep(s, Snapshot))
  {
    if s.resume.Began? { SnapshotInv(s); }
  }

  lemma SeeOldStep(s: State)
    requires Inv(s)
    ensures Inv(ResumeStep(s, SeeOld))
  {
    if s.resume.Kicking? && s.resume.olds != [] && s.resume.olds[0] in s.done { SeeOldInv(s); }
  }

  lemma RewoundStep(s: State, r: nat)
    requires Inv(s)
    ensures Inv(ResumeStep(s, ResumeOut(r)))
  {
    if s.resume.Quiet? { RewoundInv(s, r); }
  }

  /** Steps that leave handlers, slot owners and the WebSocket flag alone. */
  lemma FrameInv(s: State, s': State)
    requires Inv(s)
    requires s'.handlers == s.handlers && s'.done == s.done
    requires s'.slots.down == s.slots.down && s'.slots.up == s.slots.up
    requires s'.wsAttached == s.wsAttached && s'.wsConflict == s.wsConflict
    requires s'.numbered + Held(s) + s'.pipe == s'.written && s'.layer.Represents(s'.numbered)
    requires (s.layer.cursor == s.layer.send ==> s'.layer.cursor == s'.layer.send)
             || forall x :: s.Is(x) ==> !s.handlers[x].InNextOut()
    requires ResumeOk(s')
    ensures Inv(s')
  {
    assert Held(s') == Held(s);
    forall d, x ensures s'.slots.At(d) == Some(x) <==> s'.Is(x) && d in s'.handlers[x].Claimed() {
      assert s.slots.At(d) == Some(x) <==> s.Is(x) && d in s.handlers[x].Claimed();
    }
  }

  lemma ArriveInv(s: State, id: Id, kind: Kind)
    requires Inv(s) && !s.Is(id)
    ensures Inv(Step(s, Arrive(id, kind)))
  {
    var s' := Step(s, Arrive(id, kind));
    forall d, x ensures s'.slots.At(d) == Some(x) <==> s'.Is(x) && d in s'.handlers[x].Claimed() {
      assert s.slots.At(d) == Some(x) <==> s.Is(x) && d in s.handlers[x].Claimed();
    }
    assert s.slots.At(Down) != Some(id);
    assert Held(s') == Held(s);
  }

  /** A step of the layer alone that leaves nothing pending if nothing was. */
  lemma LayerInv(s: State, l: Layer)
    requires Inv(s) && l.Represents(s.numbered)
    requires (s.layer.cursor == s.layer.send ==> l.cursor == l.send)
             || forall x :: s.Is(x) ==> !s.handlers[x].InNextOut()
    ensures Inv(s.(layer := l))
  {
    FrameInv(s, s.(layer := l));
  }

  lemma AckInv(s: State, n: nat)
    requires Inv(s)
    ensures Inv(s.(layer := s.layer.Ack(n).0)) && Inv(s.(layer := s.layer.MarkBroken()))
  {
    AckRepresents(s.layer, s.numbered, n);
    hide Inv, Held;
    LayerInv(s, s.layer.Ack(n).0);
    LayerInv(s, s.layer.MarkBroken());
  }

  lemma AppWriteInv(s: State, p: seq<Byte>)
    requires Inv(s)
    ensures Inv(s.(written := s.written + p, pipe := s.pipe + p))
  {
    assert s.numbered + Held(s) + (s.pipe + p) == s.numbered + Held(s) + s.pipe + p;
    FrameInv(s, s.(written := s.written + p, pipe := s.pipe + p));
  }

  lemma StepInv(s: State, e: Event)
    requires Inv(s)
    ensures Inv(Step(s, e))
  {
    assert s.layer.Valid();
    hide Inv, BodyStep, SendStep, ResumeStep, AttachStep;
    if e.InAttach() {
      AttachInv(s, e);
    } else if e.InBody() {
      BodyInv(s, e);
    } else if e.InSending() {
      SendInv(s, e);
    } else if e.InResume() {
      ResumeInv(s, e);
    } else if e.Arrive? {
      if !s.Is(e.id) { ArriveInv(s, e.id, e.kind); }
    } else if e.AppWrite? {
      AppWriteInv(s, e.p);
    } else {
      AckInv(s, if e.Ack? then e.n else 0);
    }
  }

  lemma {:induction false} RunInv(s: State, events: seq<Event>)
    requires Inv(s)
    ensures Inv(Run(s, events))
  {
    if events != [] {
      RunInv(s, events[..|events| - 1]);
      StepInv(Run(s, events[..|events| - 1]), events[|events| - 1]);
    }
  }

  // ---- the theorems ----

  /**
  Resume exclusivity. In every reachable state each direction has at most one handler that has
  claimed it, and that one is who the slot names; an attachment whose done channel is closed, or
  whose attach failed and cleaned up, holds no slot; and from the moment a resume has waited out
  both owners until it ends, both slots are empty.
  */
  lemma {:induction false} ResumeExclusivity(maxReplay: int, events: seq<Event>)
    ensures var s := Run(Init(maxReplay), events);
            && (forall x, y, d :: s.Is(x) && s.Is(y) && d in s.handlers[x].Claimed() && d in s.handlers[y].Claimed()
                                  ==> x == y)
            && (forall x :: s.Is(x) && (x in s.done || s.handlers[x].Left()) ==> !s.slots.Owns(x))
            && (forall x :: s.Is(x) && s.handlers[x].Inside()
                            ==> forall d :: d in s.handlers[x].All() ==> s.slots.At(d) == Some(x))
            && (s.resume.Quiet? ==> s.slots.down == None && s.slots.up == None)
  {
    RunInv(Init(maxReplay), events);
    var s := Run(Init(maxReplay), events);
    forall x, y, d | s.Is(x) && s.Is(y) && d in s.handlers[x].Claimed() && d in s.handlers[y].Claimed()
      ensures x == y
    {
      assert s.slots.At(d) == Some(x) && s.slots.At(d) == Some(y);
    }
    forall x | s.Is(x) && (x in s.done || s.handlers[x].Left()) ensures !s.slots.Owns(x) {
      assert s.slots.At(Down) != Some(x) && s.slots.At(Up) != Some(x);
    }
  }

  /**
  Two-phase numbering is safe. In every reachable state at most one handler holds bytes it has not
  numbered; numbered bytes, then those, then the pipe are everything written, in order; from its
  check for pending replay until it is back, whatever acks, breaks, rewinds and resumes come between,
  the cursor stands at the end of what is numbered, so the number it gives skips nothing; and while a
  resume may rewind the layer nobody is in between, so every byte ever taken has its number.
  */
  lemma {:induction false} TwoPhaseNumbering(maxReplay: int, events: seq<Event>)
    ensures var s := Run(Init(maxReplay), events);
            && (forall x, y :: s.Is(x) && s.Is(y) && s.handlers[x].phase.Holding? && s.handlers[y].phase.Holding?
                               ==> x == y)
            && (forall x :: s.Is(x) && s.handlers[x].phase.Holding?
                            ==> s.numbered + s.handlers[x].phase.bytes + s.pipe == s.written)
            && (forall x :: s.Is(x) && s.handlers[x].InNextOut()
                            ==> s.layer.cursor == s.layer.send == |s.numbered|)
            && (s.resume.Quiet? ==> (forall x :: s.Is(x) ==> !s.handlers[x].InNextOut())
                                    && s.numbered + s.pipe == s.written)
            && s.layer.Represents(s.numbered)
  {
    RunInv(Init(maxReplay), events);
    var s := Run(Init(maxReplay), events);
    forall x | s.Is(x) && s.handlers[x].phase.Holding? ensures s.slots.down == Some(x) {
      HolderOwnsDown(s, x);
    }
    if s.resume.Quiet? {
      NobodyInNextOut(s);
      assert s.numbered + [] + s.pipe == s.numbered + s.pipe;
    }
  }

  /**
  On a resumable session `wsAttached` is set exactly while some WebSocket is past `beginWebSocket` and
  has not ended, there is at most one, and one that gets through `attach` is never told another is
  attached.
  */
  lemma {:induction false} NeverAlreadyAttached(maxReplay: int, events: seq<Event>)
    ensures var s := Run(Init(maxReplay), events);
            && !s.wsConflict
            && (s.wsAttached <==> exists id :: s.Is(id) && s.handlers[id].kind.Both? && s.handlers[id].Serving())
            && (forall x, y :: s.Is(x) && s.Is(y) && s.handlers[x].kind.Both? && s.handlers[x].Serving()
                               && s.handlers[y].kind.Both? && s.handlers[y].Serving()
                               ==> x == y)
  {
    RunInv(Init(maxReplay), events);
    var s := Run(Init(maxReplay), events);
    forall x | s.Is(x) && s.handlers[x].kind.Both? && s.handlers[x].Serving() ensures s.slots.down == Some(x) {
      HolderOwnsDown(s, x);
    }
  }
}
