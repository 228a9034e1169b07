/**
A server session's lifecycle: how many transports are attached, when the last one left, and the
grace a resumable session has to come back. Times are integers of one clock.
*/
module Sessions {
  /** The fields of `Session` the lifecycle reads; `broken` is its byte layer's. */
  datatype SessionState = SessionState(
    resumable: bool,
    grace: nat,
    pollGap: nat,
    inFlight: nat,
    wsAttached: bool,
    broken: bool,
    detachedAt: int,
    lastActive: int,
    closed: bool)
  {
    predicate Resumable() {
      resumable && !broken
    }

    predicate InResumeGrace(now: int) {
      Resumable() && inFlight == 0 && now - detachedAt <= grace
    }

    predicate ResumeExpired(now: int) {
      Resumable() && inFlight == 0 && now - detachedAt > grace
    }

    predicate DetachedBeyondPollGap(now: int) {
      inFlight == 0 && now - detachedAt > pollGap
    }

    /** What the sweeper counts against its cap. */
    predicate Counted(now: int) {
      !closed && Resumable() && DetachedBeyondPollGap(now)
    }

    /** The sweeper's verdict on a session alone: past its grace, or idle if it has none. */
    predicate Due(now: int, timeout: nat) {
      !closed && inFlight == 0
      && (if Resumable() then now - detachedAt > grace else now - lastActive > timeout)
    }

    /** Waiting for a resume, inside its grace and past its transport's normal gap. */
    predicate Waits(now: int) {
      Counted(now) && now - detachedAt <= grace
    }

    /** The WebSocket is one of the transports attached. */
    predicate Sound() {
      wsAttached ==> inFlight > 0
    }

    /** Nothing but its owner may close it: no sweep, at any time, finds it due or counts it. */
    ghost predicate Held() {
      && (forall t, timeout: nat :: !Due(t, timeout))
      && (forall t :: !Counted(t))
    }

    predicate RefusesAttach(now: int) {
      closed || ResumeExpired(now)
    }

    function BeginPoll(now: int): (r: (SessionState, bool)) {
      if RefusesAttach(now) then (this, false) else (this.(inFlight := inFlight + 1), true)
    }

    function NoteDetached(now: int): SessionState {
      if resumable && inFlight == 0 then this.(detachedAt := now) else this
    }

    function EndPoll(now: int): SessionState
      requires inFlight > 0
    {
      this.(inFlight := inFlight - 1).NoteDetached(now)
    }

    function BeginWebSocket(now: int): (r: (SessionState, bool)) {
      if RefusesAttach(now) || wsAttached then (this, false)
      else (this.(wsAttached := true, inFlight := inFlight + 1), true)
    }

    function EndWebSocket(now: int): SessionState
      requires inFlight > 0
    {
      this.(wsAttached := false, inFlight := inFlight - 1).NoteDetached(now)
    }
  }

  function NewSession(resumable: bool, grace: nat, pollGap: nat, now: int): SessionState {
    SessionState(resumable, grace, pollGap, 0, false, false, now, now, false)
  }

  /** What the sweeper goes by, in the fields it reads. */
  lemma SweepCriteria(x: SessionState, now: int, timeout: nat)
    ensures x.Due(now, timeout)
            <==> !x.closed && x.inFlight == 0
                 && if x.resumable && !x.broken then now - x.detachedAt > x.grace else now - x.lastActive > timeout
    ensures x.Counted(now)
            <==> !x.closed && x.resumable && !x.broken && x.inFlight == 0 && now - x.detachedAt > x.pollGap
    ensures x.Waits(now) <==> x.Counted(now) && now - x.detachedAt <= x.grace
    ensures x.InResumeGrace(now) <==> x.resumable && !x.broken && x.inFlight == 0 && now - x.detachedAt <= x.grace
    ensures x.ResumeExpired(now) <==> x.resumable && !x.broken && x.inFlight == 0 && now - x.detachedAt > x.grace
  {
  }

  // ---- any sequence of critical sections ----

  datatype Op =
    | OpenPoll(now: int)
    | LeavePoll(now: int)
    | OpenSocket(now: int)
    | LeaveSocket(now: int)
    | Touch(now: int)
    | Break
    | Close
  {
    predicate Opens() {
      OpenPoll? || OpenSocket?
    }

    predicate Leaves() {
      LeavePoll? || LeaveSocket?
    }
  }

  /** One section and its answer; only what is attached leaves, touches or breaks a session. */
  function Apply(x: SessionState, op: Op): (r: (SessionState, bool)) {
    match op
    case OpenPoll(now) => x.BeginPoll(now)
    case LeavePoll(now) =>
      if x.inFlight > (if x.wsAttached then 1 else 0) then (x.EndPoll(now), true) else (x, false)
    case OpenSocket(now) => x.BeginWebSocket(now)
    case LeaveSocket(now) => if x.wsAttached && x.inFlight > 0 then (x.EndWebSocket(now), true) else (x, false)
    case Touch(now) => if x.inFlight > 0 then (x.(lastActive := now), true) else (x, false)
    case Break => if x.inFlight > 0 && x.resumable then (x.(broken := true), true) else (x, false)
    case Close => (x.(closed := true), !x.closed)
  }

  function After(x: SessionState, ops: seq<Op>): SessionState {
    if ops == [] then x else Apply(After(x, ops[..|ops| - 1]), ops[|ops| - 1]).0
  }

  /** What the `i`-th section answered. */
  function Answer(x: SessionState, ops: seq<Op>, i: nat): bool
    requires i < |ops|
  {
    Apply(After(x, ops[..i]), ops[i]).1
  }

  /** How many sections of a kind were granted. */
  function Granted(x: SessionState, ops: seq<Op>, opening: bool): nat {
    if ops == [] then 0
    else
      var op := ops[|ops| - 1];
      Granted(x, ops[..|ops| - 1], opening)
      + (if (if opening then op.Opens() else op.Leaves()) && Apply(After(x, ops[..|ops| - 1]), op).1 then 1 else 0)
  }

  lemma CloseStep(x: SessionState, op: Op)
    ensures Apply(x, op).0.closed <==> x.closed || op.Close?
    ensures op.Close? ==> (Apply(x, op).1 <==> !x.closed)
    ensures op.Opens() && x.closed ==> !Apply(x, op).1
  {
  }

  lemma CountStep(x: SessionState, op: Op)
    requires x.Sound()
    ensures var (x', ok) := Apply(x, op);
            && x'.Sound()
            && x'.inFlight + (if op.Leaves() && ok then 1 else 0) == x.inFlight + (if op.Opens() && ok then 1 else 0)
  {
  }

  lemma {:induction false} AfterClose(x: SessionState, ops: seq<Op>)
    ensures After(x, ops).closed <==> x.closed || Close in ops
  {
    if ops != [] {
      hide Apply;
      AfterClose(x, ops[..|ops| - 1]);
      CloseStep(After(x, ops[..|ops| - 1]), ops[|ops| - 1]);
      assert ops == ops[..|ops| - 1] + [ops[|ops| - 1]];
    }
  }

  /**
  Closing happens once. However attaches, leaves and closes interleave, a close answers true exactly
  if nothing closed the session before it; so at most one ever does, one does whenever the session
  was open and any close ran, and nothing is attached after it.
  */
  lemma {:induction false} OneCloseWins(x: SessionState, ops: seq<Op>, i: nat, j: nat)
    requires i < |ops| && j < |ops| && ops[i].Close?
    ensures Answer(x, ops, i) <==> !x.closed && Close !in ops[..i]
    ensures ops[j].Close? && Answer(x, ops, i) && Answer(x, ops, j) ==> i == j
    ensures !x.closed ==> exists k: nat :: k < |ops| && ops[k].Close? && Answer(x, ops, k)
    ensures i < j && ops[j].Opens() ==> !Answer(x, ops, j)
  {
    hide Apply, After;
    AfterClose(x, ops[..i]);
    AfterClose(x, ops[..j]);
    CloseStep(After(x, ops[..i]), ops[i]);
    CloseStep(After(x, ops[..j]), ops[j]);
    if i < j {
      assert ops[..j][i] == ops[i];
    } else if j < i {
      assert ops[..i][j] == ops[j];
    }
    if !x.closed {
      FirstClose(x, ops, i);
    }
  }

  lemma {:induction false} FirstClose(x: SessionState, ops: seq<Op>, i: nat)
    requires i < |ops| && ops[i].Close? && !x.closed
    ensures exists k: nat :: k < |ops| && ops[k].Close? && Answer(x, ops, k)
  {
    hide Apply, After;
    AfterClose(x, ops[..i]);
    CloseStep(After(x, ops[..i]), ops[i]);
    if Close in ops[..i] {
      var k :| 0 <= k < i && ops[..i][k] == Close;
      FirstClose(x, ops, k);
    } else {
      assert Answer(x, ops, i);
    }
  }

  /**
  The count is exact: transports attached are those attached before plus every attach granted minus
  every leave, and the WebSocket is always one of them.
  */
  lemma {:induction false} InFlightExact(x: SessionState, ops: seq<Op>)
    requires x.Sound()
    ensures After(x, ops).Sound()
    ensures After(x, ops).inFlight + Granted(x, ops, false) == x.inFlight + Granted(x, ops, true)
  {
    if ops != [] {
      hide Apply;
      InFlightExact(x, ops[..|ops| - 1]);
      CountStep(After(x, ops[..|ops| - 1]), ops[|ops| - 1]);
    }
  }

  lemma AfterTwo(x: SessionState, a: Op, b: Op)
    ensures After(x, [a, b]) == Apply(Apply(x, a).0, b).0
  {
    hide Apply;
    assert [a, b][..1] == [a] && [a][..0] == [];
    assert After(x, [a]) == Apply(After(x, []), a).0;
  }

  /** Activity on a session postpones its idle timeout to exactly that long after, once it is alone. */
  lemma TouchPostpones(x: SessionState, touched: int, left: int, t: int, timeout: nat)
    requires !x.resumable && !x.closed && x.inFlight == 1 && !x.wsAttached
    ensures After(x, [Touch(touched), LeavePoll(left)]).Due(t, timeout) <==> t - touched > timeout
  {
    AfterTwo(x, Touch(touched), LeavePoll(left));
  }

  /** A session whose layer breaks forfeits its grace: alone, it is judged by its last activity. */
  lemma BreakForfeitsGrace(x: SessionState, left: int, t: int, timeout: nat)
    requires x.resumable && !x.closed && x.inFlight == 1 && !x.wsAttached
    ensures var x' := After(x, [Break, LeavePoll(left)]);
            && !x'.InResumeGrace(t) && !x'.ResumeExpired(t) && !x'.Counted(t)
            && (x'.Due(t, timeout) <==> t - x.lastActive > timeout)
  {
    AfterTwo(x, Break, LeavePoll(left));
  }

  // ---- the class ----

  class Session {
    const resumable: bool
    const grace: nat
    const pollGap: nat
    var inFlight: nat
    var wsAttached: bool
    var broken: bool
    var detachedAt: int
    var lastActive: int
    var closed: bool

    ghost function View(): SessionState
      reads this
    {
      SessionState(resumable, grace, pollGap, inFlight, wsAttached, broken, detachedAt, lastActive, closed)
    }

    constructor (resumable: bool, grace: nat, pollGap: nat, now: int)
      ensures View() == NewSession(resumable, grace, pollGap, now) && View().Sound()
    {
      this.resumable, this.grace, this.pollGap := resumable, grace, pollGap;
      inFlight, wsAttached, broken, closed := 0, false, false, false;
      detachedAt, lastActive := now, now;
    }

    /**
    Refused exactly when the session is closed or past its grace, and then nothing changed. Granted,
    one more transport is attached and, while it is, no sweep can take the session.
    */
    method BeginPoll(now: int) returns (ok: bool)
      requires View().Sound()
      modifies this
      ensures View().Sound()
      ensures !ok <==> old(closed) || (resumable && !old(broken) && old(inFlight) == 0 && now - old(detachedAt) > grace)
      ensures !ok ==> View() == old(View())
      ensures ok ==> View() == old(View()).(inFlight := old(inFlight) + 1) && View().Held()
    {
      if closed || (resumable && inFlight == 0 && !broken && now - detachedAt > grace) {
        return false;
      }
      inFlight := inFlight + 1;
      return true;
    }

    /**
    One transport fewer. If others remain the session is held as before and its detach time stands;
    if it was the last, a resumable session that is not broken is in its grace from now until
    exactly `grace` later.
    */
    method EndPoll(now: int)
      requires View().Sound() && inFlight > (if wsAttached then 1 else 0)
      modifies this
      ensures View().Sound() && inFlight == old(inFlight) - 1
      ensures View() == old(View()).(inFlight := inFlight, detachedAt := detachedAt)
      ensures inFlight > 0 || !resumable ==> detachedAt == old(detachedAt)
      ensures inFlight > 0 ==> View().Held()
      ensures inFlight == 0 && resumable ==> detachedAt == now && GraceFrom(View(), now)
    {
      inFlight := inFlight - 1;
      NoteDetached(now);
    }

    method NoteDetached(now: int)
      modifies this
      ensures View() == old(View()).(detachedAt := if resumable && inFlight == 0 then now else old(detachedAt))
    {
      if resumable && inFlight == 0 {
        detachedAt := now;
      }
    }

    /** As `BeginPoll`, and refused too while a WebSocket is attached: there is never a second. */
    method BeginWebSocket(now: int) returns (ok: bool)
      requires View().Sound()
      modifies this
      ensures View().Sound()
      ensures !ok <==> || old(closed) || old(wsAttached)
                       || (resumable && !old(broken) && old(inFlight) == 0 && now - old(detachedAt) > grace)
      ensures !ok ==> View() == old(View())
      ensures ok ==> View() == old(View()).(wsAttached := true, inFlight := old(inFlight) + 1) && View().Held()
    {
      if closed || wsAttached || (resumable && inFlight == 0 && !broken && now - detachedAt > grace) {
        return false;
      }
      wsAttached := true;
      inFlight := inFlight + 1;
      return true;
    }

    /** As `EndPoll`, and the next WebSocket finds the way free. */
    method EndWebSocket(now: int)
      requires View().Sound() && wsAttached
      modifies this
      ensures View().Sound() && !wsAttached && inFlight == old(inFlight) - 1
      ensures View() == old(View()).(wsAttached := false, inFlight := inFlight, detachedAt := detachedAt)
      ensures inFlight > 0 || !resumable ==> detachedAt == old(detachedAt)
      ensures inFlight > 0 ==> View().Held()
      ensures inFlight == 0 && resumable ==> detachedAt == now && GraceFrom(View(), now)
    {
      wsAttached := false;
      inFlight := inFlight - 1;
      NoteDetached(now);
    }

    /** `closeOnce`: true for the one call that closed it. */
    method CloseOnce() returns (won: bool)
      modifies this
      ensures won == !old(closed) && View() == old(View()).(closed := true)
    {
      won := !closed;
      closed := true;
    }

    /** Activity on an attached session postpones its idle timeout to exactly that long from now. */
    method TouchNow(now: int)
      requires inFlight > 0
      modifies this
      ensures View() == old(View()).(lastActive := now)
      ensures forall t, timeout: nat :: !resumable ==>
                (View().(inFlight := 0, closed := false).Due(t, timeout) <==> t - now > timeout)
    {
      lastActive := now;
    }

    method Section(op: Op) returns (answer: bool)
      requires View().Sound()
      modifies this
      ensures View().Sound() && (View(), answer) == Apply(old(View()), op)
    {
      match op
      case OpenPoll(now) => answer := BeginPoll(now);
      case LeavePoll(now) =>
        answer := inFlight > (if wsAttached then 1 else 0);
        if answer { EndPoll(now); }
      case OpenSocket(now) => answer := BeginWebSocket(now);
      case LeaveSocket(now) =>
        answer := wsAttached;
        if answer { EndWebSocket(now); }
      case Touch(now) =>
        answer := inFlight > 0;
        if answer { TouchNow(now); }
      case Break =>
        answer := inFlight > 0 && resumable;
        if answer { broken := true; }
      case Close => answer := CloseOnce();
    }

    /** Any interleaving of the session's critical sections, one after another as its lock runs them. */
    method Serve(ops: seq<Op>) returns (answers: seq<bool>)
      requires View().Sound()
      modifies this
      ensures View().Sound() && View() == After(old(View()), ops)
      ensures |answers| == |ops| && forall i :: 0 <= i < |ops| ==> answers[i] == Answer(old(View()), ops, i)
    {
      answers := [];
      var k := 0;
      while k < |ops|
        invariant 0 <= k == |answers| <= |ops| && View().Sound() && View() == After(old(View()), ops[..k])
        invariant forall i :: 0 <= i < k ==> answers[i] == Answer(old(View()), ops, i)
      {
        assert ops[..k + 1][..k] == ops[..k];
        var answer := Section(ops[k]);
        answers := answers + [answer];
        k := k + 1;
      }
      assert ops[..|ops|] == ops;
    }
  }

  /** A session detached at `now`: in its grace from then for exactly that long, unless broken. */
  ghost predicate GraceFrom(x: SessionState, now: int) {
    forall t :: t >= now ==> (x.InResumeGrace(t) <==> !x.broken && t - now <= x.grace)
  }
}
