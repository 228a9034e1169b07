/**
The client's supervisor: legs, then a resume, then legs again, until the session cannot be kept.
What a leg and a resume did is a parameter of the run: how long the leg lasted, why it ended, and
where the byte layer stood after it and after the handshake.
*/
module Supervision {
  import opened Layers
  import opened Endpoints
  import EndToEnd
  import Recovery

  const MIN_STABLE: nat := 2000               // milliseconds
  const MAX_FAST_RESUMES: nat := 5
  const MAX_BODY_TIMEOUTS: nat := 3

  datatype LegEnd = Cancelled | SessionClosed | Inconsistent | BodyTimeout | TransportFailed

  datatype ResumeEnd = Resumed | ResumeCancelled | ResumeSaysClosed | ResumeFailed

  datatype Round = Round(duration: nat, legEnd: LegEnd, afterLegs: Layer, resumeEnd: ResumeEnd, after: Layer)

  /** Why `supervise` returned; `StillRunning` if the rounds given did not make it. */
  datatype Verdict = Quiet | Closed | GaveUp | StillRunning

  /** The layer moves only forward through a run's rounds. */
  ghost predicate Chain(l: Layer, rounds: seq<Round>)
    decreases |rounds|
  {
    rounds == []
    || (l.Precedes(rounds[0].afterLegs) && rounds[0].afterLegs.Precedes(rounds[0].after)
        && Chain(rounds[0].after, rounds[1..]))
  }

  /** Bytes the peer has confirmed plus bytes received: what the guard calls progress. */
  function Progress(l: Layer): nat {
    l.acked + l.recv
  }

  function LastLayer(l: Layer, rounds: seq<Round>): Layer {
    if rounds == [] then l else rounds[|rounds| - 1].after
  }

  function StableLegs(rounds: seq<Round>): nat {
    if rounds == [] then 0
    else StableLegs(rounds[..|rounds| - 1]) + (if rounds[|rounds| - 1].duration >= 2000 then 1 else 0)
  }

  lemma {:induction false} ChainAt(l: Layer, rounds: seq<Round>, k: nat)
    requires Chain(l, rounds) && k < |rounds|
    ensures LastLayer(l, rounds[..k]).Precedes(rounds[k].afterLegs)
    ensures rounds[k].afterLegs.Precedes(rounds[k].after)
    ensures Progress(LastLayer(l, rounds[..k])) <= Progress(rounds[k].after)
    ensures Progress(l) <= Progress(LastLayer(l, rounds[..k]))
    decreases |rounds|
  {
    if k > 0 {
      ChainAt(rounds[0].after, rounds[1..], k - 1);
      assert rounds[1..][..k - 1] == rounds[1..k];
      assert rounds[..k][|rounds[..k]| - 1] == rounds[k - 1];
      assert k > 1 ==> rounds[1..k][k - 2] == rounds[k - 1];
    }
  }

  class StabilityGuard {
    var consecutiveFast: nat
    var consecutiveBodyTimeouts: nat

    constructor ()
      ensures consecutiveFast == consecutiveBodyTimeouts == 0
    {
      consecutiveFast, consecutiveBodyTimeouts := 0, 0;
    }

    method RecordBodyTimeout(bodyTimedOut: bool, received: bool) returns (abandon: bool)
      modifies this
      ensures consecutiveFast == old(consecutiveFast)
      ensures consecutiveBodyTimeouts == if bodyTimedOut && !received then old(consecutiveBodyTimeouts) + 1 else 0
      ensures abandon <==> consecutiveBodyTimeouts >= 3
    {
      if !bodyTimedOut || received {
        consecutiveBodyTimeouts := 0;
        return false;
      }
      consecutiveBodyTimeouts := consecutiveBodyTimeouts + 1;
      return consecutiveBodyTimeouts >= MAX_BODY_TIMEOUTS;
    }

    method Record(duration: nat, progressed: bool) returns (abandon: bool)
      modifies this
      ensures consecutiveBodyTimeouts == old(consecutiveBodyTimeouts)
      ensures consecutiveFast == if duration >= 2000 || progressed then 0 else old(consecutiveFast) + 1
      ensures abandon <==> consecutiveFast >= 5
    {
      if duration >= MIN_STABLE || progressed {
        consecutiveFast := 0;
        return false;
      }
      consecutiveFast := consecutiveFast + 1;
      return consecutiveFast >= MAX_FAST_RESUMES;
    }
  }

  /** A round after which another leg is worth trying. */
  predicate Recoverable(r: Round) {
    (r.legEnd.BodyTimeout? || r.legEnd.TransportFailed?) && !r.afterLegs.broken && r.resumeEnd == Resumed
  }

  /** Round `k` lasted less than two seconds and neither confirmed nor received a byte, its handshake included. */
  predicate Idle(start: Layer, rounds: seq<Round>, k: nat)
    requires k < |rounds|
  {
    rounds[k].duration < 2000 && Progress(rounds[k].after) == Progress(LastLayer(start, rounds[..k]))
  }

  /** Round `k` ended in a body timeout with nothing received. */
  predicate EmptyBody(start: Layer, rounds: seq<Round>, k: nat)
    requires k < |rounds|
  {
    rounds[k].legEnd.BodyTimeout? && rounds[k].afterLegs.recv == LastLayer(start, rounds[..k]).recv
  }

  /** The last `n` of the rounds used were idle. */
  ghost predicate IdleRun(start: Layer, rounds: seq<Round>, n: nat, used: nat)
    requires used <= |rounds|
  {
    n <= used && forall k :: used - n <= k < used ==> Idle(start, rounds, k)
  }

  /** The last `n` of the rounds used had empty bodies. */
  ghost predicate EmptyRun(start: Layer, rounds: seq<Round>, n: nat, used: nat)
    requires used <= |rounds|
  {
    n <= used && forall k :: used - n <= k < used ==> EmptyBody(start, rounds, k)
  }

  /** What the guard has counted: the idle rounds and the empty bodies the run ends with, all if all were. */
  ghost predicate Counts(start: Layer, rounds: seq<Round>, used: nat, fast: nat, empty: nat)
    requires used <= |rounds|
  {
    && IdleRun(start, rounds, fast, used) && EmptyRun(start, rounds, empty, used)
    && (EmptyRun(start, rounds, |rounds|, |rounds|) ==> empty == used)
    && (IdleRun(start, rounds, |rounds|, |rounds|) ==> fast == used)
  }

  /** Why a run that used these rounds may give up, and nothing else will do. */
  ghost predicate GivesUpFor(start: Layer, rounds: seq<Round>, used: nat)
    requires 0 < used <= |rounds|
  {
    var last := rounds[used - 1];
    || last.legEnd.Inconsistent? || last.afterLegs.broken || last.resumeEnd.ResumeFailed?
    || IdleRun(start, rounds, 5, used) || EmptyRun(start, rounds, 3, used)
  }

  /**
  `supervise`. However the legs fail and the handshakes succeed, the number of successful resumes is
  at most five for every byte of progress and every stable leg, and five more: a run of short legs
  that moves nothing is abandoned at its fifth. Only a round that ended in a transport problem, with
  the layer intact and the handshake done, is followed by another; and the session is given up only
  for an inconsistency, a failed resume, five idle rounds or three empty bodies in a row.
  */
  method Supervise(start: Layer, rounds: seq<Round>) returns (verdict: Verdict, resumes: nat, used: nat)
    requires Chain(start, rounds)
    ensures used <= |rounds| && (verdict == StillRunning ==> used == |rounds| == resumes)
    ensures Progress(start) <= Progress(LastLayer(start, rounds[..used]))
    ensures resumes <= 5 * (Progress(LastLayer(start, rounds[..used])) - Progress(start)
                            + StableLegs(rounds[..used]) + 1)
    ensures forall k :: 0 <= k < used - 1 ==> Recoverable(rounds[k])
    ensures verdict == StillRunning ==> forall k :: 0 <= k < used ==> Recoverable(rounds[k])
    ensures verdict != StillRunning ==> used > 0
    ensures verdict == GaveUp ==> GivesUpFor(start, rounds, used)
    ensures verdict == Closed ==> rounds[used - 1].legEnd.SessionClosed? || rounds[used - 1].resumeEnd.ResumeSaysClosed?
    ensures verdict == Quiet ==> rounds[used - 1].legEnd.Cancelled? || rounds[used - 1].resumeEnd.ResumeCancelled?
    ensures EmptyRun(start, rounds, |rounds|, |rounds|) ==> used <= 3
    ensures IdleRun(start, rounds, |rounds|, |rounds|) ==> used <= 5
  {
    var guard := new StabilityGuard();
    resumes, used := 0, 0;
    var before := start;
    while used < |rounds|
      invariant used <= |rounds| && resumes == used && before == LastLayer(start, rounds[..used])
      invariant fresh(guard) && guard.consecutiveFast < MAX_FAST_RESUMES
      invariant guard.consecutiveBodyTimeouts < MAX_BODY_TIMEOUTS
      invariant Progress(start) <= Progress(before)
      invariant resumes <= 5 * (Progress(before) - Progress(start) + StableLegs(rounds[..used])) + guard.consecutiveFast
      invariant forall k :: 0 <= k < used ==> Recoverable(rounds[k])
      invariant Counts(start, rounds, used, guard.consecutiveFast, guard.consecutiveBodyTimeouts)
    {
      var r := rounds[used];
      ChainAt(start, rounds, used);
      Extend(start, rounds, used);
      ExtendRuns(start, rounds, guard.consecutiveFast, guard.consecutiveBodyTimeouts, used);
      assert EmptyBody(start, rounds, used) <==> r.legEnd.BodyTimeout? && r.afterLegs.recv == before.recv;
      assert Idle(start, rounds, used) <==> r.duration < MIN_STABLE && Progress(r.after) == Progress(before);
      hide Counts, IdleRun, EmptyRun, EmptyBody, Idle, StableLegs, LastLayer, Progress, Chain;
      used := used + 1;
      var v, resumed := FinishRound(guard, before, r);
      if resumed {
        resumes := resumes + 1;
      }
      if v != StillRunning {
        return v, resumes, used;
      }
      before := r.after;
    }
    verdict := StillRunning;
  }

  lemma Extend(start: Layer, rounds: seq<Round>, k: nat)
    requires k < |rounds|
    ensures LastLayer(start, rounds[..k + 1]) == rounds[k].after
    ensures StableLegs(rounds[..k + 1]) == StableLegs(rounds[..k]) + (if rounds[k].duration >= 2000 then 1 else 0)
  {
    assert rounds[..k + 1][..k] == rounds[..k];
  }

  lemma ExtendRuns(start: Layer, rounds: seq<Round>, fast: nat, empty: nat, k: nat)
    requires k < |rounds| && Counts(start, rounds, k, fast, empty)
    ensures Counts(start, rounds, k + 1, if Idle(start, rounds, k) then fast + 1 else 0,
                   if EmptyBody(start, rounds, k) then empty + 1 else 0)
    ensures Idle(start, rounds, k) ==> IdleRun(start, rounds, fast + 1, k + 1)
    ensures EmptyBody(start, rounds, k) ==> EmptyRun(start, rounds, empty + 1, k + 1)
    ensures EmptyRun(start, rounds, |rounds|, |rounds|) ==> EmptyBody(start, rounds, k) && empty == k
    ensures IdleRun(start, rounds, |rounds|, |rounds|) ==> Idle(start, rounds, k) && fast == k
  {
  }

  /** What `supervise` decides once a round's legs have ended, given where the layer stood before it. */
  method FinishRound(guard: StabilityGuard, before: Layer, r: Round) returns (v: Verdict, resumed: bool)
    requires before.Precedes(r.afterLegs) && r.afterLegs.Precedes(r.after)
    modifies guard
    ensures resumed ==> Recoverable(r)
    ensures v == StillRunning ==>
              && resumed
              && guard.consecutiveFast
                 == (if r.duration >= 2000 || Progress(r.after) > Progress(before) then 0
                     else old(guard.consecutiveFast) + 1)
              && guard.consecutiveFast < 5
              && guard.consecutiveBodyTimeouts
                 == (if r.legEnd.BodyTimeout? && r.afterLegs.recv == before.recv
                     then old(guard.consecutiveBodyTimeouts) + 1 else 0)
              && guard.consecutiveBodyTimeouts < 3
    ensures v == GaveUp ==>
              || r.legEnd.Inconsistent? || r.afterLegs.broken || r.resumeEnd.ResumeFailed?
              || (r.duration < 2000 && Progress(r.after) == Progress(before)
                  && old(guard.consecutiveFast) + 1 >= 5)
              || (r.legEnd.BodyTimeout? && r.afterLegs.recv == before.recv
                  && old(guard.consecutiveBodyTimeouts) + 1 >= 3)
    ensures v == Closed ==> r.legEnd.SessionClosed? || r.resumeEnd.ResumeSaysClosed?
    ensures v == Quiet ==> r.legEnd.Cancelled? || r.resumeEnd.ResumeCancelled?
  {
    resumed := false;
    if r.legEnd.Cancelled? {
      return Quiet, false;
    }
    if r.legEnd.SessionClosed? {
      return Closed, false;
    }
    if r.legEnd.Inconsistent? || r.afterLegs.broken {
      return GaveUp, false;
    }
    var stuck := guard.RecordBodyTimeout(r.legEnd.BodyTimeout?, r.afterLegs.recv != before.recv);
    if stuck {
      return GaveUp, false;
    }
    match r.resumeEnd
    case ResumeCancelled => return Quiet, false;
    case ResumeSaysClosed => return Closed, false;
    case ResumeFailed => return GaveUp, false;
    case Resumed =>
      var progressed := r.after.acked != before.acked || r.after.recv != before.recv;
      var unstable := guard.Record(r.duration, progressed);
      return if unstable then GaveUp else StillRunning, true;
  }

  /** Layers sampled along any run of the protocol move only forward. */
  lemma {:induction false} SamplesPrecede(s: EndToEnd.State, events: seq<EndToEnd.Event>, i: nat, j: nat, side: Side)
    requires s.InRange() && i <= j <= |events|
    ensures EndToEnd.Run(s, events[..i]).At(side).layer.Precedes(EndToEnd.Run(s, events[..j]).At(side).layer)
  {
    assert events[..j] == events[..i] + events[i..j];
    Recovery.RunConcat(s, events[..i], events[i..j]);
    EndToEnd.RunMonotone(EndToEnd.Run(s, events[..i]), events[i..j], side);
  }

  /** Positions in a run of `n` events that only move forward. */
  ghost predicate Forward(pos: seq<nat>, n: nat) {
    && (forall i :: 0 <= i < |pos| ==> pos[i] <= n)
    && (forall i, j :: 0 <= i <= j < |pos| ==> pos[i] <= pos[j])
  }

  /** The layer of one side after the first `k` events of a run. */
  function LayerAt(s: EndToEnd.State, events: seq<EndToEnd.Event>, side: Side, k: nat): Layer
    requires s.InRange() && k <= |events|
  {
    EndToEnd.Run(s, events[..k]).At(side).layer
  }

  /**
  What `supervise` samples of a run of the protocol: the layer before the first round, and in each
  round the layer after its legs and after its resume, at positions that only move forward.
  */
  ghost predicate Sampled(s: EndToEnd.State, events: seq<EndToEnd.Event>, side: Side,
                          pos: seq<nat>, start: Layer, rounds: seq<Round>)
    requires s.InRange()
  {
    && |pos| == 2 * |rounds| + 1 && Forward(pos, |events|)
    && start == LayerAt(s, events, side, pos[0])
    && forall k :: 0 <= k < |rounds| ==>
         && rounds[k].afterLegs == LayerAt(s, events, side, pos[2 * k + 1])
         && rounds[k].after == LayerAt(s, events, side, pos[2 * k + 2])
  }

  lemma ForwardTail(pos: seq<nat>, n: nat)
    requires |pos| >= 2 && Forward(pos, n)
    ensures Forward(pos[2..], n)
  {
  }

  lemma SampledTail(s: EndToEnd.State, events: seq<EndToEnd.Event>, side: Side,
                    pos: seq<nat>, start: Layer, rounds: seq<Round>)
    requires s.InRange() && Sampled(s, events, side, pos, start, rounds) && rounds != []
    ensures Sampled(s, events, side, pos[2..], rounds[0].after, rounds[1..])
  {
    hide LayerAt;
    ForwardTail(pos, |events|);
    var pos', rounds' := pos[2..], rounds[1..];
    forall k | 0 <= k < |rounds'|
      ensures rounds'[k].afterLegs == LayerAt(s, events, side, pos'[2 * k + 1])
      ensures rounds'[k].after == LayerAt(s, events, side, pos'[2 * k + 2])
    {
      assert rounds'[k] == rounds[k + 1];
      assert pos'[2 * k + 1] == pos[2 * (k + 1) + 1] && pos'[2 * k + 2] == pos[2 * (k + 1) + 2];
    }
  }

  /** So rounds sampled along any run of the protocol, whatever its network does, make a chain. */
  lemma {:induction false} SampledChain(s: EndToEnd.State, events: seq<EndToEnd.Event>, side: Side,
                                        pos: seq<nat>, start: Layer, rounds: seq<Round>)
    requires s.InRange() && Sampled(s, events, side, pos, start, rounds)
    ensures Chain(start, rounds)
    decreases |rounds|
  {
    if rounds != [] {
      SamplesPrecede(s, events, pos[0], pos[1], side);
      SamplesPrecede(s, events, pos[1], pos[2], side);
      SampledTail(s, events, side, pos, start, rounds);
      hide EndToEnd.Run, Forward;
      SampledChain(s, events, side, pos[2..], rounds[0].after, rounds[1..]);
    }
  }

  /** Progress never exceeds what the two applications have written by the end of the run. */
  lemma {:induction false} ProgressBound(clientMax: int, serverMax: int, events: seq<EndToEnd.Event>,
                                         side: Side, k: nat)
    requires k <= |events|
    ensures var s0 := EndToEnd.Init(clientMax, serverMax);
            var s := EndToEnd.Run(s0, events);
            Progress(LayerAt(s0, events, side, k)) <= |s.client.written| + |s.server.written|
  {
    var s0 := EndToEnd.Init(clientMax, serverMax);
    var mid := EndToEnd.Run(s0, events[..k]);
    EndToEnd.RunInv(s0, events[..k]);
    assert mid.At(side).layer.acked <= |mid.At(side).written|;
    assert mid.At(side).layer.recv <= |mid.At(side.Peer()).written|;
    assert events == events[..k] + events[k..];
    hide EndToEnd.Run, EndToEnd.Inv;
    Recovery.RunConcat(s0, events[..k], events[k..]);
    EndToEnd.RunMonotone(mid, events[k..], Client);
    EndToEnd.RunMonotone(mid, events[k..], Server);
  }

  /**
  The bound over runs of the protocol: whatever the network does, a supervisor that samples its
  layer as it goes resumes successfully at most five times for every byte either application writes
  and every stable leg, and five more.
  */
  method SuperviseRun(ghost clientMax: int, ghost serverMax: int, ghost events: seq<EndToEnd.Event>, ghost side: Side,
                      ghost pos: seq<nat>, start: Layer, rounds: seq<Round>)
    returns (verdict: Verdict, resumes: nat, used: nat)
    requires Sampled(EndToEnd.Init(clientMax, serverMax), events, side, pos, start, rounds)
    ensures used <= |rounds| && (verdict == StillRunning ==> used == |rounds| == resumes)
    ensures var s := EndToEnd.Run(EndToEnd.Init(clientMax, serverMax), events);
            resumes <= 5 * (|s.client.written| + |s.server.written| + StableLegs(rounds[..used]) + 1)
    ensures verdict == GaveUp ==> used > 0 && GivesUpFor(start, rounds, used)
  {
    SampledChain(EndToEnd.Init(clientMax, serverMax), events, side, pos, start, rounds);
    verdict, resumes, used := Supervise(start, rounds);
    ghost var k := pos[2 * used];
    assert LastLayer(start, rounds[..used]) == LayerAt(EndToEnd.Init(clientMax, serverMax), events, side, k);
    ProgressBound(clientMax, serverMax, events, side, k);
  }
}
