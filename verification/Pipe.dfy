/**
`BufferedPipe`: an in-memory pipe whose waits can be cut short by data, close, a timer or a
level-triggered interrupt. A wait releases the lock, so what other goroutines do meanwhile is a
parameter: a sequence of bursts, each a run of their critical sections after which the waiter has
the lock again and looks. A broadcast hands the lock to nobody, so a burst may go on after the
action that woke the waiter; an empty one is a wake-up for nothing. A wait whose bursts run out
before it may return is still parked.
*/
module Pipes {
  import opened Bytes

  /** What may happen to the pipe while a reader waits. `Expire` is the reader's own timer. */
  datatype Action = Put(p: seq<Byte>) | Interrupt | Shut | Expire

  /** Critical sections of others between the waiter's letting go of the lock and its having it back. */
  type Burst = seq<Action>

  datatype Outcome = Got(data: seq<Byte>) | Eof | Interrupted | TimedOut | Parked

  /** `written` and `taken` are histories: bytes accepted from writers, bytes handed to readers. */
  datatype Pipe = Pipe(buf: seq<Byte>, closed: bool, intr: bool, hiWater: nat,
                       written: seq<Byte>, taken: seq<Byte>)
  {
    ghost predicate Valid() {
      taken + buf == written && |buf| <= hiWater
    }

    function Write(p: seq<Byte>): (r: Pipe) {
      if closed then this
      else this.(buf := buf + p, written := written + p, hiWater := Max(hiWater, |buf + p|))
    }

    function After(a: Action): (r: Pipe) {
      match a
      case Put(p) => Write(p)
      case Interrupt => this.(intr := true)
      case Shut => this.(closed := true)
      case Expire => this
    }

    function AfterAll(b: Burst): (r: Pipe)
      decreases |b|
    {
      if b == [] then this else AfterAll(b[..|b| - 1]).After(b[|b| - 1])
    }

    /** Hand out at most `room` buffered bytes. */
    function Drain(room: nat): (r: (Pipe, seq<Byte>)) {
      var n := Min(room, |buf|);
      (this.(buf := buf[n..], taken := taken + buf[..n]), buf[..n])
    }
  }

  const EMPTY := Pipe([], false, false, 0, [], [])

  /** A wait for at least `want` buffered bytes: the pipe when it ends, and why it could. */
  function Wait(p: Pipe, want: nat, env: seq<Burst>, expired: bool): (r: (Pipe, bool, bool))
    decreases |env|
  {
    // the pipe, whether the timer fired, whether the waiter is still parked
    if |p.buf| >= want || p.closed || expired || p.intr then (p, expired, false)
    else if env == [] then (p, false, true)
    else Wait(p.AfterAll(env[0]), want, env[1..], Expire in env[0])
  }

  /** `ReadAvailable` with room for `room` bytes; `env1` and `env2` happen during its two waits. */
  function ReadAvailable(p: Pipe, room: nat, env1: seq<Burst>, env2: seq<Burst>): (r: (Pipe, Outcome)) {
    if p.intr then (p.(intr := false), Interrupted)
    else if p.buf == [] && p.closed then (p, Eof)
    else
      var (p1, _, parked1) := if p.buf == [] then Wait(p, 1, env1, false) else (p, false, false);
      if parked1 then (p1, Parked)
      else if p1.buf == [] then
        if p1.closed then (p1, Eof)
        else if p1.intr then (p1.(intr := false), Interrupted)
        else (p1, TimedOut)
      else
        var (p2, _, parked2) := Wait(p1, room, env2, false);
        if parked2 then (p2, Parked)
        else
          var (p3, data) := p2.Drain(room);
          (p3, Got(data))
  }

  /** `Read`, which no interrupt and no timer can cut short. */
  function ReadBlocking(p: Pipe, room: nat, env: seq<Burst>): (r: (Pipe, Outcome))
    decreases |env|
  {
    if p.buf != [] then
      var (p', data) := p.Drain(room);
      (p', Got(data))
    else if p.closed then (p, Eof)
    else if env == [] then (p, Parked)
    else ReadBlocking(p.AfterAll(env[0]), room, env[1..])
  }

  // ---- the class ----

  class BufferedPipe {
    var buf: seq<Byte>
    var closed: bool
    var intr: bool
    var hiWater: nat
    ghost var written: seq<Byte>
    ghost var taken: seq<Byte>

    ghost function View(): (p: Pipe)
      reads this
    {
      Pipe(buf, closed, intr, hiWater, written, taken)
    }

    constructor ()
      ensures View() == EMPTY
    {
      buf, closed, intr, hiWater, written, taken := [], false, false, 0, [], [];
    }

    method Write(p: seq<Byte>) returns (ok: bool)
      modifies this
      ensures ok == !old(closed)
      ensures View() == old(View()).Write(p)
      ensures ok ==> buf == old(buf) + p && hiWater == if |buf| > old(hiWater) then |buf| else old(hiWater)
      ensures !ok ==> View() == old(View())
    {
      if closed {
        return false;
      }
      buf := buf + p;
      written := written + p;
      if |buf| > hiWater {
        hiWater := |buf|;
      }
      return true;
    }

    method InterruptNow()
      modifies this
      ensures View() == old(View()).After(Interrupt)
    {
      intr := true;
    }

    method Close()
      modifies this
      ensures View() == old(View()).After(Shut)
    {
      closed := true;
    }

    /** Another goroutine's critical section, run while a reader is parked. */
    method Section(a: Action)
      modifies this
      ensures View() == old(View()).After(a)
    {
      match a
      case Put(p) => var _ := Write(p);
      case Interrupt => InterruptNow();
      case Shut => Close();
      case Expire =>
    }

    /** Others' critical sections, until the parked reader has the lock again. */
    method Meanwhile(b: Burst)
      modifies this
      ensures View() == old(View()).AfterAll(b)
    {
      var i := 0;
      while i < |b|
        invariant 0 <= i <= |b| && View() == old(View()).AfterAll(b[..i])
      {
        assert b[..i + 1][..i] == b[..i];
        Section(b[i]);
        i := i + 1;
      }
      assert b[..|b|] == b;
    }

    method Take(room: nat) returns (data: seq<Byte>)
      modifies this
      ensures (View(), data) == old(View()).Drain(room)
    {
      var n := Min(room, |buf|);
      data := buf[..n];
      taken := taken + data;
      buf := buf[n..];
    }

    /** The condition-variable loop of both phases of `ReadAvailable`. */
    method Await(want: nat, env: seq<Burst>) returns (parked: bool)
      modifies this
      ensures View() == Wait(old(View()), want, env, false).0
      ensures parked == Wait(old(View()), want, env, false).2
    {
      var timedOut, i := false, 0;
      while |buf| < want && !closed && !timedOut && !intr && i < |env|
        decreases |env| - i
        invariant 0 <= i <= |env|
        invariant Wait(View(), want, env[i..], timedOut) == Wait(old(View()), want, env, false)
      {
        Meanwhile(env[i]);
        timedOut := Expire in env[i];
        i := i + 1;
      }
      parked := |buf| < want && !closed && !timedOut && !intr;
    }

    method Read(room: nat, env: seq<Burst>) returns (out: Outcome)
      modifies this
      ensures (View(), out) == ReadBlocking(old(View()), room, env)
    {
      var i := 0;
      while |buf| == 0
        invariant 0 <= i <= |env|
        invariant ReadBlocking(View(), room, env[i..]) == ReadBlocking(old(View()), room, env)
        decreases |env| - i, |buf| == 0
      {
        if closed {
          return Eof;
        }
        if i == |env| {
          return Parked;
        }
        Meanwhile(env[i]);
        i := i + 1;
      }
      var data := Take(room);
      return Got(data);
    }

    method ReadAvailableNow(room: nat, env1: seq<Burst>, env2: seq<Burst>) returns (out: Outcome)
      modifies this
      ensures (View(), out) == ReadAvailable(old(View()), room, env1, env2)
    {
      if intr {
        intr := false;
        return Interrupted;
      }
      if |buf| == 0 {
        if closed {
          return Eof;
        }
        var parked := Await(1, env1);
        if parked {
          return Parked;
        }
        if |buf| == 0 {
          if closed {
            return Eof;
          }
          if intr {
            intr := false;
            return Interrupted;
          }
          return TimedOut;
        }
      }
      if |buf| < room && !closed && !intr {
        var parked := Await(room, env2);
        if parked {
          return Parked;
        }
      }
      var data := Take(room);
      return Got(data);
    }
  }

  // ---- what the waits keep ----

  predicate HasInterrupt(env: seq<Burst>) {
    exists b <- env :: Interrupt in b
  }

  lemma AfterValid(p: Pipe, a: Action)
    requires p.Valid()
    ensures p.After(a).Valid()
  {
    if a.Put? && !p.closed {
      assert p.taken + (p.buf + a.p) == (p.taken + p.buf) + a.p;
    }
  }

  lemma {:induction false} BurstInterrupt(p: Pipe, b: Burst)
    ensures p.AfterAll(b).intr <==> p.intr || Interrupt in b
    decreases |b|
  {
    if b != [] {
      BurstInterrupt(p, b[..|b| - 1]);
      assert b == b[..|b| - 1] + [b[|b| - 1]];
    }
  }

  lemma InterruptSplits(b: Burst, rest: seq<Burst>)
    ensures HasInterrupt([b] + rest) <==> Interrupt in b || HasInterrupt(rest)
  {
    assert ([b] + rest)[0] == b;
    assert forall c <- rest :: c in [b] + rest;
  }

  /** A burst only adds: bytes, a close, an interrupt exactly if it holds one. */
  lemma {:induction false} BurstKeeps(p: Pipe, b: Burst)
    requires p.Valid()
    ensures var p' := p.AfterAll(b);
            && p'.Valid() && p.written <= p'.written && p'.taken == p.taken
            && |p.buf| <= |p'.buf| && (p.closed ==> p'.closed)
            && (p'.intr <==> p.intr || Interrupt in b)
    decreases |b|
  {
    if b != [] {
      BurstKeeps(p, b[..|b| - 1]);
      AfterValid(p.AfterAll(b[..|b| - 1]), b[|b| - 1]);
    }
    BurstInterrupt(p, b);
  }

  /** A wait loses nothing, and ends parked only if nothing it waits for has happened. */
  lemma {:induction false} WaitKeeps(p: Pipe, want: nat, env: seq<Burst>, expired: bool)
    requires p.Valid()
    ensures var (p', fired, parked) := Wait(p, want, env, expired);
            && p'.Valid() && p.written <= p'.written && p'.taken == p.taken
            && |p.buf| <= |p'.buf| && (p.closed ==> p'.closed)
            && (parked ==> |p'.buf| < want && !p'.closed && !p'.intr)
            && (!parked ==> |p'.buf| >= want || p'.closed || fired || p'.intr)
            && (p.intr ==> p'.intr)
            && (parked ==> !HasInterrupt(env))
    decreases |env|
  {
    if !(|p.buf| >= want || p.closed || expired || p.intr) && env != [] {
      BurstKeeps(p, env[0]);
      WaitKeeps(p.AfterAll(env[0]), want, env[1..], Expire in env[0]);
      if Wait(p, want, env, expired).2 {
        assert env == [env[0]] + env[1..];
        InterruptSplits(env[0], env[1..]);
      }
    }
  }

  lemma DrainValid(p: Pipe, room: nat)
    requires p.Valid()
    ensures p.Drain(room).0.Valid() && p.Drain(room).0.taken == p.taken + p.Drain(room).1
  {
    var n := Min(room, |p.buf|);
    assert p.buf[..n] + p.buf[n..] == p.buf;
    assert (p.taken + p.buf[..n]) + p.buf[n..] == p.taken + (p.buf[..n] + p.buf[n..]);
  }

  /**
  One `ReadAvailable`, whatever happens during its waits: nothing is lost or invented, end of file
  means closed and drained, data is handed over only by `Got`, an interrupt pending at the call is
  reported by it without touching the data, and any other return without data means that none was
  there and none arrived: bytes win over a close, a timer and an interrupt that came with them.
  */
  lemma ReadAvailableKeeps(p: Pipe, room: nat, env1: seq<Burst>, env2: seq<Burst>)
    requires p.Valid()
    ensures var (p', out) := ReadAvailable(p, room, env1, env2);
            && p'.Valid() && p.written <= p'.written
            && p'.taken == p.taken + (if out.Got? then out.data else [])
            && (out.Got? ==> |out.data| <= room && (room > 0 ==> out.data != []))
            && (out.Eof? ==> p'.closed && p'.buf == [] && p'.taken == p'.written)
            && (out.TimedOut? ==> p'.buf == [] && !p'.closed && !p'.intr)
            && (out.Interrupted? ==> !p'.intr)
            && (p.intr ==> out.Interrupted? && p' == p.(intr := false))
            && (!p.intr && !out.Got? && !out.Parked? ==> p'.buf == [] && p'.written == p.written)
  {
    if !p.intr && !(p.buf == [] && p.closed) {
      WaitKeeps(p, 1, env1, false);
      var (p1, _, parked1) := if p.buf == [] then Wait(p, 1, env1, false) else (p, false, false);
      if !parked1 && p1.buf != [] {
        WaitKeeps(p1, room, env2, false);
        DrainValid(Wait(p1, room, env2, false).0, room);
      }
    }
  }

  // ---- when a call must return, and with what ----

  /** The bytes a burst writes to an open pipe. */
  function PutsOf(b: Burst): seq<Byte> {
    if b == [] then [] else PutsOf(b[..|b| - 1]) + (if b[|b| - 1].Put? then b[|b| - 1].p else [])
  }

  function Puts(env: seq<Burst>): seq<Byte> {
    if env == [] then [] else PutsOf(env[0]) + Puts(env[1..])
  }

  /** Nobody closes the pipe, interrupts its reader or runs out its timer. */
  predicate Silent(env: seq<Burst>) {
    forall b <- env :: Interrupt !in b && Shut !in b && Expire !in b
  }

  /** A reader that wants `want` bytes has no reason to stop waiting before or during `env`. */
  predicate WaitsOn(p: Pipe, want: nat, env: seq<Burst>) {
    !p.intr && !p.closed && Silent(env) && |p.buf| + |Puts(env)| < want
  }

  lemma {:induction false} BurstEffects(p: Pipe, b: Burst)
    ensures var p' := p.AfterAll(b);
            && (p'.closed <==> p.closed || Shut in b)
            && (!p.closed && Shut !in b ==> p'.buf == p.buf + PutsOf(b))
    decreases |b|
  {
    if b != [] {
      var shorter, a := b[..|b| - 1], b[|b| - 1];
      BurstEffects(p, shorter);
      assert b == shorter + [a];
      assert (p.buf + PutsOf(shorter)) + (if a.Put? then a.p else [])
          == p.buf + (PutsOf(shorter) + (if a.Put? then a.p else []));
    } else {
      assert p.buf + [] == p.buf;
    }
  }

  lemma SilentSplits(b: Burst, rest: seq<Burst>)
    ensures Silent([b] + rest) <==> Interrupt !in b && Shut !in b && Expire !in b && Silent(rest)
  {
    assert ([b] + rest)[0] == b;
    assert forall c <- rest :: c in [b] + rest;
  }

  /** A wait is still on exactly when nothing it waits for has happened, bytes counted in full. */
  lemma {:induction false} WaitParkedExactly(p: Pipe, want: nat, env: seq<Burst>, expired: bool)
    ensures Wait(p, want, env, expired).2 <==> !expired && WaitsOn(p, want, env)
    decreases |env|
  {
    if env != [] {
      var b, rest := env[0], env[1..];
      assert env == [b] + rest;
      SilentSplits(b, rest);
      if !(|p.buf| >= want || p.closed || expired || p.intr) {
        WaitParkedExactly(p.AfterAll(b), want, rest, Expire in b);
        BurstEffects(p, b);
        BurstInterrupt(p, b);
      }
    }
  }

  /** Pipe and bursts after the first `k`: what a wait has seen when it ends after `k` of them. */
  function AfterBursts(p: Pipe, env: seq<Burst>): Pipe
    decreases |env|
  {
    if env == [] then p else AfterBursts(p.AfterAll(env[0]), env[1..])
  }

  /** A wait sees whole bursts, in order, and ends at the first after which it has a reason to. */
  lemma {:induction false} WaitSeesBursts(p: Pipe, want: nat, env: seq<Burst>, expired: bool)
    ensures var n := Steps(p, want, env, expired);
            var (p', fired, parked) := Wait(p, want, env, expired);
            && p' == AfterBursts(p, env[..n])
            && (parked ==> n == |env|)
            && (fired <==> if n == 0 then expired else Expire in env[n - 1])
            && (n > 0 ==> |p.buf| < want && !p.closed && !expired && !p.intr)
    decreases |env|
  {
    if !(|p.buf| >= want || p.closed || expired || p.intr) && env != [] {
      var p1, rest, fired := p.AfterAll(env[0]), env[1..], Expire in env[0];
      WaitSeesBursts(p1, want, rest, fired);
      var n := Steps(p1, want, rest, fired);
      assert env[..n + 1][0] == env[0] && env[..n + 1][1..] == rest[..n];
    } else {
      assert env[..0] == [];
    }
  }

  /** What the first wait of a call leaves: the pipe as it is if bytes were there already. */
  function FirstWait(p: Pipe, env1: seq<Burst>): Pipe {
    if p.buf == [] then Wait(p, 1, env1, false).0 else p
  }

  /**
  Exactly how a call of `ReadAvailable` with no interrupt pending ends. It is still waiting exactly
  while a wait has nothing to end it; with no byte after the first wait it reports the end of a
  closed pipe, otherwise an interrupt, otherwise that its timer ran out, which it did; with bytes it
  hands out as many as fit.
  */
  lemma OutcomeExactly(p: Pipe, room: nat, env1: seq<Burst>, env2: seq<Burst>)
    requires p.Valid() && !p.intr
    ensures var (p', out) := ReadAvailable(p, room, env1, env2);
            var p1 := FirstWait(p, env1);
            && (out.Parked? <==> (p.buf == [] && WaitsOn(p, 1, env1)) || (p1.buf != [] && WaitsOn(p1, room, env2)))
            && (out.Eof? <==> p1.buf == [] && p1.closed)
            && (out.Interrupted? <==> p1.buf == [] && !p1.closed && p1.intr)
            && (out.TimedOut? ==> exists b <- env1 :: Expire in b)
            && (out.Got? <==> p1.buf != [] && !WaitsOn(p1, room, env2))
            && (out.Got? ==> |out.data| == room || p'.buf == [])
  {
    var p1 := FirstWait(p, env1);
    WaitKeeps(p, 1, env1, false);
    WaitParkedExactly(p, 1, env1, false);
    WaitParkedExactly(p1, room, env2, false);
    WaitSeesBursts(p, 1, env1, false);
    hide Puts, Silent, Steps, AfterBursts;
  }

  /** With bytes there and the pipe closed, or room for no more, they come at once; closed and empty is the end. */
  lemma ReturnsAtOnce(p: Pipe, room: nat, env1: seq<Burst>, env2: seq<Burst>)
    requires p.Valid() && !p.intr
    ensures p.buf == [] && p.closed ==> ReadAvailable(p, room, env1, env2) == (p, Eof)
    ensures p.buf != [] && (p.closed || |p.buf| >= room) ==>
              ReadAvailable(p, room, env1, env2).1 == Got(p.buf[..Min(room, |p.buf|)])
  {
  }

  /** And how a blocking read ends, whatever interrupts and timers do. */
  lemma {:induction false} ReadBlockingExactly(p: Pipe, room: nat, env: seq<Burst>)
    ensures var (p', out) := ReadBlocking(p, room, env);
            && (out.Parked? <==> p.buf == [] && !p.closed && Puts(env) == [] && forall b <- env :: Shut !in b)
            && (p.buf != [] ==> out == Got(p.buf[..Min(room, |p.buf|)]))
            && (p.buf == [] && p.closed ==> out == Eof)
            && (out.Got? ==> |out.data| == room || p'.buf == [])
    decreases |env|
  {
    if p.buf == [] && !p.closed && env != [] {
      var b, rest := env[0], env[1..];
      assert env == [b] + rest;
      assert forall c <- rest :: c in env;
      BurstEffects(p, b);
      ReadBlockingExactly(p.AfterAll(b), room, rest);
    }
  }

  // ---- runs of whole calls, and the interrupt's accounting ----

  /** A call on the pipe, or an action outside any call. */
  datatype Op = Do(a: Action) | Avail(room: nat, env1: seq<Burst>, env2: seq<Burst>)
              | Block(room: nat, env: seq<Burst>)

  function Perform(p: Pipe, op: Op): (r: (Pipe, Option<Outcome>)) {
    match op
    case Do(a) => (p.After(a), None)
    case Avail(room, env1, env2) => var (p', out) := ReadAvailable(p, room, env1, env2); (p', Some(out))
    case Block(room, env) => var (p', out) := ReadBlocking(p, room, env); (p', Some(out))
  }

  function RunOps(ops: seq<Op>): (r: Pipe) {
    if ops == [] then EMPTY else Perform(RunOps(ops[..|ops| - 1]), ops[|ops| - 1]).0
  }

  /** Everything readers were handed, in order. */
  function Delivered(ops: seq<Op>): seq<Byte> {
    if ops == [] then []
    else
      var out := Perform(RunOps(ops[..|ops| - 1]), ops[|ops| - 1]).1;
      Delivered(ops[..|ops| - 1]) + (if out.Some? && out.value.Got? then out.value.data else [])
  }

  lemma {:induction false} ReadBlockingKeeps(p: Pipe, room: nat, env: seq<Burst>)
    requires p.Valid()
    ensures var (p', out) := ReadBlocking(p, room, env);
            && p'.Valid() && p.written <= p'.written
            && p'.taken == p.taken + (if out.Got? then out.data else [])
            && (out.Got? && room > 0 ==> out.data != [])
            && (out.Eof? ==> p'.closed && p'.buf == [] && p'.taken == p'.written)
            && !out.Interrupted? && !out.TimedOut?
            && (p.intr ==> p'.intr)
    decreases |env|
  {
    if p.buf != [] {
      DrainValid(p, room);
    } else if !p.closed && env != [] {
      var p1 := p.AfterAll(env[0]);
      BurstKeeps(p, env[0]);
      assert p.written <= p1.written && p1.taken == p.taken && (p.intr ==> p1.intr);
      assert ReadBlocking(p, room, env) == ReadBlocking(p1, room, env[1..]);
      hide ReadBlocking;
      ReadBlockingKeeps(p1, room, env[1..]);
    }
  }

  /** Pipe refinement: over every run, bytes handed out followed by bytes buffered are bytes accepted. */
  lemma {:induction false} PipeRefinement(ops: seq<Op>)
    ensures RunOps(ops).Valid()
    ensures Delivered(ops) == RunOps(ops).taken
    ensures Delivered(ops) + RunOps(ops).buf == RunOps(ops).written
  {
    if ops != [] {
      var shorter, op := ops[..|ops| - 1], ops[|ops| - 1];
      PipeRefinement(shorter);
      match op
      case Do(a) => AfterValid(RunOps(shorter), a);
      case Avail(room, env1, env2) => ReadAvailableKeeps(RunOps(shorter), room, env1, env2);
      case Block(room, env) => ReadBlockingKeeps(RunOps(shorter), room, env);
    }
  }

  /** How many of the actions of a wait the waiter stays for. */
  function Steps(p: Pipe, want: nat, env: seq<Burst>, expired: bool): (n: nat)
    ensures n <= |env|
    decreases |env|
  {
    if |p.buf| >= want || p.closed || expired || p.intr || env == [] then 0
    else 1 + Steps(p.AfterAll(env[0]), want, env[1..], Expire in env[0])
  }

  /** The actions that really happened during a call, in order. */
  function Happened(p: Pipe, op: Op): seq<Burst> {
    match op
    case Do(a) => [[a]]
    case Avail(room, env1, env2) =>
      if p.intr || (p.buf == [] && p.closed) then []
      else
        var n1 := if p.buf == [] then Steps(p, 1, env1, false) else 0;
        var p1 := if p.buf == [] then Wait(p, 1, env1, false).0 else p;
        if p1.buf == [] then env1[..n1]
        else env1[..n1] + env2[..Steps(p1, room, env2, false)]
    case Block(_, env) => env[..BlockSteps(p, env)]
  }

  function BlockSteps(p: Pipe, env: seq<Burst>): (n: nat)
    ensures n <= |env|
    decreases |env|
  {
    if p.buf != [] || p.closed || env == [] then 0 else 1 + BlockSteps(p.AfterAll(env[0]), env[1..])
  }

  lemma {:induction false} WaitInterrupt(p: Pipe, want: nat, env: seq<Burst>, expired: bool)
    ensures Wait(p, want, env, expired).0.intr
            <==> p.intr || HasInterrupt(env[..Steps(p, want, env, expired)])
    decreases |env|
  {
    if !(|p.buf| >= want || p.closed || expired || p.intr) && env != [] {
      BurstInterrupt(p, env[0]);
      WaitInterrupt(p.AfterAll(env[0]), want, env[1..], Expire in env[0]);
      var n := Steps(p.AfterAll(env[0]), want, env[1..], Expire in env[0]);
      InterruptSplits(env[0], env[1..][..n]);
      assert env[..n + 1] == [env[0]] + env[1..][..n];
    }
  }

  lemma {:induction false} BlockInterrupt(p: Pipe, room: nat, env: seq<Burst>)
    ensures ReadBlocking(p, room, env).0.intr <==> p.intr || HasInterrupt(env[..BlockSteps(p, env)])
    decreases |env|
  {
    if p.buf == [] && !p.closed && env != [] {
      BurstInterrupt(p, env[0]);
      BlockInterrupt(p.AfterAll(env[0]), room, env[1..]);
      var n := BlockSteps(p.AfterAll(env[0]), env[1..]);
      InterruptSplits(env[0], env[1..][..n]);
      assert env[..n + 1] == [env[0]] + env[1..][..n];
    }
  }

  /**
  The interrupt is level-triggered and consumed once: after any call it is pending exactly when it
  was pending before or was raised during the call, unless this call reported it; and a call
  reports it only if it was pending or raised.
  */
  lemma InterruptExact(p: Pipe, op: Op)
    requires p.Valid()
    ensures var (p', out) := Perform(p, op);
            var reported := out == Some(Interrupted);
            var raised := p.intr || HasInterrupt(Happened(p, op));
            && (reported ==> raised && !p'.intr)
            && (!reported ==> (p'.intr <==> raised))
  {
    match op
    case Do(a) => InterruptSplits([a], []);
    case Avail(room, env1, env2) =>
      WaitKeeps(p, 1, env1, false);
      WaitInterrupt(p, 1, env1, false);
      var p1 := if p.buf == [] then Wait(p, 1, env1, false).0 else p;
      WaitInterrupt(p1, room, env2, false);
    case Block(room, env) =>
      BlockInterrupt(p, room, env);
      ReadBlockingKeeps(p, room, env);
  }

  /**
  Which call reports it: the one that finds it pending, or one whose first wait it ended with no
  byte buffered and the pipe open. If data came with it the data goes first, without a second wait.
  */
  lemma ReportsExactly(p: Pipe, room: nat, env1: seq<Burst>, env2: seq<Burst>)
    requires p.Valid()
    ensures var (p1, _, _) := Wait(p, 1, env1, false);
            ReadAvailable(p, room, env1, env2).1 == Interrupted
            <==> p.intr || (p.written == p1.written && p.buf == [] && !p1.closed
                            && HasInterrupt(env1[..Steps(p, 1, env1, false)]))
  {
    WaitKeeps(p, 1, env1, false);
    WaitInterrupt(p, 1, env1, false);
  }

  lemma DataBeforeInterrupt(p: Pipe, d: seq<Byte>, room: nat, rest: seq<Burst>, env2: seq<Burst>)
    requires p.Valid() && p.buf == [] && !p.closed && !p.intr && d != []
    ensures var (p', out) := ReadAvailable(p, room, [[Interrupt, Put(d)]] + rest, env2);
            out == Got(d[..Min(room, |d|)]) && p'.intr && p'.written == p.written + d
  {
    var b := [Interrupt, Put(d)];
    assert b[..1] == [Interrupt] && b[..1][..0] == [];
    assert p.AfterAll([Interrupt]) == p.(intr := true);
    assert p.AfterAll(b) == p.(intr := true).Write(d);
    var p1 := p.AfterAll(b);
    var env1 := [b] + rest;
    assert env1[0] == b && p1.buf == d && p1.intr;
    assert Wait(p, 1, env1, false) == Wait(p1, 1, env1[1..], Expire in b) == (p1, false, false);
    assert Wait(p1, room, env2, false) == (p1, false, false);
  }

  /**
  An interrupt raised during one call, or pending at it, is reported by that call or by the very
  next `ReadAvailable`, whatever other actions and blocking reads come in between.
  */
  lemma {:induction false} InterruptReportedNext(p: Pipe, op: Op, between: seq<Op>,
                                                 room: nat, env1: seq<Burst>, env2: seq<Burst>)
    requires p.Valid() && (p.intr || HasInterrupt(Happened(p, op)))
    requires forall o <- between :: !o.Avail?
    ensures Perform(p, op).1 == Some(Interrupted)
            || ReadAvailable(PerformAll(Perform(p, op).0, between), room, env1, env2).1 == Interrupted
  {
    InterruptExact(p, op);
    if Perform(p, op).1 != Some(Interrupted) {
      StaysPending(Perform(p, op).0, between);
    }
  }

  function PerformAll(p: Pipe, ops: seq<Op>): Pipe {
    if ops == [] then p else Perform(PerformAll(p, ops[..|ops| - 1]), ops[|ops| - 1]).0
  }

  lemma {:induction false} StaysPending(p: Pipe, ops: seq<Op>)
    requires p.intr && forall o <- ops :: !o.Avail?
    ensures PerformAll(p, ops).intr
  {
    if ops != [] {
      StaysPending(p, ops[..|ops| - 1]);
      var o := ops[|ops| - 1];
      assert o in ops;
      if o.Block? {
        BlockInterrupt(PerformAll(p, ops[..|ops| - 1]), o.room, o.env);
      }
    }
  }
}
