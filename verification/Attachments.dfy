/**
`attachments`: one transport per direction on a resumable session. A newcomer kicks the owner and
waits for its `done`; a resume forbids claims, kicks both owners and waits them out. An attachment
is named by an id, as the source names it by its pointer.
*/
module Attachments {
  import opened Bytes

  type Id = nat

  datatype Dir = Down | Up

  datatype Kind = OnlyDown | OnlyUp | Both {
    function Dirs(): seq<Dir> {
      match this
      case OnlyDown => [Down]
      case OnlyUp => [Up]
      case Both => [Down, Up]
    }
  }

  /** What one locked round of `attach` finds. */
  datatype ClaimResult = Claimed | Busy(owner: Id) | ResumeInProgress

  datatype Slots = Slots(down: Option<Id>, up: Option<Id>, resuming: bool) {
    function At(d: Dir): Option<Id> {
      if d.Down? then down else up
    }

    predicate Owns(me: Id) {
      down == Some(me) || up == Some(me)
    }

    function Claim(me: Id, d: Dir): (r: (Slots, ClaimResult)) {
      if resuming then (this, ResumeInProgress)
      else if At(d).Some? then (this, Busy(At(d).value))
      else (if d.Down? then this.(down := Some(me)) else this.(up := Some(me)), Claimed)
    }

    function Clear(me: Id): (r: Slots)
      ensures !r.Owns(me)
    {
      this.(down := if down == Some(me) then None else down,
            up := if up == Some(me) then None else up)
    }
  }

  // ---- the class ----

  /** The directions are free and nobody is about to take them or begin a resume. */
  ghost predicate Free(was: Slots, env: seq<Burst>, dirs: seq<Dir>) {
    && !was.resuming && (forall d <- dirs :: was.At(d) == None)
    && (forall b <- env :: Undisturbed(b, dirs))
  }

  /**
  One critical section of another goroutine, or this waiter's own deadline, which `select` may pick
  even when the channel it waits for is closed by then.
  */
  datatype Other =
    | OtherClaims(id: Id, dir: Dir)
    | OtherLeaves(id: Id)
    | ResumeBegins
    | ResumeEnds
    | WaitExpires(picked: bool)

  /** What others do between two looks of a waiter; a closed channel hands over no lock. */
  type Burst = seq<Other>

  /** The others are others. */
  predicate NotOf(me: Id, b: Burst) {
    forall o <- b :: (o.OtherLeaves? || o.OtherClaims?) ==> o.id != me
  }

  predicate NoneOf(me: Id, env: seq<Burst>) {
    forall b <- env :: NotOf(me, b)
  }

  /** Some deadline passes. */
  predicate Expires(b: Burst) {
    WaitExpires(true) in b || WaitExpires(false) in b
  }

  /** No resume begins, and nobody else claims any of these directions. */
  predicate Undisturbed(b: Burst, dirs: seq<Dir>) {
    ResumeBegins !in b && forall o <- b :: o.OtherClaims? ==> o.dir !in dirs
  }

  predicate NoResumeEnds(env: seq<Burst>) {
    forall b <- env :: ResumeEnds !in b
  }

  /** How a call that waits ends; it is `StillWaiting` if the others stop before it can. */
  datatype WaitResult = Succeeded | StillAttached | StillWaiting

  class AttachmentTable {
    var down: Option<Id>
    var up: Option<Id>
    var resuming: bool
    var done: set<Id>   // attachments whose done channel is closed

    ghost function View(): Slots
      reads this
    {
      Slots(down, up, resuming)
    }

    /** A closed done channel means its owner has left every slot. */
    ghost predicate Valid()
      reads this
    {
      forall d :: d in done ==> !View().Owns(d)
    }

    constructor ()
      ensures Valid() && View() == Slots(None, None, false) && done == {}
    {
      down, up, resuming, done := None, None, false, {};
    }

    method TryClaim(me: Id, d: Dir) returns (r: ClaimResult)
      requires Valid() && me !in done
      modifies this
      ensures Valid() && (View(), r) == old(View()).Claim(me, d) && done == old(done)
    {
      if resuming {
        return ResumeInProgress;
      }
      var slot := if d.Down? then down else up;
      if slot.Some? {
        return Busy(slot.value);
      }
      if d.Down? {
        down := Some(me);
      } else {
        up := Some(me);
      }
      return Claimed;
    }

    method Detach(me: Id)
      requires Valid()
      modifies this
      ensures Valid() && View() == old(View()).Clear(me) && done == old(done) + {me}
    {
      if down == Some(me) {
        down := None;
      }
      if up == Some(me) {
        up := None;
      }
      done := done + {me};
    }

    /** A handler woken by an interrupt that is still current holds a direction and has not let go. */
    method IsCurrent(me: Id) returns (b: bool)
      requires Valid()
      ensures b <==> exists d :: View().At(d) == Some(me)
      ensures b ==> me !in done
    {
      assert View().At(Down) == down && View().At(Up) == up;
      b := down == Some(me) || up == Some(me);
    }

    method BeginResume() returns (ok: bool)
      requires Valid()
      modifies this
      ensures Valid() && ok == !old(resuming) && View() == old(View()).(resuming := true) && done == old(done)
    {
      ok := !resuming;
      resuming := true;
    }

    method EndResume()
      requires Valid()
      modifies this
      ensures Valid() && View() == old(View()).(resuming := false) && done == old(done)
    {
      resuming := false;
    }

    /** What another goroutine may do while this one waits; a finished attachment claims nothing. */
    method Meanwhile(o: Other)
      requires Valid()
      modifies this
      ensures Valid() && old(done) <= done
      ensures done <= old(done) + (if o.OtherLeaves? then {o.id} else {})
      ensures forall x, d :: View().At(d) == Some(x) && old(View()).At(d) != Some(x)
                             ==> o == OtherClaims(x, d) && !old(resuming)
      ensures forall x, d :: old(View()).At(d) == Some(x) && View().At(d) != Some(x) ==> o == OtherLeaves(x)
      ensures old(resuming) && !resuming ==> o.ResumeEnds?
      ensures resuming && !old(resuming) ==> o.ResumeBegins?
    {
      match o
      case OtherClaims(id, d) => if id !in done { var _ := TryClaim(id, d); }
      case OtherLeaves(id) => Detach(id);
      case ResumeBegins => var _ := BeginResume();
      case ResumeEnds => EndResume();
      case WaitExpires(_) =>
    }

    method MeanwhileAll(me: Id, b: Burst)
      requires Valid() && NotOf(me, b)
      modifies this
      ensures Valid() && old(done) <= done && (me !in old(done) ==> me !in done)
      ensures forall d :: View().At(d) == Some(me) <==> old(View()).At(d) == Some(me)
      ensures old(resuming) && ResumeEnds !in b ==>
                resuming && forall x, d :: View().At(d) == Some(x) ==> old(View()).At(d) == Some(x)
      ensures !old(resuming) && ResumeBegins !in b ==> !resuming
      ensures forall dirs, d :: Undisturbed(b, dirs) && d in dirs && old(View()).At(d) == None ==> View().At(d) == None
    {
      var k := 0;
      while k < |b|
        invariant Valid() && 0 <= k <= |b| && old(done) <= done && (me !in old(done) ==> me !in done)
        invariant forall d :: View().At(d) == Some(me) <==> old(View()).At(d) == Some(me)
        invariant old(resuming) && ResumeEnds !in b ==>
                    resuming && forall x, d :: View().At(d) == Some(x) ==> old(View()).At(d) == Some(x)
        invariant !old(resuming) && ResumeBegins !in b ==> !resuming
        invariant forall dirs, d ::
                    Undisturbed(b, dirs) && d in dirs && old(View()).At(d) == None ==> View().At(d) == None
      {
        assert b[k] in b;
        Meanwhile(b[k]);
        k := k + 1;
      }
    }

    /** `kickAndWait`, from the `i`-th burst of the others on. */
    method KickAndWait(me: Id, owner: Id, env: seq<Burst>, i: nat) returns (r: WaitResult, next: nat)
      requires Valid() && i <= |env| && NoneOf(me, env)
      modifies this
      ensures Valid() && i <= next <= |env|
      ensures r == Succeeded ==> owner in done && (owner in old(done) || next > i)
      ensures owner in old(done) ==> r == Succeeded && next == i
      ensures r == StillAttached ==> exists b <- env :: Expires(b)
      ensures r == StillWaiting ==> owner !in done && next == |env|
      ensures !old(resuming) && (forall b <- env :: ResumeBegins !in b) ==> !resuming
      ensures old(done) <= done && (me !in old(done) ==> me !in done)
      ensures forall d :: View().At(d) == Some(me) <==> old(View()).At(d) == Some(me)
      ensures old(resuming) && NoResumeEnds(env) ==>
                resuming && forall x, d :: View().At(d) == Some(x) ==> old(View()).At(d) == Some(x)
    {
      next := i;
      var expired, picked := false, false;
      while owner !in done && !expired && next < |env|
        invariant Valid() && i <= next <= |env|
        invariant old(done) <= done && (me !in old(done) ==> me !in done)
        invariant owner in done ==> owner in old(done) || next > i
        invariant owner in old(done) ==> next == i && !expired
        invariant picked ==> expired
        invariant expired ==> exists b <- env :: Expires(b)
        invariant !old(resuming) && (forall b <- env :: ResumeBegins !in b) ==> !resuming
        invariant forall d :: View().At(d) == Some(me) <==> old(View()).At(d) == Some(me)
        invariant old(resuming) && NoResumeEnds(env) ==>
                    resuming && forall x, d :: View().At(d) == Some(x) ==> old(View()).At(d) == Some(x)
      {
        assert env[next] in env;
        MeanwhileAll(me, env[next]);
        picked := WaitExpires(true) in env[next];
        expired := picked || WaitExpires(false) in env[next];
        next := next + 1;
      }
      r := if picked then StillAttached
           else if owner in done then Succeeded
           else if expired then StillAttached else StillWaiting;
    }

    /** The inner loop of `attach`: claim one direction, kicking whoever owns it. */
    method ClaimDir(me: Id, d: Dir, env: seq<Burst>, i: nat, ghost dirs: seq<Dir>) returns (r: WaitResult, next: nat)
      requires Valid() && me !in done && View().At(d) != Some(me) && i <= |env| && NoneOf(me, env)
      modifies this
      ensures Valid() && me !in done && i <= next <= |env|
      ensures forall x :: View().At(x) == Some(me) <==> old(View()).At(x) == Some(me) || (x == d && r == Succeeded)
      ensures r == StillAttached ==> old(resuming) || exists b <- env :: ResumeBegins in b || Expires(b)
      ensures !old(resuming) && (forall b <- env :: ResumeBegins !in b) ==> !resuming
      ensures d in dirs && Free(old(View()), env, dirs) ==>
                r == Succeeded && forall x <- dirs :: x != d ==> View().At(x) == None
    {
      next := i;
      while true
        invariant Valid() && me !in done && i <= next <= |env|
        invariant forall x :: View().At(x) == Some(me) <==> old(View()).At(x) == Some(me)
        invariant !old(resuming) && (forall b <- env :: ResumeBegins !in b) ==> !resuming
        invariant d in dirs && Free(old(View()), env, dirs) ==> forall x <- dirs :: View().At(x) == None
        decreases |env| - next
      {
        if next < |env| {
          assert env[next] in env;
          MeanwhileAll(me, env[next]);
          next := next + 1;
        }
        var c := TryClaim(me, d);
        match c
        case ResumeInProgress => return StillAttached, next;
        case Claimed => return Succeeded, next;
        case Busy(owner) =>
          var w, n := KickAndWait(me, owner, env, next);
          next := n;
          if w != Succeeded {
            return w, next;
          }
      }
    }

    /**
    `attach`, others running before every look at the table: on success the caller owns every
    direction it asked for; on failure, even half way through claiming both, it owns none and its
    done channel is closed. It fails only for a resume or a deadline, and succeeds whenever the
    directions are free and nobody claims them or begins a resume meanwhile.
    */
    method Attach(me: Id, kind: Kind, env: seq<Burst>) returns (r: WaitResult)
      requires Valid() && me !in done && !View().Owns(me)
      requires NoneOf(me, env)
      modifies this
      ensures Valid()
      ensures r == Succeeded ==> forall d :: View().At(d) == Some(me) <==> d in kind.Dirs()
      ensures r == StillAttached ==> !View().Owns(me) && me in done
      ensures r != StillAttached ==> me !in done
      ensures r == StillAttached ==> old(resuming) || exists b <- env :: ResumeBegins in b || Expires(b)
      ensures Free(old(View()), env, kind.Dirs()) ==> r == Succeeded
    {
      var dirs, k, i := kind.Dirs(), 0, 0;
      while k < |dirs|
        invariant 0 <= k <= |dirs| && 0 <= i <= |env|
        invariant Valid() && me !in done
        invariant forall d :: View().At(d) == Some(me) <==> d in dirs[..k]
        invariant !old(resuming) && (forall b <- env :: ResumeBegins !in b) ==> !resuming
        invariant Free(old(View()), env, dirs) ==> Free(View(), env, dirs[k..])
        decreases |dirs| - k
      {
        var w;
        w, i := ClaimDir(me, dirs[k], env, i, dirs[k..]);
        if w != Succeeded {
          if w == StillAttached {
            Detach(me);
          }
          return w;
        }
        assert dirs[..k + 1] == dirs[..k] + [dirs[k]] && dirs[k..] == [dirs[k]] + dirs[k + 1..];
        k := k + 1;
      }
      assert dirs[..k] == dirs;
      return Succeeded;
    }

    /** `kickAll`, inside a resume no other goroutine can end: on success both slots are empty. */
    method KickAll(me: Id, env: seq<Burst>) returns (r: WaitResult)
      requires Valid() && resuming && NoResumeEnds(env)
      requires NoneOf(me, env)
      modifies this
      ensures Valid() && resuming
      ensures r == Succeeded ==> View() == Slots(None, None, true)
      ensures r == StillAttached ==> exists b <- env :: Expires(b)
      ensures old(down) == None && old(up) == None ==> r == Succeeded
    {
      var olds := [down, up];
      ghost var was := View();
      var k, i := 0, 0;
      while k < 2
        invariant 0 <= k <= 2 && 0 <= i <= |env|
        invariant Valid() && resuming && olds == [was.down, was.up]
        invariant forall x, d :: View().At(d) == Some(x) ==> was.At(d) == Some(x)
        invariant forall j :: 0 <= j < k && olds[j].Some? ==> olds[j].value in done
      {
        if olds[k].Some? {
          var w, next := KickAndWait(me, olds[k].value, env, i);
          if w != Succeeded {
            return w;
          }
          i := next;
        }
        k := k + 1;
      }
      assert olds[0] == was.At(Down) && olds[1] == was.At(Up);
      assert View().At(Down) == None && View().At(Up) == None;
      return Succeeded;
    }
  }
}
