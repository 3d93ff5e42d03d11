/** Interleaved walks make progress: whoever gets enough turns finishes. */
module Progress {
  import opened Forest
  import opened GroupWalk
  import opened Interleaving
  import opened Pagination
  import opened Sequences
  import opened WalkSafety
  import opened Wrappers

  // ---------------------------------------------------------------- counting turns

  /** How often walker `i` gets its turn. */
  function Acts(moves: seq<Move>, i: nat): nat
  {
    if moves == [] then 0
    else
      var m := moves[|moves| - 1];
      Acts(moves[..|moves| - 1], i) + (if m.Act? && m.i == i then 1 else 0)
  }

  /** How often some other client creates. */
  function Outsides(moves: seq<Move>): nat
  {
    if moves == [] then 0 else Outsides(moves[..|moves| - 1]) + (if moves[|moves| - 1].Outside? then 1 else 0)
  }

  function NamesTotal(walkers: seq<Walker>): nat
  {
    if walkers == [] then 0 else |walkers[0].names| + 1 + NamesTotal(walkers[1..])
  }

  /** Turns enough for every walker, whatever happens in between. */
  function Enough(s: System, moves: seq<Move>): nat
  {
    |s.forest| + Outsides(moves) + 4 * NamesTotal(s.walkers) + 2
  }

  // ---------------------------------------------------------------- the forest stays small

  /** What a walker can have added so far, at most. */
  function Consumed(w: Walker): nat
  {
    w.k + if w.stage.Broken? then 1 else 0
  }

  function ConsumedTotal(walkers: seq<Walker>): nat
  {
    if walkers == [] then 0 else Consumed(walkers[0]) + ConsumedTotal(walkers[1..])
  }

  lemma {:induction false} ConsumedChange(walkers: seq<Walker>, i: nat, w: Walker)
    requires i < |walkers|
    ensures ConsumedTotal(walkers[i := w]) == ConsumedTotal(walkers) - Consumed(walkers[i]) + Consumed(w)
  {
    if i == 0 {
      assert walkers[0 := w][1..] == walkers[1..];
    } else {
      var j: nat := i - 1;
      ConsumedChange(walkers[1..], j, w);
      assert walkers[i := w][1..] == walkers[1..][j := w];
    }
  }

  lemma {:induction false} ConsumedBounded(a: seq<Walker>, b: seq<Walker>)
    requires |a| == |b| && forall i :: 0 <= i < |a| ==> Sound(a[i]) && a[i].names == b[i].names
    ensures ConsumedTotal(a) <= NamesTotal(b)
  {
    if a != [] {
      ConsumedBounded(a[1..], b[1..]);
      assert a[0].k <= |a[0].names|;
    }
  }

  lemma {:induction false} NothingConsumed(walkers: seq<Walker>)
    requires forall w :: w in walkers ==> w == Begin(w.create, w.names)
    ensures ConsumedTotal(walkers) == 0
  {
    if walkers != [] {
      assert walkers[0] in walkers;
      NothingConsumed(walkers[1..]);
    }
  }

  lemma CallSize(f0: Forest, f: Forest, w: Walker, service: Service)
    requires WalkInv(f0, f, w) && !Terminal(w)
    ensures var (f', reply) := Serve(f, Pending(w), service);
            |f'| - |f| <= Consumed(Handle(w, reply)) - Consumed(w)
  {
    hide Locate, Listing, FirstNamed, StoredPath, DistinctIds, UniqueSiblings, Rooted, Subseq, PathsSpelled;
    if w.stage.Creating? {
      CreateKeeps(f, IdOf(w.current), w.names[w.k], service.at);
      CreateReply(f, w, service);
    }
  }

  lemma {:induction false} ForestSize(s: System, moves: seq<Move>)
    requires Initial(s)
    ensures |Exec(s, moves).forest| <= |s.forest| + Outsides(moves) + ConsumedTotal(Exec(s, moves).walkers)
    decreases |moves|
  {
    hide WalkInv, WellFormed, Serve, Handle, Create, Subseq, PathsSpelled;
    if moves == [] {
      NothingConsumed(s.walkers);
    } else {
      var front, m := moves[..|moves| - 1], moves[|moves| - 1];
      var now := Exec(s, front);
      ForestSize(s, front);
      ReachableIsSafe(s, front);
      match m {
        case Outside(o) =>
          CreateKeeps(now.forest, o.parent, o.name, o.at);
        case Act(i, service) =>
          if CanAct(now, i) {
            CallSize(s.forest, now.forest, now.walkers[i], service);
            var w := now.walkers[i];
            ConsumedChange(now.walkers, i, Handle(w, Serve(now.forest, Pending(w), service).1));
          }
      }
    }
  }

  // ---------------------------------------------------------------- every turn brings the end closer

  /** Turns a walker needs at most while the forest holds at most `size` nodes. */
  function Left(w: Walker, size: nat): nat
    requires Sound(w)
  {
    match w.stage
    case Paging(first, _) => 3 * (|w.names| - w.k) + 2 + (if first <= size then size - first else 0)
    case Reading => 3 * (|w.names| - w.k) + 1
    case Creating => 3 * (|w.names| - w.k)
    case _ => 0
  }

  lemma CallDescends(f0: Forest, f: Forest, w: Walker, service: Service, size: nat)
    requires WalkInv(f0, f, w) && !Terminal(w) && |f| <= size
    ensures Left(Handle(w, Serve(f, Pending(w), service).1), size) < Left(w, size)
  {
    hide Locate, DistinctIds, UniqueSiblings, Rooted, Subseq, StoredPath, FirstNamed;
    var reply := Serve(f, Pending(w), service).1;
    if w.stage.Paging? {
      ListingLength(f, None);
      assert reply.Groups? ==> reply.groups == Page(Listing(f, None), w.stage.first, PAGE_SIZE);
    }
  }

  lemma {:induction false} TurnsDescend(s: System, moves: seq<Move>, i: nat, size: nat)
    requires Initial(s) && i < |s.walkers| && |Exec(s, moves).forest| <= size
    ensures var w := Exec(s, moves).walkers[i];
            && Sound(s.walkers[i]) && Sound(w)
            && (!Terminal(w) ==> Left(w, size) + Acts(moves, i) <= Left(s.walkers[i], size))
    decreases |moves|
  {
    hide WalkInv, WellFormed, Serve, Handle, Create, Subseq, PathsSpelled, Left;
    ReachableIsSafe(s, moves);
    SoundOf(s, Exec(s, moves), i);
    SoundOf(s, s, i) by {
      ReachableIsSafe(s, []);
    }
    if moves != [] {
      var front, m := moves[..|moves| - 1], moves[|moves| - 1];
      var now := Exec(s, front);
      ReachableIsSafe(s, front);
      Grows(s, now, m);
      TurnsDescend(s, front, i, size);
      if m.Act? && m.i == i && CanAct(now, i) {
        CallDescends(s.forest, now.forest, now.walkers[i], m.service, size);
      }
    }
  }

  lemma SoundOf(s0: System, s: System, i: nat)
    requires SystemInv(s0, s) && i < |s.walkers|
    ensures Sound(s.walkers[i])
  {}

  lemma Grows(s0: System, s: System, m: Move)
    requires SystemInv(s0, s)
    ensures |s.forest| <= |ExecOne(s, m).forest|
  {
    SubseqRefl(s.forest);
    match m {
      case Outside(o) => CreateKeeps(s.forest, o.parent, o.name, o.at);
      case Act(i, service) =>
        if CanAct(s, i) {
          ServeKeeps(s.forest, Pending(s.walkers[i]), service);
        }
    }
    SubseqLength(s.forest, ExecOne(s, m).forest);
  }

  // ---------------------------------------------------------------- everybody finishes

  lemma {:induction false} OwnShare(walkers: seq<Walker>, i: nat)
    requires i < |walkers|
    ensures |walkers[i].names| + 1 <= NamesTotal(walkers)
  {
    if i > 0 {
      OwnShare(walkers[1..], i - 1);
    }
  }

  /** A walker that gets enough turns finishes, whatever the others do and whatever fails:
      with the group, with nothing or with an error. */
  lemma EnoughTurnsFinish(s: System, moves: seq<Move>, i: nat)
    requires Initial(s) && i < |s.walkers| && Acts(moves, i) >= Enough(s, moves)
    ensures var w := Exec(s, moves).walkers[i]; w.stage == Done || w.stage == Absent || w.stage.Broken?
  {
    hide Exec, WalkInv, WellFormed, Subseq, PathsSpelled, Acts, Outsides, NamesTotal, ConsumedTotal;
    ForestSize(s, moves);
    ReachableIsSafe(s, moves);
    forall j | 0 <= j < |s.walkers| ensures Sound(Exec(s, moves).walkers[j]) {
      SoundOf(s, Exec(s, moves), j);
    }
    ConsumedBounded(Exec(s, moves).walkers, s.walkers);
    OwnShare(s.walkers, i);
    var size := |s.forest| + Outsides(moves) + NamesTotal(s.walkers);
    TurnsDescend(s, moves, i, size);
    assert s.walkers[i] in s.walkers;
  }

  lemma {:induction false} ActsConcat(a: seq<Move>, b: seq<Move>, i: nat)
    ensures Acts(a + b, i) == Acts(a, i) + Acts(b, i)
    ensures Outsides(a + b) == Outsides(a) + Outsides(b)
    decreases |b|
  {
    if b == [] {
      assert a + b == a;
    } else {
      ActsConcat(a, b[..|b| - 1], i);
      assert (a + b)[..|a + b| - 1] == a + b[..|b| - 1];
    }
  }

  /** From every reachable state: a continuation that gives every walker enough turns ends
      with all of them finished, and if every call of the run is delivered, each
      find-or-create walk holds its group or lost a race, and each find walk has its answer. */
  lemma FinishedFromAnywhere(s: System, moves: seq<Move>, more: seq<Move>, i: nat)
    requires Initial(s) && i < |s.walkers|
    requires forall j :: 0 <= j < |s.walkers| ==> Acts(more, j) >= Enough(s, moves + more)
    ensures var w := Exec(s, moves + more).walkers[i];
            && (w.stage == Done || w.stage == Absent || w.stage.Broken?)
            && (Delivered(moves + more) ==>
                  w.stage == Done || w.stage == if s.walkers[i].create then Broken(Conflict) else Absent)
  {
    hide Exec, WalkInv, WellFormed, Subseq, PathsSpelled, Delivered;
    ActsConcat(moves, more, i);
    EnoughTurnsFinish(s, moves + more, i);
    ReachableIsSafe(s, moves + more);
    AbsentFinds(s, Exec(s, moves + more), i);
    if Delivered(moves + more) && Exec(s, moves + more).walkers[i].stage.Broken? {
      DeliveredWalkLosesOnlyRaces(s, moves + more, i);
    }
  }

  lemma AbsentFinds(s0: System, s: System, i: nat)
    requires SystemInv(s0, s) && i < |s.walkers|
    ensures s.walkers[i].stage == Absent ==> !s0.walkers[i].create
  {
    assert WalkInv(s0.forest, s.forest, s.walkers[i]);
  }

  /** Everybody's turn once, and again. */
  function Round(n: nat): seq<Move>
  {
    if n == 0 then [] else Round(n - 1) + [Act(n - 1, QUIET_TURN.service)]
  }

  function Rounds(n: nat, r: nat): seq<Move>
  {
    if r == 0 then [] else Rounds(n, r - 1) + Round(n)
  }

  lemma {:induction false} RoundActs(n: nat, i: nat)
    ensures Acts(Round(n), i) == (if i < n then 1 else 0) && Outsides(Round(n)) == 0
    ensures forall m :: m in Round(n) ==> m.Act? && m.service.fault.Deliver?
  {
    if n > 0 {
      RoundActs(n - 1, i);
      assert Round(n)[..|Round(n)| - 1] == Round(n - 1);
    }
  }

  lemma NobodyActs(i: nat)
    ensures Acts([], i) == 0 && Outsides([]) == 0
  {}

  lemma {:induction false} RoundsAct(n: nat, r: nat, i: nat)
    ensures Acts(Rounds(n, r), i) == (if i < n then r else 0) && Outsides(Rounds(n, r)) == 0
    ensures forall m :: m in Rounds(n, r) ==> m.Act? && m.service.fault.Deliver?
  {
    hide Acts, Outsides, Round;
    if r == 0 {
      NobodyActs(i);
    } else {
      RoundsAct(n, r - 1, i);
      RoundActs(n, i);
      ActsConcat(Rounds(n, r - 1), Round(n), i);
    }
  }

  /** There is such a continuation from every reachable state: delivered turns, one walker
      after the other, round after round. If the calls so far were delivered as well, only a
      lost race keeps a find-or-create walk from its group. */
  lemma AllCanFinish(s: System, moves: seq<Move>) returns (more: seq<Move>)
    requires WellFormed(s.forest) && forall w :: w in s.walkers ==> w == Begin(w.create, w.names)
    ensures forall m :: m in more ==> m.Act? && m.service.fault.Deliver?
    ensures forall i :: 0 <= i < |s.walkers| ==>
              var w := Exec(s, moves + more).walkers[i];
              w.stage == Done || w.stage == Absent || w.stage.Broken?
    ensures (forall m :: m in moves && m.Act? ==> m.service.fault.Deliver?) ==>
              forall i :: 0 <= i < |s.walkers| ==>
                var w := Exec(s, moves + more).walkers[i];
                w.stage == Done || w.stage == if s.walkers[i].create then Broken(Conflict) else Absent
  {
    assert Initial(s);
    hide Exec, Acts, Outsides, Rounds, Initial, WellFormed, Begin;
    var n, r := |s.walkers|, Enough(s, moves);
    more := Rounds(n, r);
    RoundsAct(n, r, 0);
    forall j | 0 <= j < n ensures Acts(more, j) >= Enough(s, moves + more) {
      RoundsAct(n, r, j);
      ActsConcat(moves, more, j);
    }
    forall i | 0 <= i < n
      ensures var w := Exec(s, moves + more).walkers[i];
              && (w.stage == Done || w.stage == Absent || w.stage.Broken?)
              && (Delivered(moves + more) ==>
                    w.stage == Done || w.stage == if s.walkers[i].create then Broken(Conflict) else Absent)
    {
      FinishedFromAnywhere(s, moves, more, i);
    }
  }
}
