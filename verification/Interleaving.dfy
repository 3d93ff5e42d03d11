/** Any number of walks at once. Each remote call is one atomic step, the walkers and other
    clients take turns in any order, and any call may fail. */
module Interleaving {
  import opened Forest
  import opened GroupWalk
  import opened LoneWalk
  import opened Pagination
  import opened Retries
  import opened Sequences
  import opened WalkSafety
  import opened Wrappers

  datatype System = System(forest: Forest, walkers: seq<Walker>)

  /** Who moves next: a walker with its next call, or some other client with a create. */
  datatype Move = Act(i: nat, service: Service) | Outside(other: Other)

  predicate CanAct(s: System, i: nat)
  {
    i < |s.walkers| && Sound(s.walkers[i]) && !Terminal(s.walkers[i])
  }

  function ExecOne(s: System, m: Move): (n: System)
    ensures |n.walkers| == |s.walkers|
  {
    match m
    case Outside(o) => s.(forest := Create(s.forest, o.parent, o.name, o.at).0)
    case Act(i, service) =>
      if CanAct(s, i) then
        var (f, reply) := Serve(s.forest, Pending(s.walkers[i]), service);
        System(f, s.walkers[i := Handle(s.walkers[i], reply)])
      else s
  }

  function Exec(s: System, moves: seq<Move>): (n: System)
    ensures |n.walkers| == |s.walkers|
    decreases |moves|
  {
    if moves == [] then s else ExecOne(Exec(s, moves[..|moves| - 1]), moves[|moves| - 1])
  }

  /** Nothing keeps an unfinished walker from its turn: its call is served and its reply
      handled, whichever walker it is. Only a finished one stands still. */
  lemma EveryTurnCounts(s0: System, s: System, i: nat, service: Service)
    requires SystemInv(s0, s) && i < |s.walkers|
    ensures var w, next := s.walkers[i], ExecOne(s, Act(i, service));
            if w.stage == Done || w.stage == Absent || w.stage.Broken? then next == s
            else
              && Sound(w) && !Terminal(w)
              && (var (f, reply) := Serve(s.forest, Pending(w), service);
                  next == System(f, s.walkers[i := Handle(w, reply)]))
  {
    assert WalkInv(s0.forest, s.forest, s.walkers[i]);
  }

  lemma ForeignCreateCounts(s: System, o: Other)
    ensures ExecOne(s, Outside(o)) == System(Create(s.forest, o.parent, o.name, o.at).0, s.walkers)
  {}

  ghost predicate Initial(s: System)
  {
    WellFormed(s.forest) && forall w :: w in s.walkers ==> w == Begin(w.create, w.names)
  }

  ghost predicate SystemInv(s0: System, s: System)
  {
    && WellFormed(s.forest) && Subseq(s0.forest, s.forest)
    && (PathsSpelled(s0.forest) ==> PathsSpelled(s.forest))
    && |s.walkers| == |s0.walkers|
    && (forall i :: 0 <= i < |s.walkers| ==>
          && WalkInv(s0.forest, s.forest, s.walkers[i])
          && s.walkers[i].names == s0.walkers[i].names && s.walkers[i].create == s0.walkers[i].create)
  }

  lemma ExecOneKeeps(s0: System, s: System, m: Move)
    requires SystemInv(s0, s)
    ensures SystemInv(s0, ExecOne(s, m))
  {
    var s' := ExecOne(s, m);
    match m {
      case Outside(o) =>
        CreateKeeps(s.forest, o.parent, o.name, o.at);
      case Act(i, service) =>
        SubseqRefl(s.forest);
        if CanAct(s, i) {
          ServeKeeps(s.forest, Pending(s.walkers[i]), service);
          ServedInv(s0.forest, s.forest, s.walkers[i], service);
        }
    }
    SubseqTrans(s0.forest, s.forest, s'.forest);
    forall j | 0 <= j < |s'.walkers|
      ensures WalkInv(s0.forest, s'.forest, s'.walkers[j])
      ensures s'.walkers[j].names == s0.walkers[j].names && s'.walkers[j].create == s0.walkers[j].create
    {
      if s'.walkers[j] == s.walkers[j] {
        WalkSurvivesGrowth(s0.forest, s.forest, s'.forest, s.walkers[j]);
      }
    }
  }

  /** Every reachable forest is well formed, and every walker holds, at every moment, the
      node for the names it has consumed. */
  lemma {:induction false} ReachableIsSafe(s: System, moves: seq<Move>)
    requires Initial(s)
    ensures SystemInv(s, Exec(s, moves))
    decreases |moves|
  {
    if moves == [] {
      SubseqRefl(s.forest);
      forall i | 0 <= i < |s.walkers| ensures WalkInv(s.forest, s.forest, s.walkers[i]) {
        assert s.walkers[i] in s.walkers;
        BeginInv(s.forest, s.walkers[i].create, s.walkers[i].names);
      }
    } else {
      ReachableIsSafe(s, moves[..|moves| - 1]);
      ExecOneKeeps(s, Exec(s, moves[..|moves| - 1]), moves[|moves| - 1]);
    }
  }

  /** Two walkers that finish on the same names return the same group, and there is just
      one node at that name path. */
  lemma FinishedWalkersAgree(s: System, moves: seq<Move>, i: nat, j: nat)
    requires Initial(s) && i < |s.walkers| && j < |s.walkers|
    requires s.walkers[i].names == s.walkers[j].names
    requires Exec(s, moves).walkers[i].stage.Done? && Exec(s, moves).walkers[j].stage.Done?
    ensures Exec(s, moves).walkers[i].current == Exec(s, moves).walkers[j].current
    ensures var (f, names) := (Exec(s, moves).forest, s.walkers[i].names);
            forall a, b :: LeadsTo(f, names, a) && LeadsTo(f, names, b) ==> a == b
  {
    ReachableIsSafe(s, moves);
    var s' := Exec(s, moves);
    assert WalkInv(s.forest, s'.forest, s'.walkers[i]) && WalkInv(s.forest, s'.forest, s'.walkers[j]);
    forall a, b | LeadsTo(s'.forest, s.walkers[i].names, a) && LeadsTo(s'.forest, s.walkers[i].names, b)
        ensures a == b
    {
      NamePathOnce(s'.forest, s.walkers[i].names, a, b);
    }
  }

  // ---------------------------------------------------------------- what a run adds

  /** The move may bring about the name path: some other client's create, or a find-or-create
      walk on names that begin with it. */
  predicate Accounts(s: System, m: Move, p: seq<string>)
  {
    match m
    case Outside(_) => true
    case Act(i, _) =>
      i < |s.walkers| && s.walkers[i].create && |p| <= |s.walkers[i].names| && p == s.walkers[i].names[..|p|]
  }

  lemma CallAddsOwnPath(f0: Forest, f: Forest, w: Walker, service: Service, p: seq<string>)
    requires WalkInv(f0, f, w) && !Terminal(w)
    requires Locate(f, p).None? && Locate(Serve(f, Pending(w), service).0, p).Some?
    ensures w.create && w.k < |w.names| && p == w.names[..w.k + 1]
  {
    hide Locate, Listing, FirstNamed, StoredPath, DistinctIds, UniqueSiblings, Rooted, Subseq, HasId, PathsSpelled;
    if w.stage.Creating? {
      CreateAt(f, w.names[..w.k], w.names[w.k], service.at);
      TakeOneMore(w.names, w.k);
      if Locate(f, w.names[..w.k + 1]).None? {
        CreateEffect(f, w.names[..w.k], w.names[w.k], service.at, p);
      }
    }
  }

  /** Every name path that a run adds appears in one move, which accounts for it. */
  lemma {:induction false} NewPathsAccounted(s: System, moves: seq<Move>, p: seq<string>) returns (j: nat)
    requires Initial(s) && Locate(s.forest, p).None? && Locate(Exec(s, moves).forest, p).Some?
    ensures j < |moves| && Accounts(s, moves[j], p)
    ensures Locate(Exec(s, moves[..j]).forest, p).None? && Locate(Exec(s, moves[..j + 1]).forest, p).Some?
    decreases |moves|
  {
    hide Locate, WalkInv, Serve, Create;
    j := |moves| - 1;
    var front, m := moves[..j], moves[j];
    var now := Exec(s, front);
    assert moves[..j + 1] == moves;
    if Locate(now.forest, p).Some? {
      var i := NewPathsAccounted(s, front, p);
      assert front[..i] == moves[..i] && front[..i + 1] == moves[..i + 1];
      j := i;
    } else if m.Act? {
      ReachableIsSafe(s, front);
      assert CanAct(now, m.i);
      CallAddsOwnPath(s.forest, now.forest, now.walkers[m.i], m.service, p);
    }
  }

  /** With nobody else around, a run adds only paths that its find-or-create walks are for. */
  lemma OnlyOwnPaths(s: System, moves: seq<Move>, p: seq<string>)
    requires Initial(s) && Locate(s.forest, p).None? && Locate(Exec(s, moves).forest, p).Some?
    requires forall m :: m in moves ==> m.Act?
    ensures exists i :: 0 <= i < |s.walkers| && s.walkers[i].create &&
                        |p| <= |s.walkers[i].names| && p == s.walkers[i].names[..|p|]
  {
    var j := NewPathsAccounted(s, moves, p);
    assert moves[j] in moves;
  }

  // ---------------------------------------------------------------- one walker's view

  /** The creates a move performs, as some other client sees them. */
  function Creates(s: System, m: Move): seq<Other>
  {
    match m
    case Outside(o) => [o]
    case Act(i, service) =>
      if CanAct(s, i) && Pending(s.walkers[i]).CreateGroup? && !service.fault.DropRequest? then
        [Other(Pending(s.walkers[i]).parent, Pending(s.walkers[i]).name, service.at)]
      else []
  }

  /** The turns of walker `i`, and the creates by others since its last call. */
  function View(s: System, moves: seq<Move>, i: nat): (seq<Turn>, seq<Other>)
    decreases |moves|
  {
    if moves == [] then ([], [])
    else
      var front, m := moves[..|moves| - 1], moves[|moves| - 1];
      var (turns, since) := View(s, front, i);
      var now := Exec(s, front);
      if m.Act? && m.i == i && CanAct(now, i) then (turns + [Turn(since, m.service)], [])
      else (turns, since + Creates(now, m))
  }

  lemma {:induction false} ApplyMore(f: Forest, a: seq<Other>, b: seq<Other>)
    ensures ApplyAll(f, a + b) == ApplyAll(ApplyAll(f, a), b)
    decreases |a|
  {
    if a == [] {
      assert a + b == b;
    } else {
      ApplyMore(Create(f, a[0].parent, a[0].name, a[0].at).0, a[1..], b);
      assert (a + b)[1..] == a[1..] + b;
    }
  }

  /** Turns to come do not matter to the calls before them. */
  lemma {:induction false} RunIgnoresLater(f: Forest, turns: seq<Turn>, more: seq<Turn>, w: Walker, n: nat)
    requires Sound(w) && n <= |turns|
    ensures var (world, w1) := Run(World(f, turns), w, n);
            && Run(World(f, turns + more), w, n) == (World(world.forest, world.turns + more), w1)
            && |world.turns| >= |turns| - n
  {
    hide Step;
    if n > 0 {
      RunIgnoresLater(f, turns, more, w, n - 1);
      var (world, w1) := Run(World(f, turns), w, n - 1);
      StepIgnoresLater(world, more, w1);
    }
  }

  lemma StepIgnoresLater(world: World, more: seq<Turn>, w: Walker)
    requires Sound(w) && world.turns != []
    ensures var (world', w') := Step(world, w);
            && Step(World(world.forest, world.turns + more), w) == (World(world'.forest, world'.turns + more), w')
            && |world'.turns| >= |world.turns| - 1
  {
    assert (world.turns + more)[0] == world.turns[0];
    assert (world.turns + more)[1..] == world.turns[1..] + more;
  }

  /** The forest and the walker agree with the walker's own view of the run. */
  ghost predicate Matches(s: System, now: System, i: nat, turns: seq<Turn>, since: seq<Other>)
    requires i < |s.walkers| && Sound(s.walkers[i])
  {
    && |now.walkers| == |s.walkers|
    && (var (world, w) := Run(World(s.forest, turns), s.walkers[i], |turns|);
        world.turns == [] && w == now.walkers[i] && now.forest == ApplyAll(world.forest, since))
  }

  lemma LastTurn(f: Forest, turn: Turn, w: Walker, now: Forest)
    requires Sound(w) && !Terminal(w) && now == ApplyAll(f, turn.others)
    ensures var (f', reply) := Serve(now, Pending(w), turn.service);
            Step(World(f, [] + [turn]), w) == (World(f', []), Handle(w, reply))
  {
    hide Serve, Handle, Pending;
    assert ([] + [turn])[0] == turn && ([] + [turn])[1..] == [];
  }

  lemma OwnCallMatches(s: System, now: System, i: nat, turns: seq<Turn>, since: seq<Other>, service: Service)
    requires i < |s.walkers| && Sound(s.walkers[i]) && Matches(s, now, i, turns, since) && CanAct(now, i)
    ensures Matches(s, ExecOne(now, Act(i, service)), i, turns + [Turn(since, service)], [])
  {
    hide Step, Call, Serve, Handle;
    var turn := Turn(since, service);
    RunIgnoresLater(s.forest, turns, [turn], s.walkers[i], |turns|);
    var (world, w) := Run(World(s.forest, turns), s.walkers[i], |turns|);
    var last := World(world.forest, [] + [turn]);
    LastTurn(world.forest, turn, w, now.forest);
    assert Run(World(s.forest, turns + [turn]), s.walkers[i], |turns|) == (last, w);
    assert |turns + [turn]| == |turns| + 1;
    assert Run(World(s.forest, turns + [turn]), s.walkers[i], |turns| + 1) == Step(last, w);
  }

  /** A walk among others is a lone walk whose turns carry the others' creates: whatever is
      proved of one walk in every world holds of each walker of every interleaved run. */
  lemma {:induction false} WalkerRunsInAWorld(s: System, moves: seq<Move>, i: nat)
    requires i < |s.walkers| && Sound(s.walkers[i])
    ensures Matches(s, Exec(s, moves), i, View(s, moves, i).0, View(s, moves, i).1)
    decreases |moves|
  {
    if moves != [] {
      var front, m := moves[..|moves| - 1], moves[|moves| - 1];
      WalkerRunsInAWorld(s, front, i);
      var now := Exec(s, front);
      var (turns, since) := View(s, front, i);
      if m.Act? && m.i == i && CanAct(now, i) {
        OwnCallMatches(s, now, i, turns, since, m.service);
      } else {
        ApplyMore(Run(World(s.forest, turns), s.walkers[i], |turns|).0.forest, since, Creates(now, m));
      }
    }
  }

  predicate Delivered(moves: seq<Move>)
  {
    forall m :: m in moves && m.Act? ==> m.service.fault.Deliver?
  }

  lemma {:induction false} ViewDelivered(s: System, moves: seq<Move>, i: nat)
    requires Delivered(moves)
    ensures forall t :: t in View(s, moves, i).0 ==> t.service.fault.Deliver?
    decreases |moves|
  {
    if moves != [] {
      assert moves[|moves| - 1] in moves;
      ViewDelivered(s, moves[..|moves| - 1], i);
    }
  }

  /** While every call is delivered, a walk among others breaks only because somebody else
      was first to create what it was about to create, and a find walk not at all. */
  lemma DeliveredWalkLosesOnlyRaces(s: System, moves: seq<Move>, i: nat)
    requires Initial(s) && i < |s.walkers| && Delivered(moves)
    requires Exec(s, moves).walkers[i].stage.Broken?
    ensures Exec(s, moves).walkers[i].stage.error == Conflict && s.walkers[i].create
  {
    hide Exec, Run, WellFormed, View;
    assert s.walkers[i] in s.walkers;
    WalkerRunsInAWorld(s, moves, i);
    ViewDelivered(s, moves, i);
    var turns := View(s, moves, i).0;
    FaultlessWalkBreaksOnlyByConflict(World(s.forest, turns), s.walkers[i].create, s.walkers[i].names, |turns|);
  }
}
