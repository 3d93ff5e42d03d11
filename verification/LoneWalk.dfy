/** The exact effect of a walk when nobody else writes: what it adds, what a crash leaves
    behind, and that a later run finishes the work. */
module LoneWalk {
  import opened Wrappers
  import opened Sequences
  import opened Forest
  import opened Pagination
  import opened GroupWalk
  import opened WalkSafety

  /** No other client creates anything. Calls may still fail in any way. */
  predicate Alone(world: World)
  {
    forall t :: t in world.turns ==> t.others == []
  }

  /** Every call is delivered and answered. */
  predicate Faultless(world: World)
  {
    forall t :: t in world.turns ==> t.service.fault.Deliver?
  }

  /** `n` is the node that the first `j` names lead to. */
  predicate NodeOfPrefix(f: Forest, names: seq<string>, j: nat, n: Node)
    requires 0 < j <= |names|
  {
    && Locate(f, names[..j - 1]).Some?
    && Locate(f, names[..j]) == Some(Ref(n.group))
    && n.parent == IdOf(Locate(f, names[..j - 1]).value)
  }

  predicate PathExists(f: Forest, p: seq<string>)
  {
    Locate(f, p).Some?
  }

  /** `f` is `f0` plus the missing nodes of `names[..m]`, one for each, and nothing else. */
  ghost predicate Chain(f0: Forest, f: Forest, names: seq<string>, m: nat)
  {
    var p0 := ExistingPrefix(f0, names);
    && p0 <= m <= |names|
    && WellFormed(f) && Subseq(f0, f)
    && |f| == |f0| + m - p0
    && (forall p :: PathExists(f, p) <==> PathExists(f0, p) || (|p| <= m && p == names[..|p|]))
    && (forall n :: n in f && n !in f0 ==> exists j :: p0 < j <= m && NodeOfPrefix(f, names, j, n))
  }

  lemma ChainStart(f: Forest, names: seq<string>)
    requires WellFormed(f)
    ensures Chain(f, f, names, ExistingPrefix(f, names))
  {
    SubseqRefl(f);
    var p0 := ExistingPrefix(f, names);
    forall p | |p| <= p0 && p == names[..|p|] ensures Locate(f, p).Some? {
      ExistingPrefixExact(f, names, |p|);
    }
  }

  lemma ChainPrefix(f0: Forest, f: Forest, names: seq<string>, m: nat)
    requires Chain(f0, f, names, m)
    ensures ExistingPrefix(f, names) == m
  {
    var e := ExistingPrefix(f, names);
    ExistingPrefixExact(f, names, m);
    ExistingPrefixExact(f, names, e);
    ExistingPrefixExact(f0, names, e);
    assert names[..m] == names[..|names[..m]|];
    assert Locate(f, names[..m]).Some?;
    assert Locate(f, names[..e]).Some?;
  }

  /** Creating the first missing name lengthens the chain by one node. */
  lemma ChainGrows(f0: Forest, f: Forest, names: seq<string>, m: nat, at: nat)
    requires Chain(f0, f, names, m) && m < |names|
    ensures Locate(f, names[..m]).Some?
    ensures var (f', r) := Create(f, IdOf(Locate(f, names[..m]).value), names[m], at);
            r.Ok? && Chain(f0, f', names, m + 1)
  {
    hide Locate, DistinctIds, UniqueSiblings, Rooted;
    ChainPrefix(f0, f, names, m);
    ExistingPrefixExact(f, names, m);
    ExistingPrefixExact(f, names, m + 1);
    TakeOneMore(names, m);
    var parent := Locate(f, names[..m]).value;
    CreateAt(f, names[..m], names[m], at);
    CreateKeeps(f, IdOf(parent), names[m], at);
    var f' := Create(f, IdOf(parent), names[m], at).0;
    SubseqTrans(f0, f, f');
    forall p ensures Locate(f', p).Some? <==> Locate(f0, p).Some? || (|p| <= m + 1 && p == names[..|p|]) {
      CreateEffect(f, names[..m], names[m], at, p);
      if |p| == m + 1 && p == names[..|p|] {
        assert p == names[..m + 1];
      }
    }
    ChainGrowsNodes(f0, f, names, m, at);
  }

  lemma ChainGrowsNodes(f0: Forest, f: Forest, names: seq<string>, m: nat, at: nat)
    requires Chain(f0, f, names, m) && m < |names|
    requires Locate(f, names[..m]).Some? && Locate(f, names[..m + 1]).None?
    ensures var f' := Create(f, IdOf(Locate(f, names[..m]).value), names[m], at).0;
            forall n :: n in f' && n !in f0 ==>
                exists j :: ExistingPrefix(f0, names) < j <= m + 1 && NodeOfPrefix(f', names, j, n)
  {
    TakeOneMore(names, m);
    var parent := Locate(f, names[..m]).value;
    CreateAt(f, names[..m], names[m], at);
    var f' := Create(f, IdOf(parent), names[m], at).0;
    var added := Node(IdOf(parent), LocalGroup(parent, FreshId(f), names[m]));
    forall n | n in f' && n !in f0
        ensures exists j :: ExistingPrefix(f0, names) < j <= m + 1 && NodeOfPrefix(f', names, j, n)
    {
      InsertMembers(f, at, added, n);
      if n == added {
        CreateEffect(f, names[..m], names[m], at, names[..m]);
        CreateEffect(f, names[..m], names[m], at, names[..m + 1]);
        assert NodeOfPrefix(f', names, m + 1, n);
      } else {
        var j :| ExistingPrefix(f0, names) < j <= m && NodeOfPrefix(f, names, j, n);
        CreateEffect(f, names[..m], names[m], at, names[..j]);
        CreateEffect(f, names[..m], names[m], at, names[..j - 1]);
        assert NodeOfPrefix(f', names, j, n);
      }
    }
  }

  // ---------------------------------------------------------------- the run

  /** How long the chain is at each stage; only a failed call can leave it one node ahead
      of the walker. */
  ghost predicate LoneStage(f0: Forest, f: Forest, w: Walker, m: nat)
    requires Sound(w)
  {
    var p0 := ExistingPrefix(f0, w.names);
    if !w.create then f == f0 && m == p0
    else if w.stage.Broken? then m == p0 >= w.k || m == w.k || m == w.k + 1
    else m == if p0 <= w.k then w.k else p0
  }

  ghost predicate LoneInv(f0: Forest, f: Forest, w: Walker, m: nat)
  {
    WalkInv(f0, f, w) && Chain(f0, f, w.names, m) && LoneStage(f0, f, w, m)
  }

  lemma ReadBreaksOnlyByFault(f: Forest, w: Walker, s: Service)
    requires Sound(w) && WellFormed(f) && Tracks(f, w) && (w.stage.Paging? || (w.stage.Reading? && w.current.Ref?))
    ensures var w' := Handle(w, Serve(f, Pending(w), s).1);
            w'.stage.Broken? ==> w'.stage.error == Transport && !s.fault.Deliver?
  {
    LocatedStoredPath(f, w.names[..w.k]);
  }

  /** A read leaves the forest as it is. */
  lemma ReadAlone(f0: Forest, f: Forest, w: Walker, m: nat, s: Service)
    requires LoneInv(f0, f, w, m) && (w.stage.Paging? || w.stage.Reading?)
    ensures var (f', reply) := Serve(f, Pending(w), s);
            f' == f && LoneInv(f0, f, Handle(w, reply), m)
  {
    ServedInv(f0, f, w, s);
    ServeKeeps(f, Pending(w), s);
    ChainPrefix(f0, f, w.names, m);
    var w' := Handle(w, Serve(f, Pending(w), s).1);
    ExistingPrefixExact(f, w.names, w'.k);
  }

  /** A create adds the next node of the chain, or is not performed at all. */
  lemma CreateAlone(f0: Forest, f: Forest, w: Walker, m: nat, s: Service) returns (m': nat)
    requires LoneInv(f0, f, w, m) && w.stage.Creating?
    ensures var (f', reply) := Serve(f, Pending(w), s);
            && LoneInv(f0, f', Handle(w, reply), m')
            && (Handle(w, reply).stage.Broken? ==> Handle(w, reply).stage.error == Transport && !s.fault.Deliver?)
  {
    hide WellFormed, Subseq, Locate;
    ServedInv(f0, f, w, s);
    CreateReply(f, w, s);
    ExistingPrefixExact(f0, w.names, w.k + 1);
    assert m == w.k;
    ChainGrows(f0, f, w.names, m, s.at);
    m' := if s.fault.DropRequest? then m else m + 1;
  }

  lemma StepAlone(f0: Forest, world: World, w: Walker, m: nat) returns (m': nat)
    requires LoneInv(f0, world.forest, w, m) && Alone(world)
    ensures var (world', w') := Step(world, w);
            && Alone(world') && (Faultless(world) ==> Faultless(world'))
            && LoneInv(f0, world'.forest, w', m')
            && (Terminal(w) ==> w' == w)
            && (w'.stage.Broken? && !w.stage.Broken? ==> w'.stage.error == Transport && !Faultless(world))
  {
    m' := m;
    if !Terminal(w) {
      var s := (if world.turns == [] then QUIET_TURN else world.turns[0]).service;
      var req := Pending(w);
      assert Step(world, w) == (Call(world, req).0, Handle(w, Call(world, req).1));
      if w.stage.Creating? {
        m' := CreateAlone(f0, world.forest, w, m, s);
      } else {
        ReadAlone(f0, world.forest, w, m, s);
        ReadBreaksOnlyByFault(world.forest, w, s);
      }
    }
  }

  lemma BeginAlone(f: Forest, create: bool, names: seq<string>) returns (m: nat)
    requires WellFormed(f)
    ensures LoneInv(f, f, Begin(create, names), m) && !Begin(create, names).stage.Broken?
  {
    BeginInv(f, create, names);
    m := ExistingPrefix(f, names);
    ChainStart(f, names);
  }

  /** Alone, a run is at every point the initial forest plus an initial run of the missing
      nodes, and a duplicate is never refused. */
  lemma {:induction false} RunAlone(world: World, create: bool, names: seq<string>, n: nat) returns (m: nat)
    requires WellFormed(world.forest) && Alone(world)
    ensures var (world', w) := Run(world, Begin(create, names), n);
            && Alone(world') && (Faultless(world) ==> Faultless(world'))
            && LoneInv(world.forest, world'.forest, w, m)
            && (w.stage.Broken? ==> w.stage.error == Transport && !Faultless(world))
  {
    hide WellFormed, Step, LoneInv, Alone, Faultless;
    if n == 0 {
      m := BeginAlone(world.forest, create, names);
    } else {
      var m1 := RunAlone(world, create, names, n - 1);
      var (world1, w1) := Run(world, Begin(create, names), n - 1);
      m := StepAlone(world.forest, world1, w1, m1);
    }
  }

  /** How many of a walk's first `n` calls ask for a create. */
  function CreateCalls(world: World, w: Walker, n: nat): nat
    requires Sound(w)
  {
    if n == 0 then 0
    else CreateCalls(world, w, n - 1) + (if Run(world, w, n - 1).1.stage.Creating? then 1 else 0)
  }

  /** A step that asks for a create and does not fail adds one node; no other step adds any,
      unless it fails. */
  lemma CreateAddsOne(f0: Forest, world: World, w: Walker, m: nat)
    requires LoneInv(f0, world.forest, w, m) && Alone(world)
    ensures var (world', w') := Step(world, w);
            && (!w.stage.Creating? ==> world'.forest == world.forest)
            && (w.stage.Creating? && !w'.stage.Broken? ==> |world'.forest| == |world.forest| + 1)
            && (w.stage.Creating? ==> |world.forest| <= |world'.forest| <= |world.forest| + 1)
  {
    var m' := StepAlone(f0, world, w, m);
    if !Terminal(w) {
      var s := (if world.turns == [] then QUIET_TURN else world.turns[0]).service;
      if w.stage.Creating? {
        CreateSize(f0, world.forest, w, m, s);
      } else {
        ReadAlone(f0, world.forest, w, m, s);
      }
    }
  }

  lemma CreateSize(f0: Forest, f: Forest, w: Walker, m: nat, s: Service)
    requires LoneInv(f0, f, w, m) && w.stage.Creating?
    ensures var (f', reply) := Serve(f, Pending(w), s);
            && |f| <= |f'| <= |f| + 1
            && (!Handle(w, reply).stage.Broken? ==> |f'| == |f| + 1)
  {
    hide WellFormed, Subseq, Locate, Listing, FirstNamed, StoredPath;
    ExistingPrefixExact(f0, w.names, w.k + 1);
    ChainGrows(f0, f, w.names, m, s.at);
  }

  /** Alone, every create call adds its node, but for one that failed. */
  lemma {:induction false} CreatesCounted(world: World, create: bool, names: seq<string>, n: nat)
    requires WellFormed(world.forest) && Alone(world)
    ensures var (world', w) := Run(world, Begin(create, names), n);
            var added := |world'.forest| - |world.forest|;
            && added <= CreateCalls(world, Begin(create, names), n) <= added + 1
            && (!w.stage.Broken? ==> CreateCalls(world, Begin(create, names), n) == added)
  {
    hide LoneInv, Step, Alone, WellFormed;
    if n > 0 {
      CreatesCounted(world, create, names, n - 1);
      var m := RunAlone(world, create, names, n - 1);
      var (world1, w1) := Run(world, Begin(create, names), n - 1);
      CreateAddsOne(world.forest, world1, w1, m);
      TerminalStays(world1, w1);
    }
  }

  lemma TerminalStays(world: World, w: Walker)
    requires Sound(w)
    ensures Terminal(w) ==> Step(world, w) == (world, w)
  {}

  /** Find-or-create adds exactly the nodes after the longest existing prefix, one each,
      with as many create calls, and leaves every other node as it was. Wherever it stops,
      what it added is an initial run of those nodes: even a create whose reply was lost,
      or a walk that is cut off. */
  lemma FindOrCreateEffect(world: World, names: seq<string>, n: nat)
    requires WellFormed(world.forest) && Alone(world)
    ensures var (world', w) := Run(world, Begin(true, names), n);
            && Chain(world.forest, world'.forest, names, ExistingPrefix(world'.forest, names))
            && (w.stage.Done? ==>
                  && Chain(world.forest, world'.forest, names, |names|)
                  && CreateCalls(world, Begin(true, names), n) == |names| - ExistingPrefix(world.forest, names))
            && !w.stage.Absent?
            && w.stage != Broken(Conflict)
  {
    var m := RunAlone(world, true, names, n);
    ChainPrefix(world.forest, Run(world, Begin(true, names), n).0.forest, names, m);
    BeginInv(world.forest, true, names);
    RunInv(world.forest, world, Begin(true, names), n);
    CreatesCounted(world, true, names, n);
  }

  /** After a crash at any point, a later finished run reaches the same name paths, with
      the same number of nodes, as a run that was never interrupted. */
  lemma ResumedRunCatchesUp(world: World, names: seq<string>, crash: nat, resumed: World, n: nat,
        uninterrupted: World, u: nat, p: seq<string>)
    requires WellFormed(world.forest) && Alone(world) && Alone(resumed) && Alone(uninterrupted)
    requires resumed.forest == Run(world, Begin(true, names), crash).0.forest
    requires uninterrupted.forest == world.forest
    requires Run(resumed, Begin(true, names), n).1.stage.Done?
    requires Run(uninterrupted, Begin(true, names), u).1.stage.Done?
    ensures var f, g := Run(resumed, Begin(true, names), n).0.forest,
            Run(uninterrupted, Begin(true, names), u).0.forest;
            |f| == |g| && (Locate(f, p).Some? <==> Locate(g, p).Some?)
  {
    FindOrCreateEffect(world, names, crash);
    FindOrCreateEffect(uninterrupted, names, u);
    FindOrCreateEffect(resumed, names, n);
    assert |p| <= |names| && p == names[..|p|] ==>
      Locate(Run(resumed, Begin(true, names), n).0.forest, p).Some?;
  }

  /** The find walk never writes. It reports a node only if the path leads there, absence
      only if it leads nowhere, and without faults it does not fail. */
  lemma FindIsExact(world: World, names: seq<string>, n: nat)
    requires WellFormed(world.forest) && Alone(world)
    ensures var (world', w) := Run(world, Begin(false, names), n);
            && world'.forest == world.forest
            && (w.stage.Done? ==> Locate(world.forest, names) == Some(w.current))
            && (w.stage.Absent? ==> Locate(world.forest, names).None?)
            && (Faultless(world) ==> !w.stage.Broken?)
  {
    var m := RunAlone(world, false, names, n);
    WalkReturnsTheNode(world, false, names, n);
  }

  /** On a path that exists already, both walks change nothing and return its node. */
  lemma ExistingPathUntouched(world: World, create: bool, names: seq<string>, n: nat)
    requires WellFormed(world.forest) && Alone(world) && Locate(world.forest, names).Some?
    ensures var (world', w) := Run(world, Begin(create, names), n);
            && world'.forest == world.forest
            && !w.stage.Absent?
            && (w.stage.Done? ==> Some(w.current) == Locate(world.forest, names))
  {
    var m := RunAlone(world, create, names, n);
    WalkReturnsTheNode(world, create, names, n);
    var (world', w) := Run(world, Begin(create, names), n);
    ExistingPrefixExact(world.forest, names, |names|);
    assert names[..|names|] == names;
    SubseqLength(world.forest, world'.forest);
  }

  /** Reading back what find-or-create returned: a later find, and a second find-or-create,
      give the same group and change nothing. */
  lemma SecondWalkAgrees(world: World, names: seq<string>, n: nat, later: World, create: bool, l: nat)
    requires WellFormed(world.forest) && Run(world, Begin(true, names), n).1.stage.Done?
    requires Alone(later) && later.forest == Run(world, Begin(true, names), n).0.forest
    ensures var (later', w) := Run(later, Begin(create, names), l);
            && later'.forest == later.forest
            && !w.stage.Absent?
            && (w.stage.Done? ==> w.current == Run(world, Begin(true, names), n).1.current)
  {
    WalkReturnsTheNode(world, true, names, n);
    ExistingPathUntouched(later, create, names, l);
  }

  // ---------------------------------------------------------------- every walk ends

  function PendingCreates(turns: seq<Turn>): nat
  {
    if turns == [] then 0 else |turns[0].others| + PendingCreates(turns[1..])
  }

  /** No listing of this run will ever be longer. */
  function Bound(world: World): nat
  {
    |world.forest| + PendingCreates(world.turns)
  }

  lemma CallBound(world: World, req: Request)
    requires WellFormed(world.forest) && !req.CreateGroup?
    ensures Bound(Call(world, req).0) <= Bound(world)
  {
    var turn := if world.turns == [] then QUIET_TURN else world.turns[0];
    ApplyAllKeeps(world.forest, turn.others);
    ServeKeeps(ApplyAll(world.forest, turn.others), req, turn.service);
  }

  function Rank(w: Walker): nat
  {
    match w.stage
    case Paging(_, _) => 3
    case Reading => 2
    case Creating => 1
    case _ => 0
  }

  function PagesAhead(world: World, w: Walker): nat
  {
    if w.stage.Paging? && w.stage.first <= Bound(world) then Bound(world) + 1 - w.stage.first else 0
  }

  lemma {:induction false} RunFront(world: World, w: Walker, n: nat)
    requires Sound(w)
    ensures var (world1, w1) := Step(world, w);
            Run(world, w, n + 1) == Run(world1, w1, n)
  {
    if n == 0 {
      assert Run(world, w, 0) == (world, w);
    } else {
      RunFront(world, w, n - 1);
    }
  }

  lemma PagingShrinks(f0: Forest, world: World, w: Walker)
    requires WalkInv(f0, world.forest, w) && w.stage.Paging?
    ensures var (world', w') := Step(world, w);
            w'.stage.Paging? ==> w'.k == w.k && PagesAhead(world', w') < PagesAhead(world, w)
  {
    hide WellFormed, ApplyAll, Knows, Tracks, Listing, FirstNamed, Subseq, PathsSpelled;
    var req := Pending(w);
    CallBound(world, req);
    var (world', reply) := Call(world, req);
    ListingLength(world'.forest, None);
    var turn := if world.turns == [] then QUIET_TURN else world.turns[0];
    assert world'.forest == ApplyAll(world.forest, turn.others);
    assert reply.Groups? ==> reply.groups == Page(Listing(world'.forest, None), w.stage.first, PAGE_SIZE);
  }

  lemma StepDescends(f0: Forest, world: World, w: Walker)
    requires WalkInv(f0, world.forest, w) && !Terminal(w)
    ensures var (world', w') := Step(world, w);
            || w'.k > w.k
            || (w'.k == w.k && Rank(w') < Rank(w))
            || (w'.k == w.k && Rank(w') == Rank(w) && PagesAhead(world', w') < PagesAhead(world, w))
  {
    if w.stage.Paging? {
      PagingShrinks(f0, world, w);
    }
  }

  ghost predicate Ends(world: World, w: Walker)
    requires Sound(w)
  {
    exists n: nat :: Terminal(Run(world, w, n).1)
  }

  lemma EndsNow(world: World, w: Walker)
    requires Sound(w) && Terminal(w)
    ensures Ends(world, w)
  {
    assert Terminal(Run(world, w, 0).1);
  }

  /** Whatever ends the walk from the next call on ends it from here. */
  lemma OneStepCloser(f0: Forest, world: World, w: Walker) returns (world': World, w': Walker)
    requires WalkInv(f0, world.forest, w) && !Terminal(w)
    ensures WalkInv(f0, world'.forest, w') && |w'.names| == |w.names|
    ensures || w'.k > w.k
            || (w'.k == w.k && Rank(w') < Rank(w))
            || (w'.k == w.k && Rank(w') == Rank(w) && PagesAhead(world', w') < PagesAhead(world, w))
    ensures Ends(world', w') ==> Ends(world, w)
  {
    StepInv(f0, world, w);
    StepDescends(f0, world, w);
    world', w' := Step(world, w).0, Step(world, w).1;
    if Ends(world', w') {
      var n: nat :| Terminal(Run(world', w', n).1);
      RunFront(world, w, n);
    }
  }

  lemma {:induction false} WalkEndsWithin(f0: Forest, world: World, w: Walker, names: nat, rank: nat, pages: nat)
    requires WalkInv(f0, world.forest, w)
    requires names == |w.names| - w.k && rank == Rank(w) && pages == PagesAhead(world, w)
    ensures Ends(world, w)
    decreases names, rank, pages
  {
    if Terminal(w) {
      EndsNow(world, w);
    } else {
      var world1, w1 := OneStepCloser(f0, world, w);
      WalkEndsWithin(f0, world1, w1, |w1.names| - w1.k, Rank(w1), PagesAhead(world1, w1));
    }
  }

  /** Every walk ends after finitely many calls, whatever happens around it. */
  lemma WalkEnds(world: World, create: bool, names: seq<string>)
    requires WellFormed(world.forest)
    ensures Ends(world, Begin(create, names))
  {
    var w := Begin(create, names);
    BeginInv(world.forest, create, names);
    WalkEndsWithin(world.forest, world, w, |names|, Rank(w), PagesAhead(world, w));
  }

  /** Undisturbed, find-or-create finishes with the whole path in place. */
  lemma FindOrCreateCompletes(world: World, names: seq<string>) returns (n: nat)
    requires WellFormed(world.forest) && Alone(world) && Faultless(world)
    ensures var (world', w) := Run(world, Begin(true, names), n);
            && w.stage.Done?
            && Chain(world.forest, world'.forest, names, |names|)
            && Locate(world'.forest, names) == Some(w.current)
  {
    WalkEnds(world, true, names);
    n :| Terminal(Run(world, Begin(true, names), n).1);
    var m := RunAlone(world, true, names, n);
    FindOrCreateEffect(world, names, n);
    WalkReturnsTheNode(world, true, names, n);
  }
}
