/** What a walk keeps while any number of other clients create groups between its calls. */
module WalkSafety {
  import opened Wrappers
  import opened Sequences
  import opened Forest
  import opened Pagination
  import opened GroupWalk

  lemma {:induction false} ApplyAllKeeps(f: Forest, others: seq<Other>)
    requires WellFormed(f)
    ensures WellFormed(ApplyAll(f, others)) && Subseq(f, ApplyAll(f, others))
    ensures PathsSpelled(f) ==> PathsSpelled(ApplyAll(f, others))
    ensures |ApplyAll(f, others)| <= |f| + |others|
    decreases |others|
  {
    SubseqRefl(f);
    if others != [] {
      var f1 := Create(f, others[0].parent, others[0].name, others[0].at).0;
      CreateKeeps(f, others[0].parent, others[0].name, others[0].at);
      ApplyAllKeeps(f1, others[1..]);
      SubseqTrans(f, f1, ApplyAll(f1, others[1..]));
    }
  }

  lemma ServeKeeps(f: Forest, req: Request, s: Service)
    requires WellFormed(f)
    ensures WellFormed(Serve(f, req, s).0) && Subseq(f, Serve(f, req, s).0)
    ensures PathsSpelled(f) ==> PathsSpelled(Serve(f, req, s).0)
    ensures |Serve(f, req, s).0| <= |f| + 1
    ensures !req.CreateGroup? ==> Serve(f, req, s).0 == f
  {
    SubseqRefl(f);
    if req.CreateGroup? {
      CreateKeeps(f, req.parent, req.name, s.at);
    }
  }

  lemma CallKeeps(w: World, req: Request)
    requires WellFormed(w.forest)
    ensures WellFormed(Call(w, req).0.forest) && Subseq(w.forest, Call(w, req).0.forest)
    ensures PathsSpelled(w.forest) ==> PathsSpelled(Call(w, req).0.forest)
  {
    var turn := if w.turns == [] then QUIET_TURN else w.turns[0];
    var f1 := ApplyAll(w.forest, turn.others);
    ApplyAllKeeps(w.forest, turn.others);
    ServeKeeps(f1, req, turn.service);
    SubseqTrans(w.forest, f1, Serve(f1, req, turn.service).0);
  }

  // ---------------------------------------------------------------- the walk's invariant

  /** `current` is the node that the consumed names lead to. */
  predicate Tracks(f: Forest, w: Walker)
    requires Sound(w)
  {
    Locate(f, w.names[..w.k]) == Some(w.current)
  }

  /** What a walk that began in forest `f0` knows at each stage. */
  ghost predicate Knows(f0: Forest, f: Forest, w: Walker)
    requires Sound(w)
  {
    match w.stage
    case Paging(first, all) =>
      && w.k == 0
      && (forall g :: g in Listing(f0, None) ==> SeenOrAhead(g, all, Listing(f, None), first))
      && (forall g :: g in all ==> g in Listing(f, None))
    case Reading => w.current.Ref?
    case Creating => w.create && Locate(f0, w.names[..w.k + 1]).None?
    case Done => w.k == |w.names|
    case Absent => !w.create && w.k < |w.names| && Locate(f0, w.names[..w.k + 1]).None?
    case Broken(error) =>
      error == Conflict ==>
        && w.create && w.k < |w.names|
        && Locate(f0, w.names[..w.k + 1]).None?
        && Locate(f, w.names[..w.k + 1]).Some?
  }

  ghost predicate WalkInv(f0: Forest, f: Forest, w: Walker)
  {
    Sound(w) && WellFormed(f) && Subseq(f0, f) && Tracks(f, w) && Knows(f0, f, w)
  }

  /** Creates by others never disturb a walk. */
  lemma WalkSurvivesGrowth(f0: Forest, f: Forest, f': Forest, w: Walker)
    requires WalkInv(f0, f, w) && WellFormed(f') && Subseq(f, f')
    ensures WalkInv(f0, f', w)
  {
    SubseqTrans(f0, f, f');
    LocateStable(f, f', w.names[..w.k]);
    match w.stage
    case Paging(first, all) =>
      ListingSubseq(f, f', None);
      forall g | g in Listing(f0, None) ensures SeenOrAhead(g, all, Listing(f', None), first) {
        AheadStaysAhead(g, all, Listing(f, None), Listing(f', None), first);
      }
      forall g | g in all ensures g in Listing(f', None) {
        SubseqMember(Listing(f, None), Listing(f', None), g);
      }
    case Broken(error) =>
      if error == Conflict {
        LocateStable(f, f', w.names[..w.k + 1]);
      }
    case _ =>
  }

  lemma TakeOneMore(names: seq<string>, k: nat)
    requires k < |names|
    ensures names[..k + 1] == names[..k] + [names[k]]
    ensures names[..k + 1][..k] == names[..k]
  {}

  /** A name missing now was missing when the walk began. */
  lemma MissingThen(f0: Forest, f: Forest, names: seq<string>)
    requires WellFormed(f) && Subseq(f0, f) && Locate(f, names).None?
    ensures Locate(f0, names).None?
  {
    if Locate(f0, names).Some? {
      LocateStable(f0, f, names);
    }
  }

  lemma BeginInv(f: Forest, create: bool, names: seq<string>)
    requires WellFormed(f)
    ensures WalkInv(f, f, Begin(create, names))
  {
    SubseqRefl(f);
    assert names[..0] == [];
    var xs := Listing(f, None);
    forall g | g in xs ensures SeenOrAhead(g, [], xs, 0) {
      var q :| 0 <= q < |xs| && xs[q] == g;
    }
  }

  /** A found child is where the longer name path leads. */
  lemma FoundInv(f0: Forest, f: Forest, w: Walker, g: Group)
    requires Sound(w) && !Terminal(w) && WellFormed(f) && Subseq(f0, f) && Tracks(f, w)
    requires Node(IdOf(w.current), g) in f && g.name == Some(w.names[w.k])
    ensures WalkInv(f0, f, Arrive(w.create, w.names, w.k + 1, Ref(g)))
  {
    TakeOneMore(w.names, w.k);
    ChildExact(f, IdOf(w.current), w.names[w.k], g);
  }

  lemma PagingInv(f0: Forest, f: Forest, w: Walker, s: Service)
    requires WalkInv(f0, f, w) && w.stage.Paging?
    ensures WalkInv(f0, f, Handle(w, Serve(f, Pending(w), s).1))
  {
    var reply := Serve(f, Pending(w), s).1;
    if !reply.Failed? {
      var xs, first, all := Listing(f, None), w.stage.first, w.stage.all;
      var got := Page(xs, first, PAGE_SIZE);
      assert reply == Groups(got);
      forall g | g in Listing(f0, None)
        ensures SeenOrAhead(g, all + got, xs, first + PAGE_SIZE)
        ensures |got| < PAGE_SIZE ==> g in all + got
      {
        PageAdvances(g, all, xs, first);
      }
      forall g | g in all + got ensures g in xs {
        if g in got {
          PageMember(xs, first, g);
        }
      }
      if |got| < PAGE_SIZE {
        TopLookupInv(f0, f, w, all + got);
      }
    }
  }

  lemma TopLookupInv(f0: Forest, f: Forest, w: Walker, read: seq<Group>)
    requires WalkInv(f0, f, w) && w.stage.Paging?
    requires forall g :: g in Listing(f0, None) ==> g in read
    requires forall g :: g in read ==> g in Listing(f, None)
    ensures WalkInv(f0, f, Looked(w, FirstNamed(read, w.names[0])))
  {
    var name := w.names[0];
    var found := FirstNamed(read, name);
    assert w.names[..0] == [];
    FirstNamedSound(read, name);
    if found.Some? {
      ListingMember(f, None, found.value);
      FoundInv(f0, f, w, found.value);
    } else {
      FirstNamedSound(Listing(f0, None), name);
    }
  }

  lemma ReadingInv(f0: Forest, f: Forest, w: Walker, s: Service)
    requires WalkInv(f0, f, w) && w.stage.Reading?
    ensures WalkInv(f0, f, Handle(w, Serve(f, Pending(w), s).1))
  {
    hide Rooted, DistinctIds, UniqueSiblings;
    var reply := Serve(f, Pending(w), s).1;
    LocatedStoredPath(f, w.names[..w.k]);
    if !reply.Failed? {
      assert Handle(w, reply) == Looked(w, FirstNamed(Listing(f, IdOf(w.current)), w.names[w.k]));
      LookedInv(f0, f, w);
    }
  }

  lemma MissingChild(f: Forest, names: seq<string>, k: nat)
    requires k < |names| && Locate(f, names[..k]).Some?
    ensures FirstNamed(Listing(f, IdOf(Locate(f, names[..k]).value)), names[k]).None? ==>
            Locate(f, names[..k + 1]).None?
  {
    TakeOneMore(names, k);
  }

  lemma LookedInv(f0: Forest, f: Forest, w: Walker)
    requires WalkInv(f0, f, w) && w.stage.Reading?
    ensures WalkInv(f0, f, Looked(w, FirstNamed(Listing(f, IdOf(w.current)), w.names[w.k])))
  {
    hide Rooted, DistinctIds, UniqueSiblings, Locate, Subseq;
    var children := Listing(f, IdOf(w.current));
    var found := FirstNamed(children, w.names[w.k]);
    MissingChild(f, w.names, w.k);
    FirstNamedSound(children, w.names[w.k]);
    if found.Some? {
      ListingMember(f, IdOf(w.current), found.value);
      FoundInv(f0, f, w, found.value);
    } else {
      MissingThen(f0, f, w.names[..w.k + 1]);
    }
  }

  /** What the client gets to see of its create call. */
  lemma CreateReply(f: Forest, w: Walker, s: Service)
    requires Sound(w) && w.stage.Creating? && WellFormed(f) && Tracks(f, w)
    ensures var (f', reply) := Serve(f, Pending(w), s);
            && (reply.Created? ==> Node(IdOf(w.current), LocalGroup(w.current, reply.id, w.names[w.k])) in f')
            && (reply == Failed(Conflict) ==> f' == f && Locate(f, w.names[..w.k + 1]).Some?)
            && (reply.Created? || reply.Failed?)
  {
    hide Locate, DistinctIds, UniqueSiblings, Rooted, StoredPath, Listing, FirstNamed, InsertAt, HasId;
    var names, name := w.names[..w.k], w.names[w.k];
    TakeOneMore(w.names, w.k);
    CreateAt(f, names, name, s.at);
    var node := Node(IdOf(w.current), LocalGroup(w.current, FreshId(f), name));
    InsertMembers(f, s.at, node, node);
  }

  lemma CreatingInv(f0: Forest, f: Forest, w: Walker, s: Service)
    requires WalkInv(f0, f, w) && w.stage.Creating?
    ensures var (f', reply) := Serve(f, Pending(w), s);
            WalkInv(f0, f', Handle(w, reply))
  {
    var (f', reply) := Serve(f, Pending(w), s);
    ServeKeeps(f, Pending(w), s);
    WalkSurvivesGrowth(f0, f, f', w);
    CreateReply(f, w, s);
    if reply.Created? {
      FoundInv(f0, f', w, LocalGroup(w.current, reply.id, w.names[w.k]));
    }
  }

  /** One call of the walk at the server keeps its invariant. */
  lemma ServedInv(f0: Forest, f: Forest, w: Walker, s: Service)
    requires WalkInv(f0, f, w) && !Terminal(w)
    ensures var (f', reply) := Serve(f, Pending(w), s);
            WalkInv(f0, f', Handle(w, reply))
  {
    ServeKeeps(f, Pending(w), s);
    match w.stage
    case Paging(_, _) => PagingInv(f0, f, w, s);
    case Reading => ReadingInv(f0, f, w, s);
    case _ => CreatingInv(f0, f, w, s);
  }

  lemma StepInv(f0: Forest, world: World, w: Walker)
    requires WalkInv(f0, world.forest, w)
    ensures WalkInv(f0, Step(world, w).0.forest, Step(world, w).1)
    ensures Subseq(world.forest, Step(world, w).0.forest)
    ensures PathsSpelled(world.forest) ==> PathsSpelled(Step(world, w).0.forest)
  {
    SubseqRefl(world.forest);
    if !Terminal(w) {
      var turn := if world.turns == [] then QUIET_TURN else world.turns[0];
      var f1 := ApplyAll(world.forest, turn.others);
      CallKeeps(world, Pending(w));
      ApplyAllKeeps(world.forest, turn.others);
      WalkSurvivesGrowth(f0, world.forest, f1, w);
      ServedInv(f0, f1, w, turn.service);
    }
  }

  /** The invariant holds after any number of calls of a walk that began in `f0`. */
  lemma {:induction false} RunInv(f0: Forest, world: World, w: Walker, n: nat)
    requires WalkInv(f0, world.forest, w)
    ensures var (world', w') := Run(world, w, n);
            && WalkInv(f0, world'.forest, w')
            && Subseq(world.forest, world'.forest)
            && (PathsSpelled(world.forest) ==> PathsSpelled(world'.forest))
  {
    hide PathsSpelled, Subseq, Step;
    if n == 0 {
      SubseqRefl(world.forest);
    } else {
      RunInv(f0, world, w, n - 1);
      var (world1, w1) := Run(world, w, n - 1);
      StepInv(f0, world1, w1);
      SubseqTrans(world.forest, world1.forest, Step(world1, w1).0.forest);
    }
  }

  // ---------------------------------------------------------------- what a walk returns

  /** In every world: a walk holds the node for the names it has consumed; when it is done
      that is the node of the whole name path, under the path its names spell. A find walk
      that reports absence began when the path did not exist. */
  lemma WalkReturnsTheNode(world: World, create: bool, names: seq<string>, n: nat)
    requires WellFormed(world.forest)
    ensures var (world', w) := Run(world, Begin(create, names), n);
            && WellFormed(world'.forest)
            && Locate(world'.forest, names[..w.k]) == Some(w.current)
            && (w.stage.Done? ==> Locate(world'.forest, names) == Some(w.current))
            && (w.stage.Absent? ==> Locate(world.forest, names).None?)
            && (PathsSpelled(world.forest) ==>
               PathsSpelled(world'.forest) && PathOf(w.current) == PathString(names[..w.k]))
  {
    hide Run, Locate, Subseq, PathsSpelled, DistinctIds, UniqueSiblings, Rooted, PathString;
    BeginInv(world.forest, create, names);
    RunInv(world.forest, world, Begin(create, names), n);
    var (world', w) := Run(world, Begin(create, names), n);
    assert w.k == |names| ==> names[..w.k] == names;
    if w.stage.Absent? && Locate(world.forest, names).Some? {
      LocatePrefix(world.forest, names, w.k + 1);
    }
    if PathsSpelled(world.forest) {
      LocatePath(world'.forest, names[..w.k]);
    }
  }

  /** A run that ends in a refused duplicate lost a race: the level it failed at did not
      exist when it began and exists now, so the existing prefix has grown past it. */
  lemma RefusedRunGrowsPrefix(world: World, names: seq<string>, n: nat)
    requires WellFormed(world.forest)
    requires Run(world, Begin(true, names), n).1.stage == Broken(Conflict)
    ensures var (world', w) := Run(world, Begin(true, names), n);
            ExistingPrefix(world.forest, names) <= w.k < ExistingPrefix(world'.forest, names)
  {
    hide Run, WellFormed, Locate, Subseq;
    BeginInv(world.forest, true, names);
    RunInv(world.forest, world, Begin(true, names), n);
    var (world', w) := Run(world, Begin(true, names), n);
    ExistingPrefixExact(world.forest, names, w.k + 1);
    ExistingPrefixExact(world'.forest, names, w.k + 1);
  }

  /** Consecutive refused attempts: each starts in whatever the last one left, possibly
      grown further. */
  ghost predicate RefusedAttempts(names: seq<string>, starts: seq<World>, calls: seq<nat>)
  {
    && |starts| == |calls|
    && (forall i :: 0 <= i < |starts| ==>
          WellFormed(starts[i].forest) && Run(starts[i], Begin(true, names), calls[i]).1.stage == Broken(Conflict))
    && (forall i :: 0 < i < |starts| ==>
          Subseq(Run(starts[i - 1], Begin(true, names), calls[i - 1]).0.forest, starts[i].forest))
  }

  lemma PrefixMonotone(f: Forest, f': Forest, names: seq<string>)
    requires WellFormed(f') && Subseq(f, f')
    ensures ExistingPrefix(f, names) <= ExistingPrefix(f', names)
  {
    var k := ExistingPrefix(f, names);
    ExistingPrefixExact(f, names, k);
    LocateStable(f, f', names[..k]);
    ExistingPrefixExact(f', names, k);
  }

  lemma {:induction false} RefusedAttemptsClimb(names: seq<string>, starts: seq<World>, calls: seq<nat>, i: nat)
    requires RefusedAttempts(names, starts, calls) && i < |starts|
    ensures ExistingPrefix(Run(starts[i], Begin(true, names), calls[i]).0.forest, names) > i
  {
    hide Run, Locate, Subseq, ExistingPrefix, DistinctIds, UniqueSiblings, Rooted;
    RefusedRunGrowsPrefix(starts[i], names, calls[i]);
    if i > 0 {
      RefusedAttemptsClimb(names, starts, calls, i - 1);
      PrefixMonotone(Run(starts[i - 1], Begin(true, names), calls[i - 1]).0.forest, starts[i].forest, names);
    }
  }

  /** Retrying after lost races needs at most one attempt per name, plus the last one. */
  lemma RefusedAttemptsBounded(names: seq<string>, starts: seq<World>, calls: seq<nat>)
    requires RefusedAttempts(names, starts, calls)
    ensures |starts| <= |names|
  {
    if |starts| > 0 {
      RefusedAttemptsClimb(names, starts, calls, |starts| - 1);
    }
  }
}
