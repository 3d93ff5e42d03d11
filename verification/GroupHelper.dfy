/** The helper's own loops over the remote realm, proved to be the walks of `GroupWalk`. */
module GroupHelper {
  import opened Wrappers
  import opened Sequences
  import opened Forest
  import opened Pagination
  import opened GroupWalk
  import opened WalkSafety
  import opened LoneWalk
  import opened GroupPath
  import opened Listings
  import opened Retries
  import opened Slashes

  /** The top-level listing as the page loop's closure reaches it. */
  function FetchTop(w: World, p: Params): (World, Result<seq<Group>, Error>)
  {
    var (w', reply) := Call(w, ListTop(p));
    (w', if reply.Groups? then Ok(reply.groups) else Err(if reply.Failed? then reply.error else Transport))
  }

  function TopListing(w: World): seq<Group>
  {
    Listing(w.forest, None)
  }

  /** What the caller gets for a finished walk; both `Absent` and the empty walk give nil. */
  function Outcome(w: Walker): Result<GroupRef, Error>
  {
    match w.stage
    case Done => Ok(w.current)
    case Broken(e) => Err(e)
    case _ => Ok(Nil)
  }

  /** The walker after a lookup call of the helper. */
  function AfterLookup(w: Walker, r: Result<GroupRef, Error>): Walker
    requires Sound(w) && !Terminal(w)
  {
    match r
    case Err(e) => w.(stage := Broken(e))
    case Ok(Nil) => Looked(w, None)
    case Ok(Ref(g)) => Looked(w, Some(g))
  }

  // ---------------------------------------------------------------- the closure's contract

  lemma {:induction false} ApplyAllGrows(f: Forest, others: seq<Other>)
    ensures Subseq(f, ApplyAll(f, others))
    ensures |ApplyAll(f, others)| <= |f| + |others|
    decreases |others|
  {
    SubseqRefl(f);
    if others != [] {
      var o := others[0];
      var f1 := Create(f, o.parent, o.name, o.at).0;
      if f1 != f {
        SubseqInsert(f, o.at, Node(o.parent, Group(FreshId(f), Some(o.name), StoredPath(f, o.parent) + "/" + o.name)));
      }
      ApplyAllGrows(f1, others[1..]);
      SubseqTrans(f, f1, ApplyAll(f1, others[1..]));
    }
  }

  lemma FetchTopServes(w: World, p: Params)
    ensures var (w', r) := FetchTop(w, p);
            && PageOf(TopListing(w'), p, r)
            && |TopListing(w')| <= Bound(w') <= Bound(w)
            && Subseq(TopListing(w), TopListing(w'))
  {
    var turn := if w.turns == [] then QUIET_TURN else w.turns[0];
    ApplyAllGrows(w.forest, turn.others);
    var w' := FetchTop(w, p).0;
    assert w'.forest == ApplyAll(w.forest, turn.others);
    ListingLength(w'.forest, None);
    ListingSubseq(w.forest, w'.forest, None);
  }

  /** The realm serves its top level by pages and only ever inserts into it, so the page
      loop's theorems apply to the top-level lookup. */
  lemma TopLevelIsPaged(search: Option<string>)
    ensures ServesPages(FetchTop, TopListing, Bound, search)
    ensures OnlyInserts(FetchTop, TopListing, search)
  {
    forall w, p
      ensures PageOf(TopListing(FetchTop(w, p).0), p, FetchTop(w, p).1)
      ensures |TopListing(FetchTop(w, p).0)| <= Bound(FetchTop(w, p).0) <= Bound(w)
      ensures Subseq(TopListing(w), TopListing(FetchTop(w, p).0))
    {
      FetchTopServes(w, p);
    }
  }

  // ---------------------------------------------------------------- joining runs

  lemma {:induction false} ListingOnce(f: Forest, parent: Option<Id>)
    requires DistinctIds(f)
    ensures NoDup(Listing(f, parent))
    ensures forall g :: g in Listing(f, parent) ==> exists n :: n in f && n.group == g
  {
    if f != [] {
      assert DistinctIds(f[1..]) by {
        forall i, j | 0 <= i < j < |f[1..]| ensures f[1..][i].group.id != f[1..][j].group.id {
          assert f[i + 1].group.id != f[j + 1].group.id;
        }
      }
      ListingOnce(f[1..], parent);
      var rest := Listing(f[1..], parent);
      forall n | n in f[1..] ensures n.group.id != f[0].group.id {
        var j :| 0 <= j < |f[1..]| && f[1..][j] == n;
        assert f[0].group.id != f[j + 1].group.id;
      }
      assert f == [f[0]] + f[1..];
      NoDupCons(f[0].group, rest);
      assert Listing(f, parent) == (if f[0].parent == parent then [f[0].group] else []) + rest;
    }
  }

  lemma {:induction false} FetchesKeep(world: World, params: Params, n: nat)
    requires WellFormed(world.forest)
    ensures WellFormed(Fetches(FetchTop, world, params, n).0.forest)
  {
    hide WellFormed, Call, Subseq, PathsSpelled, NthPage;
    if n > 0 {
      FetchesKeep(world, params, n - 1);
      CallKeeps(Fetches(FetchTop, world, params, n - 1).0, ListTop(NthPage(params, n - 1)));
    }
  }

  /** The top level of a realm is read exactly as it stands at the last page if and only if
      no group was created meanwhile in front of what had been read. */
  lemma TopLevelReadExactly(world: World, params: Params, n: nat)
    requires WellFormed(world.forest)
    requires Stopped(FetchTop, world, params, n) && Fetches(FetchTop, world, params, n).1.Ok?
    ensures var (world', r) := Fetches(FetchTop, world, params, n);
            r.value == TopListing(world') <==> Undisturbed(FetchTop, TopListing, world, params, n)
  {
    TopLevelIsPaged(params.search);
    FetchesKeep(world, params, n);
    ListingOnce(Fetches(FetchTop, world, params, n).0.forest, None);
    ReadExactlyIffUndisturbed(FetchTop, TopListing, Bound, world, params, n);
  }

  lemma {:induction false} RunCompose(world: World, w: Walker, a: nat, b: nat)
    requires Sound(w)
    ensures var (world1, w1) := Run(world, w, a);
            Run(world, w, a + b) == Run(world1, w1, b)
  {
    hide Step;
    if b > 0 {
      RunCompose(world, w, a, b - 1);
      assert a + b - 1 == a + (b - 1);
    }
  }

  /** The walker after `i` full pages. */
  function PagedTo(w: Walker, i: nat, all: seq<Group>): Walker
  {
    w.(stage := Paging(PAGE_SIZE * i, all))
  }

  lemma OneMoreFetch(world: World, w: Walker, i: nat, all: seq<Group>)
    requires Sound(w) && w.stage == Paging(0, [])
    ensures Sound(PagedTo(w, i, all))
    ensures Step(world, PagedTo(w, i, all)) ==
            var (world', got) := FetchTop(world, NthPage(TOP_PARAMS, i));
            (world',
             if got.Err? then w.(stage := Broken(got.error))
             else if |got.value| < PAGE_SIZE then Looked(w, FirstNamed(all + got.value, w.names[w.k]))
             else PagedTo(w, i + 1, all + got.value))
  {
    assert Pending(PagedTo(w, i, all)) == ListTop(NthPage(TOP_PARAMS, i));
  }

  lemma TopFullBefore(world: World, i: nat)
    requires AllFull(FetchTop, world, TOP_PARAMS, i + 1)
    ensures AllFull(FetchTop, world, TOP_PARAMS, i)
  {
    TopLevelIsPaged(TOP_PARAMS.search);
    AllFullBefore(FetchTop, TopListing, Bound, world, TOP_PARAMS, i + 1);
  }

  lemma {:induction false} FullPagesAreSteps(world: World, w: Walker, i: nat)
    requires Sound(w) && w.stage == Paging(0, []) && AllFull(FetchTop, world, TOP_PARAMS, i)
    ensures var (world1, acc) := Fetches(FetchTop, world, TOP_PARAMS, i);
            Run(world, w, i) == (world1, PagedTo(w, i, acc.value))
  {
    if i > 0 {
      var j: nat := i - 1;
      TopFullBefore(world, j);
      FullPagesAreSteps(world, w, j);
      var (world1, acc) := Fetches(FetchTop, world, TOP_PARAMS, j);
      PageIsStep(world, w, j, world1, acc.value);
      assert j + 1 == i;
    }
  }

  lemma PageIsStep(world: World, w: Walker, i: nat, world1: World, all: seq<Group>)
    requires Sound(w) && w.stage == Paging(0, [])
    requires Fetches(FetchTop, world, TOP_PARAMS, i) == (world1, Ok(all))
             && Run(world, w, i) == (world1, PagedTo(w, i, all))
    requires |all| == PAGE_SIZE * i
    ensures var (world2, r) := Fetches(FetchTop, world, TOP_PARAMS, i + 1);
            Run(world, w, i + 1) ==
            (world2, if r.Err? then w.(stage := Broken(r.error))
                     else if |r.value| < PAGE_SIZE * (i + 1) then Looked(w, FirstNamed(r.value, w.names[w.k]))
                     else PagedTo(w, i + 1, r.value))
  {
    OneMoreFetch(world1, w, i, all);
  }

  /** The page loop and the scan after it are the walker's lookup of a top-level name. */
  lemma PagedLookupIsRun(world: World, w: Walker, n: nat)
    requires Sound(w) && w.stage == Paging(0, []) && Stopped(FetchTop, world, TOP_PARAMS, n)
    ensures var (world', r) := Fetches(FetchTop, world, TOP_PARAMS, n);
            Run(world, w, n) ==
            (world', if r.Err? then w.(stage := Broken(r.error)) else Looked(w, FirstNamed(r.value, w.names[w.k])))
  {
    var i: nat := n - 1;
    FullPagesAreSteps(world, w, i);
    var (world1, acc) := Fetches(FetchTop, world, TOP_PARAMS, i);
    PageIsStep(world, w, i, world1, acc.value);
    assert i + 1 == n;
  }

  // ---------------------------------------------------------------- what the walks promise

  /** Find-or-create, from the world before to the world after: the result is the node of
      the whole path, under the path its names spell; a refused duplicate means somebody
      else has brought the path further. Alone, the forest has gained exactly an initial
      run of the missing nodes, all of them on success, and without faults it succeeds. */
  ghost predicate FindOrCreatePromise(before: World, after: World, names: seq<string>, r: Result<GroupRef, Error>)
  {
    WellFormed(before.forest) ==>
      && WellFormed(after.forest) && Subseq(before.forest, after.forest)
      && (r.Ok? ==> Locate(after.forest, names) == Some(r.value))
      && (r.Ok? && PathsSpelled(before.forest) ==> PathOf(r.value) == PathString(names))
      && (r == Err(Conflict) ==> ExistingPrefix(before.forest, names) < ExistingPrefix(after.forest, names))
      && ((forall t :: t in before.turns ==> t.service.fault == Deliver) ==> r.Ok? || r == Err(Conflict))
      && ((forall t :: t in before.turns ==> t.others == []) ==>
            && Chain(before.forest, after.forest, names, ExistingPrefix(after.forest, names))
            && (r.Ok? ==> ExistingPrefix(after.forest, names) == |names|)
            && ((forall t :: t in before.turns ==> t.service.fault == Deliver) ==> r.Ok?))
  }

  /** The find walk: a node it returns is the node of the path; nil means the path did not
      exist when it began. Alone it writes nothing, and without faults it is exact. */
  ghost predicate FindPromise(before: World, after: World, names: seq<string>, r: Result<GroupRef, Error>)
  {
    WellFormed(before.forest) ==>
      && WellFormed(after.forest) && Subseq(before.forest, after.forest)
      && (r.Ok? && r.value.Ref? ==> Locate(after.forest, names) == Some(r.value))
      && (r.Ok? && r.value.Nil? && names != [] ==> Locate(before.forest, names).None?)
      && ((forall t :: t in before.turns ==> t.service.fault == Deliver) ==> r.Ok?)
      && ((forall t :: t in before.turns ==> t.others == []) ==>
            && after.forest == before.forest
            && ((forall t :: t in before.turns ==> t.service.fault == Deliver) ==>
                  r == Ok(if Locate(before.forest, names).Some? then Locate(before.forest, names).value else Nil)))
  }

  lemma FindOrCreateKept(world: World, names: seq<string>, n: nat)
    requires Terminal(Run(world, Begin(true, names), n).1)
    ensures FindOrCreatePromise(world, Run(world, Begin(true, names), n).0, names,
            Outcome(Run(world, Begin(true, names), n).1))
  {
    if WellFormed(world.forest) {
      var (world', w) := Run(world, Begin(true, names), n);
      BeginInv(world.forest, true, names);
      RunInv(world.forest, world, Begin(true, names), n);
      WalkReturnsTheNode(world, true, names, n);
      assert !w.stage.Absent?;
      assert w.k == |names| ==> names[..w.k] == names;
      if w.stage == Broken(Conflict) {
        RefusedRunGrowsPrefix(world, names, n);
      }
      if Faultless(world) {
        FaultlessWalkBreaksOnlyByConflict(world, true, names, n);
      }
      if Alone(world) {
        FindOrCreateAloneKept(world, names, n);
      }
    }
  }

  lemma FindOrCreateAloneKept(world: World, names: seq<string>, n: nat)
    requires Terminal(Run(world, Begin(true, names), n).1) && WellFormed(world.forest) && Alone(world)
    ensures var (world', w) := Run(world, Begin(true, names), n);
            && Chain(world.forest, world'.forest, names, ExistingPrefix(world'.forest, names))
            && (w.stage.Done? ==> ExistingPrefix(world'.forest, names) == |names|)
            && (Faultless(world) ==> w.stage.Done?)
  {
    var m := RunAlone(world, true, names, n);
    FindOrCreateEffect(world, names, n);
    var (world', w) := Run(world, Begin(true, names), n);
    if w.stage.Done? {
      ChainPrefix(world.forest, world'.forest, names, |names|);
    }
  }

  lemma FindKept(world: World, names: seq<string>, n: nat)
    requires Terminal(Run(world, Begin(false, names), n).1)
    ensures FindPromise(world, Run(world, Begin(false, names), n).0, names,
            Outcome(Run(world, Begin(false, names), n).1))
  {
    if WellFormed(world.forest) {
      var (world', w) := Run(world, Begin(false, names), n);
      BeginInv(world.forest, false, names);
      RunInv(world.forest, world, Begin(false, names), n);
      WalkReturnsTheNode(world, false, names, n);
      if w.stage.Done? && names != [] {
        LocateIsNode(world'.forest, names);
      }
      if Faultless(world) {
        FaultlessWalkBreaksOnlyByConflict(world, false, names, n);
      }
      if Alone(world) {
        FindIsExact(world, names, n);
      }
    }
  }

  // ---------------------------------------------------------------- single steps of the helper

  /** `n` calls of the walk lead to `state` and `w`. */
  predicate Reaches(world: World, start: Walker, n: nat, state: World, w: Walker)
  {
    Sound(start) && Sound(w) && Run(world, start, n) == (state, w)
  }

  lemma ReachesTrans(world: World, start: Walker, n: nat, state: World, w: Walker, m: nat, state': World, w': Walker)
    requires Reaches(world, start, n, state, w) && Reaches(state, w, m, state', w')
    ensures Reaches(world, start, n + m, state', w')
  {
    RunCompose(world, start, n, m);
  }

  lemma ReachesSelf(world: World, w: Walker)
    requires Sound(w)
    ensures Reaches(world, w, 0, world, w)
  {}

  /** The helper made exactly the `n` calls of a walk and returned its outcome. */
  predicate Walked(before: World, create: bool, names: seq<string>, n: nat, after: World, r: Result<GroupRef, Error>)
  {
    var (world, w) := Run(before, Begin(create, names), n);
    Terminal(w) && world == after && r == Outcome(w)
  }

  lemma WalkedBy(before: World, create: bool, names: seq<string>, n: nat, after: World, w: Walker,
        r: Result<GroupRef, Error>)
    requires Reaches(before, Begin(create, names), n, after, w) && Terminal(w) && r == Outcome(w)
    ensures Walked(before, create, names, n, after, r)
    ensures create ==> FindOrCreatePromise(before, after, names, r)
    ensures !create ==> FindPromise(before, after, names, r)
  {
    if create {
      FindOrCreateKept(before, names, n);
    } else {
      FindKept(before, names, n);
    }
  }

  /** A create call of the helper is the walker's create step. */
  lemma CreateIsStep(world: World, w: Walker, r: Result<Group, Error>)
    requires Sound(w) && w.stage.Creating?
    requires var reply := Call(world, CreateGroup(IdOf(w.current), w.names[w.k])).1;
             && (reply.Created? ==> r == Ok(LocalGroup(w.current, reply.id, w.names[w.k])))
             && (reply.Failed? ==> r == Err(reply.error))
             && (r.Ok? ==> reply.Created?) && (r.Err? ==> reply.Failed?)
    ensures Reaches(world, w, 1, Call(world, CreateGroup(IdOf(w.current), w.names[w.k])).0,
                    if r.Ok? then Arrive(w.create, w.names, w.k + 1, Ref(r.value)) else w.(stage := Broken(r.error)))
  {
    ReachesSelf(world, w);
  }

  class Helper {
    const server: Remote<World>

    constructor (server: Remote<World>)
      ensures this.server == server
    {
      this.server := server;
    }

    /** One remote call. */
    method Send(req: Request) returns (reply: Reply)
      modifies server
      ensures (server.state, reply) == Call(old(server.state), req)
    {
      var (state, answer) := Call(server.state, req);
      server.state := state;
      reply := answer;
    }

    method GetGroups(params: Params) returns (r: Result<seq<Group>, Error>, ghost n: nat)
      modifies server
      ensures params.max.Some? ==> (server.state, r) == FetchTop(old(server.state), params)
      ensures params.max.None? ==>
                && Stopped(FetchTop, old(server.state), params, n)
                && (server.state, r) == Fetches(FetchTop, old(server.state), params, n)
    {
      TopLevelIsPaged(params.search);
      r, n := Paginate(server, FetchTop, params, TopListing, Bound);
    }

    method FirstGroupNamed(groups: seq<Group>, name: string) returns (r: GroupRef)
      ensures r == (var found := FirstNamed(groups, name); if found.Some? then Ref(found.value) else Nil)
    {
      for i := 0 to |groups|
        invariant FirstNamed(groups, name) == FirstNamed(groups[i..], name)
      {
        if groups[i].name.Some? && groups[i].name.value == name {
          return Ref(groups[i]);
        }
        assert groups[i..][1..] == groups[i + 1..];
      }
      return Nil;
    }

    /** Look one name up below `parent`. The ghost walker `w` stands at that name. */
    method FindChildGroup(parent: GroupRef, name: string, ghost w: Walker)
          returns (r: Result<GroupRef, Error>, ghost n: nat)
      requires Sound(w) && !Terminal(w) && w == Arrive(w.create, w.names, w.k, parent) && w.names[w.k] == name
      modifies server
      ensures Reaches(old(server.state), w, n, server.state, AfterLookup(w, r))
    {
      if parent.Nil? {
        var groups;
        groups, n := GetGroups(TOP_PARAMS);
        PagedLookupIsRun(old(server.state), w, n);
        if groups.Err? {
          return Err(groups.error), n;
        }
        var found := FirstGroupNamed(groups.value, name);
        return Ok(found), n;
      }

      n := 1;
      var reply := Send(GetGroup(parent.group.id));
      r := Ok(Nil);
      if reply.Failed? {
        r := Err(reply.error);
      } else if reply.SubGroups? && reply.children.Some? {
        var found := FirstGroupNamed(reply.children.value, name);
        r := Ok(found);
      }
    }

    method CreateChildGroup(parent: GroupRef, name: string) returns (r: Result<Group, Error>)
      modifies server
      ensures var (state, reply) := Call(old(server.state), CreateGroup(IdOf(parent), name));
              && server.state == state
              && (reply.Created? ==> r == Ok(LocalGroup(parent, reply.id, name)))
              && (reply.Failed? ==> r == Err(reply.error))
              && (r.Ok? ==> reply.Created?) && (r.Err? ==> reply.Failed?)
    {
      var path: string;
      var reply: Reply;
      if parent.Nil? {
        reply := Send(CreateGroup(None, name));
        path := "/" + name;
      } else {
        reply := Send(CreateGroup(Some(parent.group.id), name));
        path := parent.group.path + "/" + name;
      }
      if !reply.Created? {
        return Err(reply.error);
      }
      assert "" + "/" + name == "/" + name;
      return Ok(Group(reply.id, Some(name), path));
    }

    /** Find-or-create along a list of names: exactly the calls of the walk. */
    method GetOrCreateGroupPathSegments(segments: seq<string>) returns (r: Result<GroupRef, Error>, ghost n: nat)
      modifies server
      ensures Walked(old(server.state), true, segments, n, server.state, r)
      ensures FindOrCreatePromise(old(server.state), server.state, segments, r)
    {
      hide Reaches, Walked, FindOrCreatePromise, FindPromise;
      ghost var start, world := Begin(true, segments), server.state;
      var current: GroupRef := Nil;
      n := 0;
      ReachesSelf(world, start);
      for i := 0 to |segments|
        invariant current.Nil? <==> i == 0
        invariant Reaches(world, start, n, server.state, Arrive(true, segments, i, current))
      {
        var name := segments[i];
        ghost var here, before := Arrive(true, segments, i, current), server.state;
        var child;
        ghost var m;
        child, m := FindChildGroup(current, name, here);
        ReachesTrans(world, start, n, before, here, m, server.state, AfterLookup(here, child));
        n := n + m;
        if child.Err? {
          WalkedBy(world, true, segments, n, server.state, AfterLookup(here, child), Err(child.error));
          return Err(child.error), n;
        }
        if child.value.Nil? {
          here, before := AfterLookup(here, child), server.state;
          var created := CreateChildGroup(current, name);
          CreateIsStep(before, here, created);
          ghost var there := if created.Ok? then Arrive(true, segments, i + 1, Ref(created.value))
              else here.(stage := Broken(created.error));
          ReachesTrans(world, start, n, before, here, 1, server.state, there);
          n := n + 1;
          if created.Err? {
            WalkedBy(world, true, segments, n, server.state, there, Err(created.error));
            return Err(created.error), n;
          }
          child := Ok(Ref(created.value));
        }
        current := child.value;
      }
      WalkedBy(world, true, segments, n, server.state, Arrive(true, segments, |segments|, current), Ok(current));
      return Ok(current), n;
    }

    /** The read-only walk. */
    method FindGroupPathSegments(segments: seq<string>) returns (r: Result<GroupRef, Error>, ghost n: nat)
      modifies server
      ensures Walked(old(server.state), false, segments, n, server.state, r)
      ensures FindPromise(old(server.state), server.state, segments, r)
    {
      hide Reaches, Walked, FindOrCreatePromise, FindPromise;
      ghost var start, world := Begin(false, segments), server.state;
      var current: GroupRef := Nil;
      n := 0;
      ReachesSelf(world, start);
      for i := 0 to |segments|
        invariant current.Nil? <==> i == 0
        invariant Reaches(world, start, n, server.state, Arrive(false, segments, i, current))
      {
        ghost var here, before := Arrive(false, segments, i, current), server.state;
        var child;
        ghost var m;
        child, m := FindChildGroup(current, segments[i], here);
        ReachesTrans(world, start, n, before, here, m, server.state, AfterLookup(here, child));
        n := n + m;
        if child.Err? {
          WalkedBy(world, false, segments, n, server.state, AfterLookup(here, child), Err(child.error));
          return Err(child.error), n;
        }
        if child.value.Nil? {
          WalkedBy(world, false, segments, n, server.state, AfterLookup(here, child), Ok(Nil));
          return Ok(Nil), n;
        }
        current := child.value;
      }
      WalkedBy(world, false, segments, n, server.state, Arrive(false, segments, |segments|, current), Ok(current));
      return Ok(current), n;
    }

    /** Find-or-create along a slash path. */
    method GetOrCreateGroupPath(path: string) returns (r: Result<GroupRef, Error>, ghost n: nat)
      modifies server
      ensures ParsePath(path).None? ==> r == Err(InvalidPath) && server.state == old(server.state)
      ensures ParsePath(path).Some? ==>
                && Walked(old(server.state), true, ParsePath(path).value, n, server.state, r)
                && FindOrCreatePromise(old(server.state), server.state, ParsePath(path).value, r)
    {
      n := 0;
      var segments := Split(Trim(path));
      for i := 0 to |segments|
        invariant "" !in segments[..i]
        invariant server.state == old(server.state)
      {
        if segments[i] == "" {
          return Err(InvalidPath), 0;
        }
      }
      r, n := GetOrCreateGroupPathSegments(segments);
    }
  }
}
