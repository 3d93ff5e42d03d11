/** A walk along a list of group names, one remote call at a time.

    The server's choices (other clients' creates before a call, faults, places in the
    listing) are inputs, so a statement about all worlds is a statement about all runs.
    `Pending` and `Handle` are the client between two calls; the imperative walks in
    `GroupHelper` are proved to make exactly these calls. */
module GroupWalk {
  import opened Wrappers
  import opened Sequences
  import opened Forest
  import opened Pagination

  // ---------------------------------------------------------------- the server

  /** `LoseReply` performs the call and then reports an error to the caller. */
  datatype Fault = Deliver | DropRequest | LoseReply

  /** How the server treats one call: its fault, where a created node is listed, and
      whether an empty list of sub groups is left out of the reply. */
  datatype Service = Service(fault: Fault, at: nat, omitEmpty: bool)

  datatype Request = ListTop(params: Params) | GetGroup(id: Id) | CreateGroup(parent: Option<Id>, name: string)

  datatype Reply =
    | Groups(groups: seq<Group>)
    | SubGroups(children: Option<seq<Group>>)
    | Created(id: Id)
    | Failed(error: Error)

  function Slice(xs: seq<Group>, params: Params): seq<Group>
  {
    var first := if params.first.Some? && params.first.value >= 0 then params.first.value else 0;
    var max := if params.max.Some? && params.max.value >= 0 then params.max.value else PAGE_SIZE;
    Page(xs, first, max)
  }

  /** One atomic call at the server. */
  function Serve(f: Forest, req: Request, s: Service): (Forest, Reply)
  {
    if s.fault.DropRequest? then (f, Failed(Transport))
    else
      var (f', reply) :=
        match req
        case ListTop(params) => (f, Groups(Slice(Listing(f, None), params)))
        case GetGroup(id) =>
          if !HasId(f, id) then (f, Failed(NotFound))
          else if Listing(f, Some(id)) == [] && s.omitEmpty then (f, SubGroups(None))
          else (f, SubGroups(Some(Listing(f, Some(id)))))
        case CreateGroup(parent, name) =>
          var (f', r) := Create(f, parent, name, s.at);
          (f', if r.Ok? then Created(r.value) else Failed(r.error));
      (f', if s.fault.LoseReply? then Failed(Transport) else reply)
  }

  /** A create by some other client of the realm. */
  datatype Other = Other(parent: Option<Id>, name: string, at: nat)

  function ApplyAll(f: Forest, others: seq<Other>): Forest
    decreases |others|
  {
    if others == [] then f
    else ApplyAll(Create(f, others[0].parent, others[0].name, others[0].at).0, others[1..])
  }

  /** What happens around one call: creates by others, then the call. */
  datatype Turn = Turn(others: seq<Other>, service: Service)

  const QUIET_TURN := Turn([], Service(Deliver, 0, false))

  /** The forest and what the future holds; past the last turn nobody interferes. */
  datatype World = World(forest: Forest, turns: seq<Turn>)

  function Call(w: World, req: Request): (World, Reply)
  {
    var turn := if w.turns == [] then QUIET_TURN else w.turns[0];
    var (f, reply) := Serve(ApplyAll(w.forest, turn.others), req, turn.service);
    (World(f, if w.turns == [] then [] else w.turns[1..]), reply)
  }

  // ---------------------------------------------------------------- the client

  datatype Stage =
    | Paging(first: nat, all: seq<Group>)  // reading the top-level listing
    | Reading                              // reading the current group for its sub groups
    | Creating                             // the name is missing below the current group
    | Done
    | Absent
    | Broken(error: Error)

  /** `current` has consumed the first `k` names; `create` tells the two walks apart. */
  datatype Walker = Walker(create: bool, names: seq<string>, k: nat, current: GroupRef, stage: Stage)

  predicate Terminal(w: Walker)
  {
    w.stage.Done? || w.stage.Absent? || w.stage.Broken?
  }

  predicate Sound(w: Walker)
  {
    w.k <= |w.names| && (!Terminal(w) ==> w.k < |w.names|)
  }

  const TOP_PARAMS := Params(None, None, None)

  /** At the head of the loop: stop after the last name, else look the next one up. */
  function Arrive(create: bool, names: seq<string>, k: nat, current: GroupRef): Walker
  {
    Walker(create, names, k, current,
           if k >= |names| then Done else if current.Nil? then Paging(0, []) else Reading)
  }

  function Begin(create: bool, names: seq<string>): Walker
  {
    Arrive(create, names, 0, Nil)
  }

  function Pending(w: Walker): Request
    requires Sound(w) && !Terminal(w)
  {
    match w.stage
    case Paging(first, _) => ListTop(TOP_PARAMS.(first := Some(first), max := Some(PAGE_SIZE)))
    case Reading => GetGroup(if w.current.Ref? then w.current.group.id else 0)
    case _ => CreateGroup(IdOf(w.current), w.names[w.k])
  }

  /** The group a successful create is taken to be, built from the parent's path. */
  function LocalGroup(parent: GroupRef, id: Id, name: string): Group
  {
    Group(id, Some(name), PathOf(parent) + "/" + name)
  }

  /** The lookup of the next name is over. */
  function Looked(w: Walker, found: Option<Group>): Walker
    requires Sound(w) && !Terminal(w)
  {
    if found.Some? then Arrive(w.create, w.names, w.k + 1, Ref(found.value))
    else w.(stage := if w.create then Creating else Absent)
  }

  function Handle(w: Walker, reply: Reply): (w': Walker)
    requires Sound(w) && !Terminal(w)
    ensures Sound(w') && w'.names == w.names && w'.create == w.create
  {
    if reply.Failed? then w.(stage := Broken(reply.error))
    else
      match w.stage
      case Paging(first, all) =>
        var got := if reply.Groups? then reply.groups else [];
        if |got| < PAGE_SIZE then Looked(w, FirstNamed(all + got, w.names[w.k]))
        else w.(stage := Paging(first + PAGE_SIZE, all + got))
      case Reading =>
        var children := if reply.SubGroups? && reply.children.Some? then reply.children.value else [];
        Looked(w, FirstNamed(children, w.names[w.k]))
      case _ =>
        if reply.Created? then Arrive(w.create, w.names, w.k + 1, Ref(LocalGroup(w.current, reply.id, w.names[w.k])))
        else w.(stage := Broken(Transport))
  }

  /** One call of the walk and its reply. */
  function Step(world: World, w: Walker): (r: (World, Walker))
    requires Sound(w)
    ensures Sound(r.1) && r.1.names == w.names && r.1.create == w.create
  {
    if Terminal(w) then (world, w)
    else
      var (world', reply) := Call(world, Pending(w));
      (world', Handle(w, reply))
  }

  /** The world and the walker after `n` calls. */
  function Run(world: World, w: Walker, n: nat): (r: (World, Walker))
    requires Sound(w)
    ensures Sound(r.1) && r.1.names == w.names && r.1.create == w.create
  {
    if n == 0 then (world, w)
    else
      var r := Run(world, w, n - 1);
      Step(r.0, r.1)
  }
}
