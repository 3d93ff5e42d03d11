/** The group forest a Keycloak realm stores, and the calls that read and grow it. */
module Forest {
  import opened Wrappers
  import opened Sequences

  type Id = nat

  /** A group as the API returns it. A name is absent when the reply omits it. */
  datatype Group = Group(id: Id, name: Option<string>, path: string)

  /** A stored group below `parent`, or at the top level when there is none. */
  datatype Node = Node(parent: Option<Id>, group: Group)

  /** All nodes of a realm in the order in which the server lists them. */
  type Forest = seq<Node>

  /** A group as the walks hold it; `Nil` stands for the root of the forest. */
  datatype GroupRef = Nil | Ref(group: Group)

  datatype Error = Transport | Conflict | NotFound | InvalidPath

  function IdOf(r: GroupRef): Option<Id>
  {
    match r
    case Nil => None
    case Ref(g) => Some(g.id)
  }

  function PathOf(r: GroupRef): string
  {
    match r
    case Nil => ""
    case Ref(g) => g.path
  }

  /** The children of `parent` in listing order. */
  function Listing(f: Forest, parent: Option<Id>): seq<Group>
  {
    if f == [] then []
    else (if f[0].parent == parent then [f[0].group] else []) + Listing(f[1..], parent)
  }

  /** The first group of a listing that carries the name. */
  function FirstNamed(groups: seq<Group>, name: string): Option<Group>
  {
    if groups == [] then None
    else if groups[0].name == Some(name) then Some(groups[0])
    else FirstNamed(groups[1..], name)
  }

  /** The node that a list of names leads to from the root. */
  function Locate(f: Forest, names: seq<string>): Option<GroupRef>
  {
    if names == [] then Some(Nil)
    else
      match Locate(f, names[..|names| - 1])
      case None => None
      case Some(parent) =>
        match FirstNamed(Listing(f, IdOf(parent)), names[|names| - 1])
        case None => None
        case Some(g) => Some(Ref(g))
  }

  /** How many leading names already lead somewhere. */
  function ExistingPrefix(f: Forest, names: seq<string>): (k: nat)
    ensures k <= |names|
  {
    if names == [] || Locate(f, names).Some? then |names|
    else ExistingPrefix(f, names[..|names| - 1])
  }

  predicate HasId(f: Forest, id: Id)
  {
    exists n :: n in f && n.group.id == id
  }

  function FreshId(f: Forest): (id: Id)
    ensures forall n :: n in f ==> n.group.id < id
  {
    if f == [] then 0
    else
      var rest := FreshId(f[1..]);
      if rest <= f[0].group.id then f[0].group.id + 1 else rest
  }

  /** The path stored with a parent id. */
  function StoredPath(f: Forest, parent: Option<Id>): string
  {
    if parent.None? || f == [] then ""
    else if f[0].group.id == parent.value then f[0].group.path
    else StoredPath(f[1..], parent)
  }

  // ---------------------------------------------------------------- invariants

  ghost predicate DistinctIds(f: Forest)
  {
    forall i, j :: 0 <= i < j < |f| ==> f[i].group.id != f[j].group.id
  }

  /** Siblings never share a name. */
  ghost predicate UniqueSiblings(f: Forest)
  {
    forall a, b :: a in f && b in f && a.parent == b.parent && a.group.name.Some? && a.group.name == b.group.name ==>
        a == b
  }

  /** Parents exist and are older than their children, so there is no cycle. */
  ghost predicate Rooted(f: Forest)
  {
    forall n {:trigger HasId(f, n.parent.value)} :: n in f && n.parent.Some? ==>
        n.parent.value < n.group.id && HasId(f, n.parent.value)
  }

  ghost predicate WellFormed(f: Forest)
  {
    DistinctIds(f) && UniqueSiblings(f) && Rooted(f)
  }

  /** Every named node's path is its parent's path, a slash and its name. */
  ghost predicate PathsSpelled(f: Forest)
  {
    forall n :: n in f && n.group.name.Some? ==>
      n.group.path == StoredPath(f, n.parent) + "/" + n.group.name.value
  }

  function PathString(names: seq<string>): string
  {
    if names == [] then "" else PathString(names[..|names| - 1]) + "/" + names[|names| - 1]
  }

  // ---------------------------------------------------------------- creation

  /** The server's create call: the parent must exist, a second sibling of the same
      name is refused, and the new group gets a fresh id and a place in the listing. */
  function Create(f: Forest, parent: Option<Id>, name: string, at: nat): (Forest, Result<Id, Error>)
  {
    if parent.Some? && !HasId(f, parent.value) then (f, Err(NotFound))
    else if FirstNamed(Listing(f, parent), name).Some? then (f, Err(Conflict))
    else
      var id := FreshId(f);
      var group := Group(id, Some(name), StoredPath(f, parent) + "/" + name);
      (InsertAt(f, at, Node(parent, group)), Ok(id))
  }

  // ---------------------------------------------------------------- listings

  lemma {:induction false} ListingMember(f: Forest, parent: Option<Id>, g: Group)
    ensures g in Listing(f, parent) <==> Node(parent, g) in f
  {
    if f != [] {
      ListingMember(f[1..], parent, g);
      assert Node(parent, g) in f <==> Node(parent, g) == f[0] || Node(parent, g) in f[1..];
    }
  }

  lemma ListingNothing(parent: Option<Id>)
    ensures Listing([], parent) == []
  {}

  lemma ListingHead(n: Node, f: Forest, parent: Option<Id>) returns (head: seq<Group>)
    ensures head == if n.parent == parent then [n.group] else []
    ensures Listing([n] + f, parent) == head + Listing(f, parent)
  {
    head := if n.parent == parent then [n.group] else [];
    assert ([n] + f)[1..] == f;
  }

  lemma {:induction false} ListingConcat(a: Forest, b: Forest, parent: Option<Id>)
    ensures Listing(a + b, parent) == Listing(a, parent) + Listing(b, parent)
  {
    hide Listing;
    if a == [] {
      ListingNothing(parent);
      assert a + b == b;
    } else {
      ListingConcat(a[1..], b, parent);
      assert a + b == [a[0]] + (a[1..] + b);
      var head := ListingHead(a[0], a[1..] + b, parent);
      var head' := ListingHead(a[0], a[1..], parent);
      assert a == [a[0]] + a[1..];
      assert head == head';
    }
  }

  lemma {:induction false} ListingSubseq(f: Forest, f': Forest, parent: Option<Id>)
    requires Subseq(f, f')
    ensures Subseq(Listing(f, parent), Listing(f', parent))
    decreases f'
  {
    if f != [] {
      var rest' := Listing(f'[1..], parent);
      var g := f'[0].group;
      if f[0] == f'[0] && Subseq(f[1..], f'[1..]) {
        ListingSubseq(f[1..], f'[1..], parent);
        if f'[0].parent != parent {
          assert Listing(f, parent) == Listing(f[1..], parent) && Listing(f', parent) == rest';
        }
      } else {
        ListingSubseq(f, f'[1..], parent);
        if f'[0].parent != parent {
          assert Listing(f', parent) == rest';
        }
      }
    }
  }

  lemma {:induction false} ListingLength(f: Forest, parent: Option<Id>)
    ensures |Listing(f, parent)| <= |f|
  {
    if f != [] {
      ListingLength(f[1..], parent);
    }
  }

  lemma {:induction false} FirstNamedSound(groups: seq<Group>, name: string)
    ensures var r := FirstNamed(groups, name);
            && (r.Some? ==> r.value in groups && r.value.name == Some(name))
            && (r.None? <==> forall g :: g in groups ==> g.name != Some(name))
  {
    if groups != [] && groups[0].name != Some(name) {
      FirstNamedSound(groups[1..], name);
    }
  }

  /** Looking a child up by name is exact in a well-formed forest. */
  lemma {:induction false} ChildExact(f: Forest, parent: Option<Id>, name: string, g: Group)
    requires UniqueSiblings(f)
    ensures FirstNamed(Listing(f, parent), name) == Some(g) <==> Node(parent, g) in f && g.name == Some(name)
  {
    var r := FirstNamed(Listing(f, parent), name);
    FirstNamedSound(Listing(f, parent), name);
    ListingMember(f, parent, g);
    if r.Some? {
      ListingMember(f, parent, r.value);
    }
  }

  lemma {:induction false} StoredPathIs(f: Forest, n: Node)
    requires DistinctIds(f) && n in f
    ensures StoredPath(f, Some(n.group.id)) == n.group.path
  {
    if f[0] != n {
      assert DistinctIds(f[1..]) by {
        forall i, j | 0 <= i < j < |f[1..]| ensures f[1..][i].group.id != f[1..][j].group.id {
          assert f[1..][i] == f[i + 1] && f[1..][j] == f[j + 1];
        }
      }
      StoredPathIs(f[1..], n);
    }
  }

  // ---------------------------------------------------------------- name paths

  /** What a list of names leads to is a stored node of that name. */
  lemma {:induction false} LocateIsNode(f: Forest, names: seq<string>)
    requires names != [] && Locate(f, names).Some?
    ensures var up := Locate(f, names[..|names| - 1]);
            && up.Some?
            && Locate(f, names).value.Ref?
            && var g := Locate(f, names).value.group;
            && g.name == Some(names[|names| - 1])
            && Node(IdOf(up.value), g) in f
  {
    var up := Locate(f, names[..|names| - 1]).value;
    var g := Locate(f, names).value.group;
    FirstNamedSound(Listing(f, IdOf(up)), names[|names| - 1]);
    ListingMember(f, IdOf(up), g);
  }

  /** The reference meaning of a name path: a chain of stored nodes, one below the other,
      that carry the names. */
  ghost predicate LeadsTo(f: Forest, names: seq<string>, n: Node)
    decreases |names|
  {
    && names != [] && n in f && n.group.name == Some(names[|names| - 1])
    && (if |names| == 1 then n.parent == None
        else exists up :: up in f && n.parent == Some(up.group.id) && LeadsTo(f, names[..|names| - 1], up))
  }

  /** Following names level by level finds the one node at the end of such a chain. */
  lemma {:induction false} LocateExact(f: Forest, names: seq<string>, n: Node)
    requires WellFormed(f) && n in f && names != []
    ensures LeadsTo(f, names, n) <==> Locate(f, names) == Some(Ref(n.group))
    decreases |names|
  {
    var front := names[..|names| - 1];
    if LeadsTo(f, names, n) {
      if |names| > 1 {
        var up :| up in f && n.parent == Some(up.group.id) && LeadsTo(f, front, up);
        LocateExact(f, front, up);
      }
      ChildExact(f, n.parent, names[|names| - 1], n.group);
    }
    if Locate(f, names) == Some(Ref(n.group)) {
      LocateIsNode(f, names);
      var up := Locate(f, front).value;
      if |names| > 1 {
        LocateIsNode(f, front);
        var upNode := Node(IdOf(Locate(f, front[..|front| - 1]).value), up.group);
        LocateExact(f, front, upNode);
      }
    }
  }

  /** Each name path exists at most once. */
  lemma {:induction false} NamePathOnce(f: Forest, names: seq<string>, a: Node, b: Node)
    requires WellFormed(f) && LeadsTo(f, names, a) && LeadsTo(f, names, b)
    ensures a == b
  {
    LocateExact(f, names, a);
    LocateExact(f, names, b);
  }

  /** Growing a forest never changes where an existing path leads. */
  lemma {:induction false} LocateStable(f: Forest, f': Forest, names: seq<string>)
    requires UniqueSiblings(f') && Subseq(f, f') && Locate(f, names).Some?
    ensures Locate(f', names) == Locate(f, names)
  {
    if names != [] {
      var front, last := names[..|names| - 1], names[|names| - 1];
      LocateStable(f, f', front);
      LocateIsNode(f, names);
      var up := IdOf(Locate(f, front).value);
      var g := Locate(f, names).value.group;
      SubseqMember(f, f', Node(up, g));
      ChildExact(f', up, last, g);
    }
  }

  /** No two name paths lead to the same node. */
  lemma {:induction false} LocateInjective(f: Forest, a: seq<string>, b: seq<string>)
    requires WellFormed(f) && Locate(f, a).Some? && Locate(f, b).Some?
    requires IdOf(Locate(f, a).value) == IdOf(Locate(f, b).value)
    ensures a == b
  {
    if a == [] || b == [] {
      if a != [] {
        LocateIsNode(f, a);
      } else if b != [] {
        LocateIsNode(f, b);
      }
    } else {
      LocateIsNode(f, a);
      LocateIsNode(f, b);
      var ua, ub := Locate(f, a[..|a| - 1]).value, Locate(f, b[..|b| - 1]).value;
      var ga, gb := Locate(f, a).value.group, Locate(f, b).value.group;
      LocateInjective(f, a[..|a| - 1], b[..|b| - 1]);
      assert a == a[..|a| - 1] + [a[|a| - 1]] && b == b[..|b| - 1] + [b[|b| - 1]];
    }
  }

  lemma {:induction false} LocatePrefix(f: Forest, names: seq<string>, k: nat)
    requires k <= |names| && Locate(f, names).Some?
    ensures Locate(f, names[..k]).Some?
  {
    if k < |names| {
      var front := names[..|names| - 1];
      LocatePrefix(f, front, k);
      assert front[..k] == names[..k];
    } else {
      assert names[..k] == names;
    }
  }

  /** The existing part of a name path is exactly its first `ExistingPrefix` names. */
  lemma {:induction false} ExistingPrefixExact(f: Forest, names: seq<string>, k: nat)
    requires k <= |names|
    ensures Locate(f, names[..k]).Some? <==> k <= ExistingPrefix(f, names)
  {
    if Locate(f, names).Some? {
      LocatePrefix(f, names, k);
    } else if names != [] {
      var front := names[..|names| - 1];
      if k < |names| {
        ExistingPrefixExact(f, front, k);
        assert front[..k] == names[..k];
      } else {
        assert names[..k] == names;
      }
    }
  }

  /** With spelled paths, a node's stored path is the names that lead to it. */
  lemma {:induction false} LocatePath(f: Forest, names: seq<string>)
    requires WellFormed(f) && PathsSpelled(f) && Locate(f, names).Some?
    ensures PathOf(Locate(f, names).value) == PathString(names)
  {
    if names != [] {
      var front := names[..|names| - 1];
      LocatePath(f, front);
      LocateIsNode(f, names);
      LocatedStoredPath(f, front);
      var up := Locate(f, front).value;
      var n := Node(IdOf(up), Locate(f, names).value.group);
      assert n in f && n.group.name == Some(names[|names| - 1]);
    }
  }

  lemma LocatedStoredPath(f: Forest, names: seq<string>)
    requires WellFormed(f) && Locate(f, names).Some?
    ensures StoredPath(f, IdOf(Locate(f, names).value)) == PathOf(Locate(f, names).value)
    ensures IdOf(Locate(f, names).value).Some? ==> HasId(f, IdOf(Locate(f, names).value).value)
  {
    if names != [] {
      LocateIsNode(f, names);
      StoredPathIs(f, Node(IdOf(Locate(f, names[..|names| - 1]).value), Locate(f, names).value.group));
    }
  }

  // ---------------------------------------------------------------- what a create does

  lemma InsertMembers<T>(s: seq<T>, at: nat, x: T, y: T)
    ensures y in InsertAt(s, at, x) <==> y in s || y == x
  {
    var k := if at <= |s| then at else |s|;
    assert s == s[..k] + s[k..];
  }

  /** Every create keeps the forest well formed and only ever adds to it. */
  lemma CreateKeeps(f: Forest, parent: Option<Id>, name: string, at: nat)
    requires WellFormed(f)
    ensures var f' := Create(f, parent, name, at).0;
            && WellFormed(f') && Subseq(f, f') && |f'| <= |f| + 1
            && (PathsSpelled(f) ==> PathsSpelled(f'))
  {
    hide DistinctIds, UniqueSiblings, Rooted, PathsSpelled, Subseq;
    SubseqRefl(f);
    var (f', r) := Create(f, parent, name, at);
    if r.Ok? {
      var group := Group(r.value, Some(name), StoredPath(f, parent) + "/" + name);
      var node := Node(parent, group);
      SubseqInsert(f, at, node);
      forall n ensures n in f' <==> n in f || n == node {
        InsertMembers(f, at, node, n);
      }
      InsertKeepsIds(f, at, node);
      InsertKeepsSiblings(f, f', node, name);
      InsertKeepsRoots(f, f', node);
      InsertKeepsPaths(f, f', node);
    }
  }

  lemma InsertKeepsSiblings(f: Forest, f': Forest, node: Node, name: string)
    requires UniqueSiblings(f) && node.group.name == Some(name)
    requires forall n :: n in f' <==> n in f || n == node
    requires FirstNamed(Listing(f, node.parent), name).None?
    ensures UniqueSiblings(f')
  {
    FirstNamedSound(Listing(f, node.parent), name);
    forall g ensures Node(node.parent, g) in f && g.name == Some(name) ==> false {
      ListingMember(f, node.parent, g);
    }
  }

  lemma InsertKeepsRoots(f: Forest, f': Forest, node: Node)
    requires Rooted(f) && forall n :: n in f' <==> n in f || n == node
    requires node.parent.Some? ==> node.parent.value < node.group.id && HasId(f, node.parent.value)
    ensures Rooted(f')
  {
    forall id | HasId(f, id) ensures HasId(f', id) {
      var n :| n in f && n.group.id == id;
      assert n in f';
    }
    forall n | n in f' && n.parent.Some? ensures n.parent.value < n.group.id && HasId(f', n.parent.value) {
      assert n == node || n in f;
      assert HasId(f, n.parent.value);
    }
  }

  lemma InsertKeepsPaths(f: Forest, f': Forest, node: Node)
    requires DistinctIds(f) && DistinctIds(f') && Rooted(f) && forall n :: n in f' <==> n in f || n == node
    requires node.parent.Some? ==> HasId(f, node.parent.value)
    requires node.group.name.Some? && node.group.path == StoredPath(f, node.parent) + "/" + node.group.name.value
    ensures PathsSpelled(f) ==> PathsSpelled(f')
  {
    forall n | PathsSpelled(f) && n in f' && n.group.name.Some?
      ensures n.group.path == StoredPath(f', n.parent) + "/" + n.group.name.value
    {
      assert n.parent.Some? ==> HasId(f, n.parent.value);
      StoredPathKept(f, f', n.parent, node);
    }
  }

  lemma InsertKeepsIds(f: Forest, at: nat, node: Node)
    requires DistinctIds(f) && forall n :: n in f ==> n.group.id != node.group.id
    ensures DistinctIds(InsertAt(f, at, node))
  {
    var k := if at <= |f| then at else |f|;
    var f' := InsertAt(f, at, node);
    forall i, j | 0 <= i < j < |f'| ensures f'[i].group.id != f'[j].group.id {
      assert i != k ==> f'[i] == f[if i < k then i else i - 1];
      assert j != k ==> f'[j] == f[if j < k then j else j - 1];
    }
  }

  lemma StoredPathKept(f: Forest, f': Forest, parent: Option<Id>, node: Node)
    requires DistinctIds(f) && DistinctIds(f')
    requires forall n :: n in f' <==> n in f || n == node
    requires parent.Some? ==> HasId(f, parent.value)
    ensures StoredPath(f', parent) == StoredPath(f, parent)
  {
    if parent.Some? {
      var n :| n in f && n.group.id == parent.value;
      StoredPathIs(f, n);
      StoredPathIs(f', n);
    }
  }

  /** A create below the node that `names` leads to is refused exactly when the name is
      taken there, and otherwise stores the very group the client builds locally. */
  lemma CreateAt(f: Forest, names: seq<string>, name: string, at: nat)
    requires WellFormed(f) && Locate(f, names).Some?
    ensures var parent := Locate(f, names).value;
            var (f', r) := Create(f, IdOf(parent), name, at);
            && (r.Ok? <==> Locate(f, names + [name]).None?)
            && (r.Err? ==> r.error == Conflict && f' == f)
            && (r.Ok? ==>
                  && r.value == FreshId(f)
                  && f' == InsertAt(f, at, Node(IdOf(parent), Group(r.value, Some(name), PathOf(parent) + "/" + name))))
  {
    assert (names + [name])[..|names|] == names;
    LocatedStoredPath(f, names);
  }

  /** Such a create makes exactly one name path appear: `names + [name]`. */
  lemma {:induction false} CreateEffect(f: Forest, names: seq<string>, name: string, at: nat, p: seq<string>)
    requires WellFormed(f) && Locate(f, names).Some? && Locate(f, names + [name]).None?
    ensures var parent := Locate(f, names).value;
            var (f', r) := Create(f, IdOf(parent), name, at);
            && r.Ok?
            && Locate(f', p) == if p == names + [name]
               then Some(Ref(Group(r.value, Some(name), PathOf(parent) + "/" + name)))
                                else Locate(f, p)
  {
    var parent := Locate(f, names).value;
    CreateAt(f, names, name, at);
    var g := Group(FreshId(f), Some(name), PathOf(parent) + "/" + name);
    if p != [] {
      var front, last := p[..|p| - 1], p[|p| - 1];
      assert p == front + [last];
      CreateEffect(f, names, name, at, front);
      if front == names + [name] {
        NoChildrenYet(f, IdOf(parent), g, at, last);
        assert p != names + [name];
      } else if Locate(f, front).Some? {
        CreateEffectStep(f, names, name, at, front, last);
      }
    }
  }

  lemma CreateEffectStep(f: Forest, names: seq<string>, name: string, at: nat, front: seq<string>, last: string)
    requires WellFormed(f) && Locate(f, names).Some? && Locate(f, names + [name]).None?
    requires Locate(f, front).Some?
    ensures var parent := Locate(f, names).value;
            var g := Group(FreshId(f), Some(name), PathOf(parent) + "/" + name);
            FirstNamed(Listing(InsertAt(f, at, Node(IdOf(parent), g)), IdOf(Locate(f, front).value)), last) ==
            if front + [last] == names + [name] then Some(g)
            else FirstNamed(Listing(f, IdOf(Locate(f, front).value)), last)
  {
    var parent := Locate(f, names).value;
    var g := Group(FreshId(f), Some(name), PathOf(parent) + "/" + name);
    CreateAt(f, names, name, at);
    CreateKeeps(f, IdOf(parent), name, at);
    ChildAfterCreate(f, IdOf(parent), g, at, IdOf(Locate(f, front).value), last);
    if IdOf(Locate(f, front).value) == IdOf(parent) {
      LocateInjective(f, front, names);
    } else {
      assert (front + [last])[..|front|] == front && (names + [name])[..|names|] == names;
    }
    assert (front + [last])[|front|] == last && (names + [name])[|names|] == name;
  }

  lemma NoOrphans(f: Forest, id: Id)
    requires Rooted(f) && forall n :: n in f ==> n.group.id < id
    ensures forall n :: n in f ==> n.parent != Some(id)
  {
    forall n | n in f && n.parent.Some? ensures n.parent.value != id {
      assert HasId(f, n.parent.value);
    }
  }

  lemma NoChildrenYet(f: Forest, parent: Option<Id>, g: Group, at: nat, name: string)
    requires WellFormed(f) && (forall n :: n in f ==> n.group.id < g.id) && parent != Some(g.id)
    ensures FirstNamed(Listing(InsertAt(f, at, Node(parent, g)), Some(g.id)), name).None?
  {
    var f' := InsertAt(f, at, Node(parent, g));
    NoOrphans(f, g.id);
    FirstNamedSound(Listing(f', Some(g.id)), name);
    forall c | c in Listing(f', Some(g.id)) ensures false {
      ListingMember(f', Some(g.id), c);
      InsertMembers(f, at, Node(parent, g), Node(Some(g.id), c));
    }
  }

  lemma ChildAfterCreate(f: Forest, parent: Option<Id>, g: Group, at: nat, under: Option<Id>, name: string)
    requires WellFormed(f) && WellFormed(InsertAt(f, at, Node(parent, g)))
    ensures FirstNamed(Listing(InsertAt(f, at, Node(parent, g)), under), name) ==
            if under == parent && g.name == Some(name) then Some(g) else FirstNamed(Listing(f, under), name)
  {
    var f' := InsertAt(f, at, Node(parent, g));
    var here, there := FirstNamed(Listing(f, under), name), FirstNamed(Listing(f', under), name);
    InsertMembers(f, at, Node(parent, g), Node(parent, g));
    if under == parent && g.name == Some(name) {
      ChildExact(f', under, name, g);
    } else {
      if here.Some? {
        ChildExact(f, under, name, here.value);
        InsertMembers(f, at, Node(parent, g), Node(under, here.value));
        ChildExact(f', under, name, here.value);
      }
      if there.Some? {
        ChildExact(f', under, name, there.value);
        InsertMembers(f, at, Node(parent, g), Node(under, there.value));
        ChildExact(f, under, name, there.value);
      }
    }
  }
}
