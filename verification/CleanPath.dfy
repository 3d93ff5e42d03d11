/** Lexical path cleaning and joining (Unix separator), as a stack machine over the
    components between slashes, and what a path means in a file tree. */
module CleanPath {
  import opened Slashes

  predicate Rooted(path: string)
  {
    path != "" && path[0] == '/'
  }

  /** One component: empty ones and dots vanish, a double dot takes the last name away. */
  function Push(rooted: bool, stack: seq<string>, part: string): seq<string>
  {
    if part == "" || part == "." then stack
    else if part != ".." then stack + [part]
    else if stack != [] && stack[|stack| - 1] != ".." then stack[..|stack| - 1]
    else if rooted then stack
    else stack + [".."]
  }

  function Fold(rooted: bool, stack: seq<string>, parts: seq<string>): seq<string>
    decreases |parts|
  {
    if parts == [] then stack else Fold(rooted, Push(rooted, stack, parts[0]), parts[1..])
  }

  function Components(path: string): seq<string>
  {
    Fold(Rooted(path), [], Split(path))
  }

  function Render(rooted: bool, parts: seq<string>): string
  {
    if rooted then "/" + Join(parts) else if parts == [] then "." else Join(parts)
  }

  function Clean(path: string): string
  {
    Render(Rooted(path), Components(path))
  }

  /** Joining ignores an empty first element and cleans the result. */
  function PathJoin(dest: string, name: string): string
  {
    if dest != "" then Clean(dest + "/" + name) else if name != "" then Clean(name) else ""
  }

  /** All of the path but its last element, cleaned. */
  function Dir(path: string): string
  {
    Clean(UpToLastSlash(path))
  }

  function UpToLastSlash(path: string): string
  {
    if path == "" || path[|path| - 1] == '/' then path else UpToLastSlash(path[..|path| - 1])
  }

  // ---------------------------------------------------------------- normal form

  predicate Ordinary(part: string)
  {
    part != "" && part != "." && part != ".." && SlashFree(part)
  }

  predicate AllOrdinary(parts: seq<string>)
  {
    forall p :: p in parts ==> Ordinary(p)
  }

  /** `k` times the double dot. */
  function Ups(k: nat): seq<string>
  {
    seq(k, _ => "..")
  }

  /** Normal form: `k` double dots in front, none in a rooted path, then proper names. */
  predicate NormalSplit(rooted: bool, parts: seq<string>, k: nat, names: seq<string>)
  {
    parts == Ups(k) + names && AllOrdinary(names) && (rooted ==> k == 0)
  }

  lemma PushNormal(rooted: bool, parts: seq<string>, k: nat, names: seq<string>, part: string)
        returns (k': nat, names': seq<string>)
    requires NormalSplit(rooted, parts, k, names) && SlashFree(part)
    ensures NormalSplit(rooted, Push(rooted, parts, part), k', names')
    ensures k' >= k
  {
    k', names' := k, names;
    if part == "" || part == "." {
    } else if part != ".." {
      names' := names + [part];
      assert parts + [part] == Ups(k) + names';
    } else if names != [] {
      assert names[|names| - 1] in names && parts[|parts| - 1] == names[|names| - 1];
      names' := names[..|names| - 1];
      assert parts[..|parts| - 1] == Ups(k) + names';
    } else if !rooted {
      k' := k + 1;
      assert parts + [".."] == Ups(k') + [];
    }
  }

  lemma {:induction false} FoldNormal(rooted: bool, stack: seq<string>, k: nat, names: seq<string>, parts: seq<string>)
        returns (k': nat, names': seq<string>)
    requires NormalSplit(rooted, stack, k, names) && AllSlashFree(parts)
    ensures NormalSplit(rooted, Fold(rooted, stack, parts), k', names')
    decreases |parts|
  {
    k', names' := k, names;
    if parts != [] {
      assert parts[0] in parts;
      k', names' := PushNormal(rooted, stack, k, names, parts[0]);
      k', names' := FoldNormal(rooted, Push(rooted, stack, parts[0]), k', names', parts[1..]);
    }
  }

  /** Cleaning always ends in normal form. */
  lemma ComponentsNormal(path: string) returns (k: nat, names: seq<string>)
    ensures NormalSplit(Rooted(path), Components(path), k, names)
  {
    SplitSlashFree(path);
    assert NormalSplit(Rooted(path), [], 0, []);
    k, names := FoldNormal(Rooted(path), [], 0, [], Split(path));
  }

  // ---------------------------------------------------------------- folding

  lemma {:induction false} FoldConcat(rooted: bool, stack: seq<string>, a: seq<string>, b: seq<string>)
    ensures Fold(rooted, stack, a + b) == Fold(rooted, Fold(rooted, stack, a), b)
    decreases |a|
  {
    hide Push;
    if a == [] {
      assert a + b == b;
    } else {
      FoldConcat(rooted, Push(rooted, stack, a[0]), a[1..], b);
      assert (a + b)[1..] == a[1..] + b;
    }
  }

  lemma {:induction false} FoldOrdinary(rooted: bool, stack: seq<string>, names: seq<string>)
    requires AllOrdinary(names)
    ensures Fold(rooted, stack, names) == stack + names
    decreases |names|
  {
    if names != [] {
      assert Ordinary(names[0]);
      FoldOrdinary(rooted, stack + [names[0]], names[1..]);
      assert stack + [names[0]] + names[1..] == stack + names;
    }
  }

  lemma {:induction false} FoldUps(k: nat, n: nat)
    ensures Fold(false, Ups(n), Ups(k)) == Ups(n + k)
    decreases k
  {
    if k > 0 {
      assert Ups(n) + [".."] == Ups(n + 1);
      assert Ups(k)[1..] == Ups(k - 1);
      FoldUps(k - 1, n + 1);
    }
  }

  /** Parts in normal form fold to themselves. */
  lemma FoldNormalIsSame(rooted: bool, parts: seq<string>, k: nat, names: seq<string>)
    requires NormalSplit(rooted, parts, k, names)
    ensures Fold(rooted, [], parts) == parts
  {
    FoldConcat(rooted, [], Ups(k), names);
    if k > 0 {
      FoldUps(k, 0);
      assert Ups(0) == [];
      assert Ups(0 + k) == Ups(k);
    } else {
      assert Ups(0) == [];
    }
    FoldOrdinary(rooted, Ups(k), names);
  }

  lemma {:induction false} SplitConcat(a: string, b: string)
    ensures Split(a + "/" + b) == Split(a) + Split(b)
  {
    hide Lead;
    var s := a + "/" + b;
    if a == "" {
      assert s[1..] == b;
    } else {
      SplitConcat(a[1..], b);
      assert s[1..] == a[1..] + "/" + b;
      assert s[0] == a[0];
      SplitHead(s);
      SplitHead(a);
      HeadThen(a[0], Split(a[1..]), Split(b));
    }
  }

  function Lead(c: char, pieces: seq<string>): seq<string>
    requires pieces != []
  {
    if c == '/' then [""] + pieces else [[c] + pieces[0]] + pieces[1..]
  }

  lemma SplitHead(s: string)
    requires s != ""
    ensures Split(s) == Lead(s[0], Split(s[1..]))
  {}

  lemma HeadThen(c: char, pieces: seq<string>, more: seq<string>)
    requires pieces != []
    ensures Lead(c, pieces + more) == Lead(c, pieces) + more
  {
    assert (pieces + more)[0] == pieces[0] && (pieces + more)[1..] == pieces[1..] + more;
  }

  /** Joining continues the fold of the first path with the parts of the second. */
  lemma JoinFolds(dest: string, name: string)
    requires dest != ""
    ensures PathJoin(dest, name) == Render(Rooted(dest), Fold(Rooted(dest), Components(dest), Split(name)))
    ensures Rooted(dest + "/" + name) == Rooted(dest)
    ensures Components(dest + "/" + name) == Fold(Rooted(dest), Components(dest), Split(name))
  {
    SplitConcat(dest, name);
    FoldConcat(Rooted(dest), [], Split(dest), Split(name));
    assert (dest + "/" + name)[0] == dest[0];
  }

  lemma NormalSlashFree(rooted: bool, parts: seq<string>, k: nat, names: seq<string>)
    requires NormalSplit(rooted, parts, k, names)
    ensures AllSlashFree(parts)
    ensures forall p :: p in parts ==> p != "" && p != "."
  {
    forall p | p in parts ensures SlashFree(p) && p != "" && p != "." {
      var i :| 0 <= i < |parts| && parts[i] == p;
      assert i >= k ==> parts[i] == names[i - k];
    }
  }

  /** Rendering normal parts and taking the result apart again gives the parts. */
  lemma RenderComponents(rooted: bool, parts: seq<string>, k: nat, names: seq<string>)
    requires NormalSplit(rooted, parts, k, names)
    ensures Rooted(Render(rooted, parts)) == rooted && Components(Render(rooted, parts)) == parts
  {
    var s := Render(rooted, parts);
    NormalSlashFree(rooted, parts, k, names);
    FoldNormalIsSame(rooted, parts, k, names);
    if parts == [] {
      if rooted {
        assert s == "/" && Split("")==[""] && Split(s) == [""] + [""];
        assert Fold(true, [], [""]) == [] && ([""] + [""])[1..] == [""];
      } else {
        SplitPiece(".", "");
      }
    } else {
      SplitJoin(parts);
      assert parts[0] in parts;
      if rooted {
        assert s[1..] == Join(parts);
        assert Split(s) == [""] + parts;
        assert ([""] + parts)[1..] == parts;
      }
    }
  }

  /** Cleaning twice is cleaning once. */
  lemma CleanIdempotent(path: string)
    ensures Clean(Clean(path)) == Clean(path)
    ensures Components(Clean(path)) == Components(path) && Rooted(Clean(path)) == Rooted(path)
  {
    var k, names := ComponentsNormal(path);
    RenderComponents(Rooted(path), Components(path), k, names);
  }

  // ---------------------------------------------------------------- meaning

  /** A place in the file tree: the names on the way from the root. */
  type Location = seq<string>

  /** One step in the tree: names go down, double dots go up, and the root is its own
      parent. */
  function Enter(at: Location, part: string): Location
  {
    if part == "" || part == "." then at
    else if part == ".." then (if at == [] then [] else at[..|at| - 1])
    else at + [part]
  }

  function Walk(at: Location, parts: seq<string>): Location
    decreases |parts|
  {
    if parts == [] then at else Walk(Enter(at, parts[0]), parts[1..])
  }

  /** Where a path leads from a working directory, when no links are followed. */
  function Resolve(cwd: Location, path: string): Location
  {
    Walk(if Rooted(path) then [] else cwd, Split(path))
  }

  lemma {:induction false} WalkIsFold(at: Location, parts: seq<string>)
    requires AllOrdinary(at) && AllSlashFree(parts)
    ensures Walk(at, parts) == Fold(true, at, parts) && AllOrdinary(Walk(at, parts))
    decreases |parts|
  {
    if parts != [] {
      assert parts[0] in parts;
      assert Enter(at, parts[0]) == Push(true, at, parts[0]) by {
        assert at != [] ==> at[|at| - 1] in at;
      }
      WalkIsFold(Enter(at, parts[0]), parts[1..]);
    }
  }

  /** Going to normal parts from `base`. */
  function Go(base: Location, parts: seq<string>): Location
  {
    Fold(true, base, parts)
  }

  /** One step after a lexical fold, or one step further in the tree: the same place. */
  lemma PushThenGo(rooted: bool, base: Location, stack: seq<string>, k: nat, names: seq<string>, part: string)
    requires AllOrdinary(base) && NormalSplit(rooted, stack, k, names) && SlashFree(part)
    requires rooted ==> base == []
    ensures Go(base, Push(rooted, stack, part)) == Push(true, Go(base, stack), part)
  {
    if part == "" || part == "." {
    } else if part != ".." {
      FoldConcat(true, base, stack, [part]);
    } else if names != [] {
      assert stack[|stack| - 1] == names[|names| - 1] && Ordinary(names[|names| - 1]);
      FoldConcat(true, base, stack[..|stack| - 1], [names[|names| - 1]]);
      assert stack == stack[..|stack| - 1] + [names[|names| - 1]];
      var before := Go(base, stack[..|stack| - 1]);
      assert Go(base, stack) == before + [names[|names| - 1]];
    } else if rooted {
      assert stack == [];
    } else {
      assert stack == [] || stack[|stack| - 1] == "..";
      FoldConcat(true, base, stack, [".."]);
    }
  }

  lemma {:induction false} FoldThenGo(rooted: bool, base: Location, stack: seq<string>, k: nat,
        names: seq<string>, parts: seq<string>)
    requires AllOrdinary(base) && NormalSplit(rooted, stack, k, names) && AllSlashFree(parts)
    requires rooted ==> base == []
    ensures Go(base, Fold(rooted, stack, parts)) == Fold(true, Go(base, stack), parts)
    decreases |parts|
  {
    if parts != [] {
      assert parts[0] in parts;
      var k', names' := PushNormal(rooted, stack, k, names, parts[0]);
      PushThenGo(rooted, base, stack, k, names, parts[0]);
      FoldThenGo(rooted, base, Push(rooted, stack, parts[0]), k', names', parts[1..]);
    }
  }

  /** The cleaned components lead where the path leads. */
  lemma ResolveByComponents(cwd: Location, path: string)
    requires AllOrdinary(cwd)
    ensures Resolve(cwd, path) == Go(if Rooted(path) then [] else cwd, Components(path))
  {
    var base: Location := if Rooted(path) then [] else cwd;
    SplitSlashFree(path);
    WalkIsFold(base, Split(path));
    assert NormalSplit(Rooted(path), [], 0, []);
    FoldThenGo(Rooted(path), base, [], 0, [], Split(path));
    assert Go(base, []) == base;
  }

  /** Cleaning a path never changes where it leads, from any working directory. */
  lemma CleanKeepsMeaning(cwd: Location, path: string)
    requires AllOrdinary(cwd)
    ensures Resolve(cwd, Clean(path)) == Resolve(cwd, path)
  {
    CleanIdempotent(path);
    ResolveByComponents(cwd, path);
    ResolveByComponents(cwd, Clean(path));
  }

  lemma {:induction false} GoUps(base: Location, k: nat)
    requires AllOrdinary(base)
    ensures Go(base, Ups(k)) == base[..if k <= |base| then |base| - k else 0]
  {
    if k > 0 {
      assert Ups(k)[1..] == Ups(k - 1) && Ups(k)[0] == "..";
      if base != [] {
        assert base[|base| - 1] in base;
        var up := base[..|base| - 1];
        forall p | p in up ensures Ordinary(p) { assert p in base; }
        GoUps(up, k - 1);
      } else {
        GoUps(base, k - 1);
      }
    } else {
      assert Ups(0) == [];
    }
  }

  /** Up `k` levels and down the names. */
  lemma GoNormal(base: Location, rooted: bool, parts: seq<string>, k: nat, names: seq<string>)
    requires AllOrdinary(base) && NormalSplit(rooted, parts, k, names)
    ensures Go(base, parts) == base[..if k <= |base| then |base| - k else 0] + names
  {
    FoldConcat(true, base, Ups(k), names);
    GoUps(base, k);
    FoldOrdinary(true, Go(base, Ups(k)), names);
  }
}
