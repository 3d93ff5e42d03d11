/** The guard of zip extraction: a string-prefix test that stands for containment. */
module ZipGuard {
  import opened Slashes
  import opened CleanPath

  /** The test the extraction loop makes before it touches anything. */
  predicate Accepts(dest: string, name: string)
  {
    Clean(dest) + "/" <= PathJoin(dest, name)
  }

  /** The cleaned components of the joined path. */
  function Target(dest: string, name: string): seq<string>
  {
    Fold(Rooted(dest), Components(dest), Split(name))
  }

  /** What the guard is for: from every working directory, the second path leads to a place
      strictly below the place the first one leads to. */
  ghost predicate StrictlyBelow(dest: string, path: string)
  {
    forall cwd :: AllOrdinary(cwd) ==> Resolve(cwd, dest) < Resolve(cwd, path)
  }

  /** The cleaned destination ends in a proper name: it is not ".", not "/" and not made
      of double dots only. */
  predicate Anchored(dest: string)
  {
    var parts := Components(dest);
    parts != [] && parts[|parts| - 1] != ".."
  }

  // ---------------------------------------------------------------- strings and components

  lemma FirstSlash(x: string, y: string, u: string, v: string)
    requires SlashFree(x) && SlashFree(u) && x + "/" + y <= u + "/" + v
    ensures x == u && y <= v
  {
    var p, q := x + "/" + y, u + "/" + v;
    assert p[|x|] == '/' && q[|u|] == '/';
    assert forall i :: 0 <= i < |x| ==> p[i] == x[i] && x[i] in x;
    assert forall i :: 0 <= i < |u| ==> q[i] == u[i] && u[i] in u;
    assert forall i :: 0 <= i < |p| ==> p[i] == q[i];
    assert |x| == |u|;
    assert x == p[..|x|] && u == q[..|u|];
    assert y == p[|x| + 1..] && v == q[|u| + 1..];
  }

  lemma FirstSlashAlone(x: string, y: string, u: string)
    requires SlashFree(u)
    ensures !(x + "/" + y <= u)
  {
    assert (x + "/" + y)[|x|] == '/';
    assert |x| < |u| ==> u[|x|] in u;
  }

  /** A joined list followed by a slash is a string prefix of another joined list exactly
      when the one list is a proper prefix of the other. */
  lemma {:induction false} JoinPrefix(a: seq<string>, b: seq<string>)
    requires a != [] && AllSlashFree(a) && AllSlashFree(b)
    ensures Join(a) + "/" <= Join(b) <==> a < b
  {
    assert a[0] in a;
    if b == [] {
    } else if |b| == 1 {
      assert b[0] in b;
      if |a| == 1 {
        FirstSlashAlone(a[0], "", b[0]);
        assert a[0] + "/" + "" == a[0] + "/";
      } else {
        FirstSlashAlone(a[0], Join(a[1..]) + "/", b[0]);
        assert Join(a) + "/" == a[0] + "/" + (Join(a[1..]) + "/");
      }
    } else if |a| == 1 {
      assert b[0] in b;
      assert Join(a) + "/" == a[0] + "/" + "" && Join(b) == b[0] + "/" + Join(b[1..]);
      if Join(a) + "/" <= Join(b) {
        FirstSlash(a[0], "", b[0], Join(b[1..]));
      }
      if a < b {
        assert a[0] == b[0];
      }
    } else {
      JoinPrefixStep(a, b);
      JoinPrefix(a[1..], b[1..]);
    }
  }

  lemma JoinPrefixStep(a: seq<string>, b: seq<string>)
    requires |a| > 1 && |b| > 1 && AllSlashFree(a) && AllSlashFree(b)
    ensures Join(a) + "/" <= Join(b) <==> a[0] == b[0] && Join(a[1..]) + "/" <= Join(b[1..])
    ensures a < b <==> a[0] == b[0] && a[1..] < b[1..]
  {
    assert a[0] in a && b[0] in b;
    var x, y := Join(a[1..]) + "/", Join(b[1..]);
    assert Join(a) + "/" == a[0] + "/" + x && Join(b) == b[0] + "/" + y;
    PieceAndTail(a[0], x, b[0], y);
    TailPrefix(a, b);
  }

  lemma PieceAndTail(p: string, x: string, q: string, y: string)
    requires SlashFree(p) && SlashFree(q)
    ensures p + "/" + x <= q + "/" + y <==> p == q && x <= y
  {
    if p + "/" + x <= q + "/" + y {
      FirstSlash(p, x, q, y);
    }
    if p == q && x <= y {
      assert y == x + y[|x|..];
      assert q + "/" + y == (p + "/" + x) + y[|x|..];
    }
  }

  lemma TailPrefix(a: seq<string>, b: seq<string>)
    requires a != [] && b != []
    ensures a < b <==> a[0] == b[0] && a[1..] < b[1..]
  {
    assert a == [a[0]] + a[1..] && b == [b[0]] + b[1..];
    if a[0] == b[0] && a[1..] < b[1..] {
      assert b[..|a|] == [b[0]] + b[1..][..|a| - 1];
    }
    if a < b {
      assert a == b[..|a|];
    }
  }

  /** The joined path in normal form. */
  lemma TargetNormal(dest: string, name: string) returns (k: nat, names: seq<string>)
    requires dest != ""
    ensures NormalSplit(Rooted(dest), Target(dest, name), k, names)
    ensures PathJoin(dest, name) == Render(Rooted(dest), Target(dest, name))
    ensures Rooted(PathJoin(dest, name)) == Rooted(dest) && Components(PathJoin(dest, name)) == Target(dest, name)
  {
    var k0, names0 := ComponentsNormal(dest);
    SplitSlashFree(name);
    k, names := FoldNormal(Rooted(dest), Components(dest), k0, names0, Split(name));
    JoinFolds(dest, name);
    RenderComponents(Rooted(dest), Target(dest, name), k, names);
  }

  /** A joined path leads where the name leads from the place of the destination. */
  lemma JoinKeepsMeaning(cwd: Location, dest: string, name: string)
    requires AllOrdinary(cwd)
    ensures dest != "" ==> Resolve(cwd, PathJoin(dest, name)) == Walk(Resolve(cwd, dest), Split(name))
    ensures dest == "" && name != "" ==> Resolve(cwd, PathJoin(dest, name)) == Resolve(cwd, name)
    ensures dest == "" && name == "" ==> PathJoin(dest, name) == ""
  {
    if dest != "" {
      hide Clean, PathJoin, Render, Join, Push;
      var base: Location := if Rooted(dest) then [] else cwd;
      var k, names := TargetNormal(dest, name);
      var k0, names0 := ComponentsNormal(dest);
      ResolveByComponents(cwd, PathJoin(dest, name));
      ResolveByComponents(cwd, dest);
      SplitSlashFree(dest);
      SplitSlashFree(name);
      WalkIsFold(base, Split(dest));
      FoldThenGo(Rooted(dest), base, Components(dest), k0, names0, Split(name));
      WalkIsFold(Resolve(cwd, dest), Split(name));
    } else if name != "" {
      CleanKeepsMeaning(cwd, name);
    }
  }

  lemma EmptyDestIsDot()
    ensures Clean("") == "." && Components("") == [] && !Rooted("")
  {
    assert Split("") == [""];
  }

  lemma NoComponentsMeansDotOrRoot(dest: string)
    ensures Components(dest) == [] <==> Clean(dest) == "." || Clean(dest) == "/"
  {
    var k, names := ComponentsNormal(dest);
    var parts := Components(dest);
    NormalSlashFree(Rooted(dest), parts, k, names);
    if parts != [] {
      assert parts[0] in parts;
      if |parts| > 1 {
        assert Join(parts)[|parts[0]|] == '/';
      }
    }
  }

  /** For a destination other than "." and "/", the string test is the component test. */
  lemma GuardIsComponentPrefix(dest: string, name: string)
    requires Clean(dest) != "." && Clean(dest) != "/"
    ensures Accepts(dest, name) <==> Components(dest) < Target(dest, name)
  {
    EmptyDestIsDot();
    NoComponentsMeansDotOrRoot(dest);
    var parts, target := Components(dest), Target(dest, name);
    var k0, names0 := ComponentsNormal(dest);
    var k, names := TargetNormal(dest, name);
    NormalSlashFree(Rooted(dest), parts, k0, names0);
    NormalSlashFree(Rooted(dest), target, k, names);
    JoinPrefix(parts, target);
    if Rooted(dest) {
      assert Clean(dest) + "/" == "/" + (Join(parts) + "/");
      assert ("/" + (Join(parts) + "/"))[1..] == Join(parts) + "/" && ("/" + Join(target))[1..] == Join(target);
    } else if target == [] {
      assert parts[0] in parts && (Join(parts) + "/")[0] == Join(parts)[0];
      assert |Join(parts) + "/"| > 1;
    }
  }

  /** For "." and "/" it refuses every entry, even harmless ones. */
  lemma GuardRefusesDotAndRoot(dest: string, name: string)
    requires Clean(dest) == "." || Clean(dest) == "/"
    ensures !Accepts(dest, name)
  {
    EmptyDestIsDot();
    NoComponentsMeansDotOrRoot(dest);
    if dest == "" {
      if name != "" {
        var k, names := ComponentsNormal(name);
        DotSlashNeverLeads(Rooted(name), Components(name), k, names);
      }
    } else {
      var k, names := TargetNormal(dest, name);
      DotSlashNeverLeads(Rooted(dest), Target(dest, name), k, names);
    }
  }

  lemma DotSlashNeverLeads(rooted: bool, parts: seq<string>, k: nat, names: seq<string>)
    requires NormalSplit(rooted, parts, k, names)
    ensures !("./" <= Render(rooted, parts)) && !("//" <= Render(rooted, parts))
  {
    var s := Render(rooted, parts);
    NormalSlashFree(rooted, parts, k, names);
    if parts != [] {
      var p := parts[0];
      assert p in parts;
      if rooted {
        assert s[0] == '/' && s[1] == Join(parts)[0];
      } else {
        assert |parts| > 1 ==> s == p + ("/" + Join(parts[1..]));
        assert s[0] == p[0];
        if |p| > 1 {
          assert s[1] == p[1] && p[1] in p;
        } else {
          assert p == [p[0]];
        }
      }
    }
  }

  // ---------------------------------------------------------------- containment

  /** A name longer than every name in the list, hence not one of them. */
  function FreshName(parts: seq<string>): (r: string)
    ensures Ordinary(r) && |r| > 2 && forall p :: p in parts ==> |p| < |r|
  {
    if parts == [] then "zzz"
    else
      var r := FreshName(parts[1..]);
      if |parts[0]| < |r| then r else Zs(|parts[0]| + 1)
  }

  function Zs(n: nat): (r: string)
    requires n > 2
    ensures |r| == n && Ordinary(r)
  {
    var r := seq(n, _ => 'z');
    assert r[0] == 'z';
    r
  }

  /** Going down adds to where the destination is. */
  lemma PrefixIsBelow(base: Location, parts: seq<string>, rest: seq<string>)
    requires AllOrdinary(base) && AllOrdinary(rest) && rest != []
    ensures Go(base, parts) < Go(base, parts + rest) == Go(base, parts) + rest
  {
    FoldConcat(true, base, parts, rest);
    FoldOrdinary(true, Go(base, parts), rest);
  }

  /** What lies behind an anchored destination's components consists of proper names. */
  lemma RestIsOrdinary(rooted: bool, parts: seq<string>, target: seq<string>, k: nat, names: seq<string>)
    requires NormalSplit(rooted, target, k, names)
    requires parts != [] && parts[|parts| - 1] != ".." && parts < target
    ensures AllOrdinary(target[|parts|..]) && target == parts + target[|parts|..] && target[|parts|..] != []
  {
    var i := |parts| - 1;
    assert target[i] == parts[i];
    assert forall j :: 0 <= j < k ==> target[j] == "..";
    assert i >= k;
    forall p | p in target[|parts|..] ensures Ordinary(p) {
      var j :| |parts| <= j < |target| && target[j] == p;
      assert target[j] == names[j - k];
    }
  }

  /** Two relative normal paths, the first with a proper name: if from one deep working
      directory of fresh names the second leads strictly below the first, its components
      extend the first's. */
  lemma BelowMeansPrefix(base: Location, z: string, a: nat, da: seq<string>, b: nat, db: seq<string>)
    requires |base| == a + b + 1 && (forall i :: 0 <= i < |base| ==> base[i] == z)
    requires da != [] && z !in da && z !in db
    requires base[..|base| - a] + da < base[..|base| - b] + db
    ensures Ups(a) + da < Ups(b) + db
  {
    var x, y := base[..|base| - a] + da, base[..|base| - b] + db;
    assert da[0] in da && x[|base| - a] == da[0];
    assert db != [] ==> db[0] in db && y[|base| - b] == db[0];
    assert forall i :: 0 <= i < |base| - a ==> x[i] == z;
    assert forall i :: 0 <= i < |base| - b ==> y[i] == z;
    assert forall i :: 0 <= i < |x| ==> x[i] == y[i];
    assert a <= b;
    assert b <= a;
    var n := |base| - a;
    assert da == x[n..] && db == y[n..];
    assert da == db[..|da|] by {
      forall i | 0 <= i < |da| ensures da[i] == db[i] {
        assert x[n + i] == y[n + i];
      }
    }
    assert (Ups(b) + db)[..a + |da|] == Ups(a) + da;
  }

  lemma AllPrefixIsBelow(dest: string, name: string)
    requires Anchored(dest) && Components(dest) < Target(dest, name)
    ensures StrictlyBelow(dest, PathJoin(dest, name))
  {
    EmptyDestIsDot();
    var parts, target, path := Components(dest), Target(dest, name), PathJoin(dest, name);
    var b, db := TargetNormal(dest, name);
    RestIsOrdinary(Rooted(dest), parts, target, b, db);
    forall cwd | AllOrdinary(cwd) ensures Resolve(cwd, dest) < Resolve(cwd, path) {
      ResolveByComponents(cwd, dest);
      ResolveByComponents(cwd, path);
      PrefixIsBelow(if Rooted(dest) then [] else cwd, parts, target[|parts|..]);
    }
  }

  lemma BelowIsPrefix(dest: string, name: string)
    requires Anchored(dest) && StrictlyBelow(dest, PathJoin(dest, name))
    ensures Components(dest) < Target(dest, name)
  {
    hide Clean, PathJoin, Components, Target, Resolve;
    EmptyDestIsDot();
    var parts, target, path := Components(dest), Target(dest, name), PathJoin(dest, name);
    var a, da := ComponentsNormal(dest);
    var b, db := TargetNormal(dest, name);
    var z := FreshName(da + db);
    var cwd: Location := seq(a + b + 1, _ => z);
    assert AllOrdinary(cwd);
    assert Resolve(cwd, dest) < Resolve(cwd, path);
    ResolveByComponents(cwd, dest);
    ResolveByComponents(cwd, path);
    if Rooted(dest) {
      GoRooted(parts, a, da);
      GoRooted(target, b, db);
    } else {
      FreshNotIn(z, da, db);
      RelativeBelow(cwd, z, parts, a, da, target, b, db);
    }
  }

  lemma GoRooted(parts: seq<string>, k: nat, names: seq<string>)
    requires NormalSplit(true, parts, k, names)
    ensures Go([], parts) == parts
  {
    GoNormal([], true, parts, k, names);
    assert Ups(0) == [];
  }

  lemma RelativeBelow(cwd: Location, z: string, parts: seq<string>, a: nat, da: seq<string>,
        target: seq<string>, b: nat, db: seq<string>)
    requires |cwd| == a + b + 1 && (forall i :: 0 <= i < |cwd| ==> cwd[i] == z) && Ordinary(z)
    requires NormalSplit(false, parts, a, da) && NormalSplit(false, target, b, db)
    requires da != [] && z !in da && z !in db
    requires Go(cwd, parts) < Go(cwd, target)
    ensures parts < target
  {
    GoNormal(cwd, false, parts, a, da);
    GoNormal(cwd, false, target, b, db);
    BelowMeansPrefix(cwd, z, a, da, b, db);
  }

  lemma FreshNotIn(z: string, xs: seq<string>, ys: seq<string>)
    requires forall p :: p in xs + ys ==> |p| < |z|
    ensures z !in xs && z !in ys
  {
    assert z in xs ==> z in xs + ys;
    assert z in ys ==> z in xs + ys;
  }

  /** For an anchored destination the guard accepts exactly the entries that stay strictly
      inside it. */
  lemma GuardExactWhenAnchored(dest: string, name: string)
    requires Anchored(dest)
    ensures Accepts(dest, name) <==> StrictlyBelow(dest, PathJoin(dest, name))
  {
    NoComponentsMeansDotOrRoot(dest);
    GuardIsComponentPrefix(dest, name);
    if Components(dest) < Target(dest, name) {
      AllPrefixIsBelow(dest, name);
    }
    if StrictlyBelow(dest, PathJoin(dest, name)) {
      BelowIsPrefix(dest, name);
    }
  }

  /** Otherwise some entry is judged wrongly: below "." and "/" a plain name is refused
      although it stays inside, ... */
  lemma PlainNameRefused(dest: string)
    requires Components(dest) == []
    ensures !Accepts(dest, "x") && StrictlyBelow(dest, PathJoin(dest, "x"))
  {
    NoComponentsMeansDotOrRoot(dest);
    GuardRefusesDotAndRoot(dest, "x");
    EmptyDestIsDot();
    SplitPiece("x", "");
    assert Fold(Rooted(dest), [], ["x"]) == ["x"];
    var path := PathJoin(dest, "x");
    assert Components(path) == ["x"] && Rooted(path) == Rooted(dest) by {
      if dest == "" {
        assert Clean("x") == "x";
      } else {
        var k, names := TargetNormal(dest, "x");
      }
    }
    assert AllOrdinary(["x"]) by { assert Ordinary("x"); }
    forall cwd | AllOrdinary(cwd) ensures Resolve(cwd, dest) < Resolve(cwd, path) {
      ResolveByComponents(cwd, dest);
      ResolveByComponents(cwd, path);
      PrefixIsBelow(if Rooted(dest) then [] else cwd, [], ["x"]);
      assert [] + ["x"] == ["x"];
    }
  }

  /** A destination of double dots only, and where climbing one level more leads. */
  lemma DotsTarget(dest: string) returns (k: nat)
    requires Components(dest) != [] && !Anchored(dest)
    ensures k > 0 && !Rooted(dest) && dest != "" && Components(dest) == Ups(k)
    ensures Target(dest, "../x") == Ups(k + 1) + ["x"]
  {
    EmptyDestIsDot();
    var parts, names := Components(dest), [];
    k, names := ComponentsNormal(dest);
    forall i | k <= i < |parts| ensures Ordinary(parts[i]) {
    }
    assert parts == Ups(k);
    SplitPiece("..", "x");
    SplitPiece("x", "");
    assert "../x" == ".." + "/" + "x";
    assert Split("../x") == ["..", "x"];
    assert ["..", "x"][1..] == ["x"] && ["x"][1..] == [];
    assert Push(false, parts, "..") == parts + [".."] == Ups(k + 1);
    assert Push(false, Ups(k + 1), "x") == Ups(k + 1) + ["x"];
    assert Fold(false, Ups(k + 1), ["x"]) == Ups(k + 1) + ["x"];
  }

  /** ... and below a destination of double dots an entry that climbs further is accepted
      although it leads outside. */
  lemma ClimbingNameAccepted(dest: string)
    requires Components(dest) != [] && !Anchored(dest)
    ensures Accepts(dest, "../x") && !StrictlyBelow(dest, PathJoin(dest, "../x"))
  {
    hide Clean, PathJoin, Accepts, Components, Target, Resolve;
    NoComponentsMeansDotOrRoot(dest);
    GuardIsComponentPrefix(dest, "../x");
    var k := DotsTarget(dest);
    assert Ups(k) < Ups(k + 1) + ["x"];
    var b, db := TargetNormal(dest, "../x");
    var cwd: Location := seq(k + 1, _ => "y");
    assert Ordinary("x") && Ordinary("y") && AllOrdinary(cwd);
    ResolveByComponents(cwd, dest);
    ResolveByComponents(cwd, PathJoin(dest, "../x"));
    assert NormalSplit(false, Ups(k), k, []);
    GoNormal(cwd, false, Ups(k), k, []);
    GoNormal(cwd, false, Ups(k + 1) + ["x"], k + 1, ["x"]);
    assert Resolve(cwd, dest)[0] == "y";
    assert Resolve(cwd, PathJoin(dest, "../x")) == ["x"];
  }

  /** The guard means containment for all entries if and only if the destination is
      anchored. */
  lemma GuardMeansContainmentIffAnchored(dest: string)
    ensures (forall name :: Accepts(dest, name) <==> StrictlyBelow(dest, PathJoin(dest, name))) <==> Anchored(dest)
  {
    if Anchored(dest) {
      forall name ensures Accepts(dest, name) <==> StrictlyBelow(dest, PathJoin(dest, name)) {
        GuardExactWhenAnchored(dest, name);
      }
    } else if Components(dest) == [] {
      PlainNameRefused(dest);
    } else {
      ClimbingNameAccepted(dest);
    }
  }
}
