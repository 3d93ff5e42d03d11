/** Extracting a zip archive into a directory of a link-free file system. */
module Extraction {
  import opened Wrappers
  import opened Slashes
  import opened CleanPath
  import opened ZipGuard

  datatype Content = Directory | File(data: string)

  type Tree = map<Location, Content>

  /** The root is a directory and everything lies in a directory. */
  ghost predicate TreeOk(t: Tree)
  {
    && [] in t && t[[]] == Directory
    && forall l :: l in t && l != [] ==> l[..|l| - 1] in t && t[l[..|l| - 1]] == Directory
  }

  /** An archive entry; an unreadable one fails when it is opened. */
  datatype ZipEntry = ZipEntry(name: string, isDir: bool, readable: bool, data: string)

  datatype ZipError = BadArchive | IllegalPath(path: string) | Io

  // ---------------------------------------------------------------- effects as functions

  /** `t` with the missing ones among the first `m` directories on the way to `l`. */
  function WithDirs(t: Tree, l: Location, m: nat): Tree
    requires m <= |l|
  {
    (map p | p in Ancestors(l, m) :: Directory) + t
  }

  function Ancestors(l: Location, m: nat): set<Location>
    requires m <= |l|
  {
    set k | 0 <= k <= m :: l[..k]
  }

  function PlaceOf(cwd: Location, dest: string, e: ZipEntry): Location
  {
    Resolve(cwd, PathJoin(dest, e.name))
  }

  /** The directory an entry calls for: itself, or the one its path names before the last
      slash. */
  function DirOf(cwd: Location, dest: string, e: ZipEntry): Location
  {
    if e.isDir then PlaceOf(cwd, dest, e) else Resolve(cwd, Dir(PathJoin(dest, e.name)))
  }

  /** The tree after one entry was extracted. */
  function ExtractOne(t: Tree, cwd: Location, dest: string, e: ZipEntry): Tree
  {
    var d := DirOf(cwd, dest, e);
    var made := WithDirs(t, d, |d|);
    if e.isDir then made else made[PlaceOf(cwd, dest, e) := File(e.data)]
  }

  function ExtractAll(t: Tree, cwd: Location, dest: string, entries: seq<ZipEntry>): Tree
  {
    if entries == [] then t
    else ExtractOne(ExtractAll(t, cwd, dest, entries[..|entries| - 1]), cwd, dest, entries[|entries| - 1])
  }

  /** No file stands on the way to `l`, or there. */
  ghost predicate WayFree(t: Tree, l: Location)
  {
    forall p :: p in t && p <= l ==> t[p].Directory?
  }

  /** A file can be written at `l`: the directory above is there, and no directory at it. */
  predicate Writable(t: Tree, l: Location)
  {
    && l != [] && l[..|l| - 1] in t && t[l[..|l| - 1]].Directory?
    && (l in t ==> t[l].File?)
  }

  /** Nothing in the tree stands in the way of the entry, and it can be read. */
  ghost predicate Fits(t: Tree, cwd: Location, dest: string, e: ZipEntry)
  {
    var d := DirOf(cwd, dest, e);
    WayFree(t, d) && (e.isDir || (e.readable && Writable(WithDirs(t, d, |d|), PlaceOf(cwd, dest, e))))
  }

  /** What a failed entry can leave behind: some directories on the way and, if nothing
      stands in the way of a regular one, a file holding the beginning of its data. */
  ghost predicate Partial(t: Tree, t': Tree, cwd: Location, dest: string, e: ZipEntry)
  {
    var d := DirOf(cwd, dest, e);
    || DirsMade(t, t', d)
    || (!e.isDir && Fits(t, cwd, dest, e) &&
          exists n :: 0 <= n <= |e.data| && t' == WithDirs(t, d, |d|)[PlaceOf(cwd, dest, e) := File(e.data[..n])])
  }

  /** Some of the missing directories on the way to `l`, the outer ones first. */
  ghost predicate DirsMade(t: Tree, t': Tree, l: Location)
  {
    exists m :: 0 <= m <= |l| && t' == WithDirs(t, l, m)
  }

  // ---------------------------------------------------------------- the file system

  /** Its calls fail when something in the tree stands in the way, or for reasons of their
      own, and then partly. */
  class FileSystem {
    var tree: Tree
    ghost var faults: nat  // how many calls have failed for reasons of their own
    const reliable: bool  // no call fails for a reason of its own
    const cwd: Location

    ghost predicate Valid()
      reads this
    {
      TreeOk(tree) && AllOrdinary(cwd)
    }

    /** Create a directory and all that is missing on the way. */
    method MkdirAll(path: string) returns (ok: bool)
      requires Valid()
      modifies this
      ensures Valid()
      ensures DirsMade(old(tree), tree, Resolve(cwd, path))
      ensures ok ==> tree == WithDirs(old(tree), Resolve(cwd, path), |Resolve(cwd, path)|)
      ensures ok ==> faults == old(faults) && WayFree(old(tree), Resolve(cwd, path))
      ensures !ok ==> faults > old(faults) || (faults == old(faults) && !WayFree(old(tree), Resolve(cwd, path)))
      ensures reliable ==> faults == old(faults)
    {
      hide WithDirs, Ancestors, Resolve, WayFree, TreeOk;
      var l := Resolve(cwd, path);
      WithDirsNone(tree, l);
      WayFreeAtRoot(tree, l);
      for k := 0 to |l|
        invariant Valid() && faults == old(faults)
        invariant tree == WithDirs(old(tree), l, k)
        invariant l[..k] in tree && tree[l[..k]] == Directory
        invariant WayFree(old(tree), l[..k])
      {
        WithDirsMore(old(tree), l, k);
        WithDirsKeeps(old(tree), l, k, l[..k + 1]);
        WayFreeFurther(old(tree), l, k);
        if l[..k + 1] in tree {
          if tree[l[..k + 1]].File? {
            return false;
          }
        } else {
          var fault: bool := *;
          if fault && !reliable {
            faults := faults + 1;
            return false;
          }
          assert l[..k + 1][..k] == l[..k];
          MkdirKeepsTree(tree, l[..k + 1], Directory);
          tree := tree[l[..k + 1] := Directory];
        }
      }
      assert l[..|l|] == l;
      return true;
    }

    /** Open for writing: creates the file or empties it. */
    method OpenTruncated(path: string) returns (ok: bool)
      requires Valid()
      modifies this
      ensures Valid()
      ensures !ok ==> tree == old(tree)
      ensures ok ==> faults == old(faults) && Writable(old(tree), Resolve(cwd, path))
      ensures !ok ==> faults > old(faults) || (faults == old(faults) && !Writable(old(tree), Resolve(cwd, path)))
      ensures reliable ==> faults == old(faults)
      ensures ok ==> tree == old(tree)[Resolve(cwd, path) := File("")]
    {
      var l := Resolve(cwd, path);
      if !Writable(tree, l) {
        return false;
      }
      var fault: bool := *;
      if fault && !reliable {
        faults := faults + 1;
        return false;
      }
      MkdirKeepsTree(tree, l, File(""));
      tree := tree[l := File("")];
      return true;
    }

    /** Write data into an opened file; a failure leaves its beginning. */
    method Copy(path: string, data: string) returns (ok: bool)
      requires Valid() && Resolve(cwd, path) in tree && Resolve(cwd, path) != [] && tree[Resolve(cwd, path)].File?
      modifies this
      ensures Valid()
      ensures exists n :: 0 <= n <= |data| && tree == old(tree)[Resolve(cwd, path) := File(data[..n])]
      ensures ok ==> faults == old(faults) && tree == old(tree)[Resolve(cwd, path) := File(data)]
      ensures !ok ==> faults > old(faults)
      ensures reliable ==> faults == old(faults)
    {
      var l := Resolve(cwd, path);
      var n: int := *;
      if 0 <= n < |data| && !reliable {
        MkdirKeepsTree(tree, l, File(data[..n]));
        tree := tree[l := File(data[..n])];
        faults := faults + 1;
        return false;
      }
      assert data[..|data|] == data;
      MkdirKeepsTree(tree, l, File(data));
      tree := tree[l := File(data)];
      return true;
    }
  }

  lemma WayFreeAtRoot(t: Tree, l: Location)
    requires TreeOk(t)
    ensures WayFree(t, l[..0]) && l[..0] in t && t[l[..0]] == Directory
  {}

  lemma WayFreeFurther(t: Tree, l: Location, k: nat)
    requires k < |l| && WayFree(t, l[..k])
    ensures if l[..k + 1] in t && t[l[..k + 1]].File? then !WayFree(t, l) else WayFree(t, l[..k + 1])
  {
    forall p | p in t && p <= l[..k + 1] ensures p == l[..k + 1] || p <= l[..k] {
      assert p == l[..|p|];
    }
    assert l[..k + 1] <= l;
  }

  lemma WithDirsKeeps(t: Tree, l: Location, m: nat, p: Location)
    requires m <= |l|
    ensures p in t ==> p in WithDirs(t, l, m) && WithDirs(t, l, m)[p] == t[p]
    ensures p in WithDirs(t, l, m) && WithDirs(t, l, m)[p].File? ==> p in t && t[p].File?
  {}

  lemma WithDirsNone(t: Tree, l: Location)
    requires TreeOk(t)
    ensures WithDirs(t, l, 0) == t
  {
    assert l[..0] == [];
  }

  lemma WithDirsMore(t: Tree, l: Location, k: nat)
    requires k < |l|
    ensures WithDirs(t, l, k + 1) == if l[..k + 1] in WithDirs(t, l, k) then WithDirs(t, l, k)
            else WithDirs(t, l, k)[l[..k + 1] := Directory]
  {
    assert Ancestors(l, k + 1) == Ancestors(l, k) + {l[..k + 1]};
  }

  lemma MkdirKeepsTree(t: Tree, l: Location, c: Content)
    requires TreeOk(t) && l != [] && l[..|l| - 1] in t && t[l[..|l| - 1]] == Directory
    requires l in t ==> (t[l].Directory? <==> c.Directory?)
    ensures TreeOk(t[l := c])
  {
    var t' := t[l := c];
    forall p | p in t' && p != [] ensures p[..|p| - 1] in t' && t'[p[..|p| - 1]] == Directory {
      if p[..|p| - 1] == l && p != l {
        assert p in t;
      }
    }
  }

  // ---------------------------------------------------------------- where an accepted entry lies

  /** The parent of an accepted path is the directory its last name lies in. */
  lemma DirOfAccepted(cwd: Location, dest: string, name: string)
    requires AllOrdinary(cwd) && Anchored(dest) && Accepts(dest, name)
    ensures var path := PathJoin(dest, name);
            var l := Resolve(cwd, path);
            Resolve(cwd, dest) < l && Resolve(cwd, Dir(path)) == l[..|l| - 1]
  {
    hide Clean, PathJoin, Accepts, Render, Dir, Components, Target, Resolve;
    EmptyDestIsDot();
    GuardExactWhenAnchored(dest, name);
    NoComponentsMeansDotOrRoot(dest);
    GuardIsComponentPrefix(dest, name);
    var parts, target, path := Components(dest), Target(dest, name), PathJoin(dest, name);
    var k, names := TargetNormal(dest, name);
    RestIsOrdinary(Rooted(dest), parts, target, k, names);
    var last := |target| - 1;
    assert target[last] == target[|parts|..][last - |parts|] && Ordinary(target[last]);
    DirOfRendered(Rooted(dest), target, k, names);
    ResolveByComponents(cwd, path);
    ResolveByComponents(cwd, Dir(path));
    var base := if Rooted(dest) then [] else cwd;
    assert target == target[..last] + [target[last]];
    FoldConcat(true, base, target[..last], [target[last]]);
  }

  lemma DirOfRendered(rooted: bool, parts: seq<string>, k: nat, names: seq<string>)
    requires NormalSplit(rooted, parts, k, names) && parts != [] && Ordinary(parts[|parts| - 1])
    ensures var dir := Dir(Render(rooted, parts));
            Rooted(dir) == rooted && Components(dir) == parts[..|parts| - 1]
  {
    var front, last := parts[..|parts| - 1], parts[|parts| - 1];
    NormalSlashFree(rooted, parts, k, names);
    var k', names' := FrontNormal(rooted, parts, k, names);
    var head := if front == [] then "" else Join(front) + "/";
    JoinFront(parts);
    var lead := if rooted then "/" else "";
    assert Render(rooted, parts) == (lead + head) + last;
    UpToSlash(lead + head, last);
    CleanFront(rooted, front, k', names');
    CleanIdempotent(lead + head);
  }

  lemma FrontNormal(rooted: bool, parts: seq<string>, k: nat, names: seq<string>) returns (k': nat, names': seq<string>)
    requires NormalSplit(rooted, parts, k, names) && parts != [] && Ordinary(parts[|parts| - 1])
    ensures NormalSplit(rooted, parts[..|parts| - 1], k', names')
  {
    assert forall i :: 0 <= i < k ==> parts[i] == "..";
    assert names != [];
    k', names' := k, names[..|names| - 1];
    assert parts[..|parts| - 1] == Ups(k) + names';
  }

  lemma {:induction false} JoinFront(parts: seq<string>)
    requires parts != []
    ensures var front := parts[..|parts| - 1];
            Join(parts) == (if front == [] then "" else Join(front) + "/") + parts[|parts| - 1]
  {
    if |parts| > 1 {
      JoinFront(parts[1..]);
      var front := parts[..|parts| - 1];
      assert front[1..] == parts[1..][..|parts| - 2];
      if |front| > 1 {
        assert Join(front) == parts[0] + "/" + Join(front[1..]);
      } else {
        assert front[1..] == [];
      }
    }
  }

  lemma {:induction false} UpToSlash(s: string, last: string)
    requires SlashFree(last) && (s == "" || s[|s| - 1] == '/')
    ensures UpToLastSlash(s + last) == s
  {
    if last == "" {
      assert s + last == s;
    } else {
      assert last[|last| - 1] in last;
      UpToSlash(s, last[..|last| - 1]);
      assert (s + last)[..|s + last| - 1] == s + last[..|last| - 1];
    }
  }

  /** A trailing slash does not matter to cleaning. */
  lemma CleanFront(rooted: bool, front: seq<string>, k: nat, names: seq<string>)
    requires NormalSplit(rooted, front, k, names)
    ensures var s := (if rooted then "/" else "") + (if front == [] then "" else Join(front) + "/");
            Rooted(s) == rooted && Components(s) == front
  {
    var s := (if rooted then "/" else "") + (if front == [] then "" else Join(front) + "/");
    if front == [] {
      assert Split("") == [""];
      if rooted {
        assert s == "/" && s[1..] == "" && Split(s) == [""] + [""];
        assert ([""] + [""])[1..] == [""] && Fold(true, [], [""]) == [];
      }
    } else {
      var r := Render(rooted, front);
      RenderComponents(rooted, front, k, names);
      assert s == r + "/" + "";
      SplitConcat(r, "");
      FoldConcat(rooted, [], Split(r), [""]);
      assert r != "" && s[0] == r[0];
    }
  }

  // ---------------------------------------------------------------- what stays as it was

  /** From `t` to `t'`, seen from the directory `base`: nothing disappears; a file is new or
      changed only strictly inside `base`; a directory is new only inside it, at it or on
      the way to it. */
  ghost predicate Contained(t: Tree, t': Tree, base: Location)
  {
    && (forall l :: l in t ==> l in t')
    && (forall l :: l in t && t[l].Directory? ==> t'[l].Directory?)
    && (forall l :: l in t' && t'[l].Directory? && !(l in t && t[l] == t'[l]) ==> l !in t && (base <= l || l <= base))
    && (forall l :: l in t' && t'[l].File? && !(l in t && t[l] == t'[l]) ==> base < l)
  }

  lemma ContainedTrans(a: Tree, b: Tree, c: Tree, base: Location)
    requires Contained(a, b, base) && Contained(b, c, base)
    ensures Contained(a, c, base)
  {}

  lemma ContainedDirs(t: Tree, l: Location, m: nat, base: Location)
    requires m <= |l| && base <= l
    ensures Contained(t, WithDirs(t, l, m), base)
  {
    forall k | 0 <= k <= m ensures base <= l[..k] || l[..k] <= base {
      if k <= |base| {
        assert l[..k] == base[..k];
      } else {
        assert base == l[..k][..|base|];
      }
    }
  }

  // ---------------------------------------------------------------- the extraction loop

  /** The guard accepts each of the first `n` entries, and nothing is in its way when its
      turn comes. */
  ghost predicate Good(t: Tree, cwd: Location, dest: string, entries: seq<ZipEntry>, n: nat)
    requires n <= |entries|
  {
    forall k :: 0 <= k < n ==>
      Accepts(dest, entries[k].name) && Fits(ExtractAll(t, cwd, dest, entries[..k]), cwd, dest, entries[k])
  }

  /** How far a run came and what it left: all entries, or those before the first one the
      guard refuses, or those before one that failed and possibly a part of that one. An
      entry fails only if a call failed for reasons of its own, the entry cannot be read or
      something is in its way. */
  ghost predicate LeftBy(t: Tree, t': Tree, cwd: Location, dest: string, entries: seq<ZipEntry>,
        r: Result<(), ZipError>, faulted: bool)
  {
    match r
    case Ok(_) => Good(t, cwd, dest, entries, |entries|) && t' == ExtractAll(t, cwd, dest, entries)
    case Err(IllegalPath(path)) =>
      exists n :: 0 <= n < |entries| && Good(t, cwd, dest, entries, n) && !Accepts(dest, entries[n].name)
                  && path == PathJoin(dest, entries[n].name) && t' == ExtractAll(t, cwd, dest, entries[..n])
    case Err(BadArchive) => false
    case Err(Io) =>
      exists n :: 0 <= n < |entries| && Good(t, cwd, dest, entries, n) && Accepts(dest, entries[n].name)
                  && FailedAt(ExtractAll(t, cwd, dest, entries[..n]), t', cwd, dest, entries[n], faulted)
  }

  ghost predicate FailedAt(t: Tree, t': Tree, cwd: Location, dest: string, e: ZipEntry, faulted: bool)
  {
    Partial(t, t', cwd, dest, e) && (faulted || !Fits(t, cwd, dest, e))
  }

  /** The first `i` entries are extracted. */
  ghost predicate Progress(t0: Tree, t: Tree, cwd: Location, dest: string, entries: seq<ZipEntry>, i: nat)
    requires i <= |entries|
  {
    Good(t0, cwd, dest, entries, i) && t == ExtractAll(t0, cwd, dest, entries[..i])
  }

  /** Nothing disappears, directories stay directories and files stay files. */
  ghost predicate Kept(t: Tree, t': Tree)
  {
    forall l :: l in t ==> l in t' && (t[l].Directory? <==> t'[l].Directory?)
  }

  /** Extract every entry of an archive below `dest`. */
  method DecompressFromTo(fs: FileSystem, archive: Result<seq<ZipEntry>, ()>, dest: string)
        returns (r: Result<(), ZipError>)
    requires fs.Valid()
    modifies fs
    ensures fs.Valid()
    ensures archive.Err? ==> r == Err(BadArchive) && fs.tree == old(fs.tree)
    ensures archive.Ok? ==>
              LeftBy(old(fs.tree), fs.tree, fs.cwd, dest, archive.value, r, fs.faults > old(fs.faults))
    ensures fs.reliable ==> fs.faults == old(fs.faults)
    ensures archive.Ok? && fs.faults == old(fs.faults) ==>
              (r.Ok? <==> Good(old(fs.tree), fs.cwd, dest, archive.value, |archive.value|))
    ensures Kept(old(fs.tree), fs.tree)
    ensures Anchored(dest) ==> Contained(old(fs.tree), fs.tree, Resolve(fs.cwd, dest))
    ensures archive.Ok? && Components(dest) == [] ==>
              && fs.tree == old(fs.tree)
              && (archive.value == [] ==> r.Ok?)
              && (archive.value != [] ==> r == Err(IllegalPath(PathJoin(dest, archive.value[0].name))))
  {
    hide WithDirs, Resolve, PathJoin, Anchored, Components, Clean, Dir, Progress, DirsMade, LeftBy, Contained, TreeOk,
      Good, Fits, WayFree, Kept, ExtractAll;
    if archive.Err? {
      NothingChanged(fs.tree, Resolve(fs.cwd, dest));
      return Err(BadArchive);
    }
    var entries := archive.value;
    ghost var t0, cwd := fs.tree, fs.cwd;
    NothingYet(t0, cwd, dest, entries);
    for i := 0 to |entries|
      invariant fs.Valid() && fs.faults == old(fs.faults)
      invariant Progress(t0, fs.tree, cwd, dest, entries, i)
    {
      var file := entries[i];
      var path := PathJoin(dest, file.name);
      ghost var t := fs.tree;
      if !(Clean(dest) + "/" <= path) {
        StopsAtIllegal(t0, t, cwd, dest, entries, i);
        r := Err(IllegalPath(path));
        LeftMeans(t0, fs.tree, cwd, dest, entries, r, false);
        return;
      }

      var ok;
      r := Err(Io);
      if file.isDir {
        ok := fs.MkdirAll(path);
        AfterDirectory(t0, t, fs.tree, cwd, dest, entries, i, fs.faults > old(fs.faults), ok);
        if !ok {
          LeftMeans(t0, fs.tree, cwd, dest, entries, r, fs.faults > old(fs.faults));
          return;
        }
        continue;
      }

      ok := fs.MkdirAll(Dir(path));
      ghost var t1 := fs.tree;
      AfterParents(t0, t, t1, cwd, dest, entries, i, fs.faults > old(fs.faults), ok);
      if !ok || !file.readable {
        LeftMeans(t0, fs.tree, cwd, dest, entries, r, fs.faults > old(fs.faults));
        return;
      }
      ok := fs.OpenTruncated(path);
      AfterOpen(t0, t, t1, cwd, dest, entries, i, fs.faults > old(fs.faults), ok);
      if !ok {
        LeftMeans(t0, fs.tree, cwd, dest, entries, r, fs.faults > old(fs.faults));
        return;
      }
      ok := fs.Copy(path, file.data);
      AfterCopy(t0, t, t1, fs.tree, cwd, dest, entries, i, fs.faults > old(fs.faults), ok);
      if !ok {
        LeftMeans(t0, fs.tree, cwd, dest, entries, r, fs.faults > old(fs.faults));
        return;
      }
    }
    AllDone(t0, fs.tree, cwd, dest, entries);
    r := Ok(());
    LeftMeans(t0, fs.tree, cwd, dest, entries, r, false);
  }

  lemma NothingChanged(t: Tree, base: Location)
    ensures Kept(t, t) && Contained(t, t, base)
  {}

  lemma NothingYet(t: Tree, cwd: Location, dest: string, entries: seq<ZipEntry>)
    ensures Progress(t, t, cwd, dest, entries, 0)
  {}

  lemma AllDone(t0: Tree, t: Tree, cwd: Location, dest: string, entries: seq<ZipEntry>)
    requires Progress(t0, t, cwd, dest, entries, |entries|)
    ensures LeftBy(t0, t, cwd, dest, entries, Ok(()), false)
  {
    assert entries[..|entries|] == entries;
  }

  lemma StopsAtIllegal(t0: Tree, t: Tree, cwd: Location, dest: string, entries: seq<ZipEntry>, i: nat)
    requires i < |entries| && Progress(t0, t, cwd, dest, entries, i) && !Accepts(dest, entries[i].name)
    ensures LeftBy(t0, t, cwd, dest, entries, Err(IllegalPath(PathJoin(dest, entries[i].name))), false)
  {}

  lemma StopsPartly(t0: Tree, t: Tree, t': Tree, cwd: Location, dest: string, entries: seq<ZipEntry>, i: nat,
                    faulted: bool)
    requires i < |entries| && Progress(t0, t, cwd, dest, entries, i) && Accepts(dest, entries[i].name)
    requires FailedAt(t, t', cwd, dest, entries[i], faulted)
    ensures LeftBy(t0, t', cwd, dest, entries, Err(Io), faulted)
  {}

  lemma OneMoreEntry(t0: Tree, t: Tree, t': Tree, cwd: Location, dest: string, entries: seq<ZipEntry>, i: nat)
    requires i < |entries| && Progress(t0, t, cwd, dest, entries, i)
    requires Accepts(dest, entries[i].name) && Fits(t, cwd, dest, entries[i])
    requires t' == ExtractOne(t, cwd, dest, entries[i])
    ensures Progress(t0, t', cwd, dest, entries, i + 1)
  {
    hide ExtractOne, Accepts, Fits;
    assert entries[..i + 1][..i] == entries[..i];
  }

  lemma AfterDirectory(t0: Tree, t: Tree, t': Tree, cwd: Location, dest: string, entries: seq<ZipEntry>, i: nat,
                       faulted: bool, ok: bool)
    requires i < |entries| && Progress(t0, t, cwd, dest, entries, i)
    requires Accepts(dest, entries[i].name) && entries[i].isDir
    requires var l := Resolve(cwd, PathJoin(dest, entries[i].name));
             && DirsMade(t, t', l)
             && (ok ==> t' == WithDirs(t, l, |l|) && WayFree(t, l))
             && (!ok ==> faulted || !WayFree(t, l))
    ensures if ok then Progress(t0, t', cwd, dest, entries, i + 1)
            else LeftBy(t0, t', cwd, dest, entries, Err(Io), faulted)
  {
    hide WithDirs, Progress, LeftBy, DirsMade, WayFree, Resolve, PathJoin, Accepts;
    if ok {
      OneMoreEntry(t0, t, t', cwd, dest, entries, i);
    } else {
      StopsPartly(t0, t, t', cwd, dest, entries, i, faulted);
    }
  }

  lemma AfterParents(t0: Tree, t: Tree, t1: Tree, cwd: Location, dest: string, entries: seq<ZipEntry>, i: nat,
                     faulted: bool, ok: bool)
    requires i < |entries| && Progress(t0, t, cwd, dest, entries, i)
    requires Accepts(dest, entries[i].name) && !entries[i].isDir
    requires var d := Resolve(cwd, Dir(PathJoin(dest, entries[i].name)));
             DirsMade(t, t1, d) && (!ok ==> faulted || !WayFree(t, d))
    ensures !ok || !entries[i].readable ==> LeftBy(t0, t1, cwd, dest, entries, Err(Io), faulted)
  {
    hide WithDirs, Progress, LeftBy, DirsMade, WayFree, Writable, Resolve, PathJoin, Dir, Accepts;
    if !ok || !entries[i].readable {
      StopsPartly(t0, t, t1, cwd, dest, entries, i, faulted);
    }
  }

  lemma AfterOpen(t0: Tree, t: Tree, t1: Tree, cwd: Location, dest: string, entries: seq<ZipEntry>, i: nat,
                  faulted: bool, ok: bool)
    requires i < |entries| && Progress(t0, t, cwd, dest, entries, i)
    requires Accepts(dest, entries[i].name) && !entries[i].isDir
    requires var d := Resolve(cwd, Dir(PathJoin(dest, entries[i].name)));
             DirsMade(t, t1, d) && t1 == WithDirs(t, d, |d|)
    requires !ok ==> faulted || !Writable(t1, Resolve(cwd, PathJoin(dest, entries[i].name)))
    ensures !ok ==> LeftBy(t0, t1, cwd, dest, entries, Err(Io), faulted)
  {
    hide WithDirs, Progress, LeftBy, DirsMade, WayFree, Writable, Resolve, PathJoin, Dir, Accepts;
    if !ok {
      StopsPartly(t0, t, t1, cwd, dest, entries, i, faulted);
    }
  }

  lemma AfterCopy(t0: Tree, t: Tree, t1: Tree, t': Tree, cwd: Location, dest: string, entries: seq<ZipEntry>, i: nat,
                  faulted: bool, ok: bool)
    requires i < |entries| && Progress(t0, t, cwd, dest, entries, i)
    requires Accepts(dest, entries[i].name) && !entries[i].isDir && entries[i].readable
    requires var d := Resolve(cwd, Dir(PathJoin(dest, entries[i].name)));
             t1 == WithDirs(t, d, |d|) && WayFree(t, d)
    requires var l := Resolve(cwd, PathJoin(dest, entries[i].name));
             && Writable(t1, l)
             && (exists n :: 0 <= n <= |entries[i].data| && t' == t1[l := File("")][l := File(entries[i].data[..n])])
             && (ok ==> t' == t1[l := File("")][l := File(entries[i].data)])
    requires !ok ==> faulted
    ensures if ok then Progress(t0, t', cwd, dest, entries, i + 1)
            else LeftBy(t0, t', cwd, dest, entries, Err(Io), faulted)
  {
    hide WithDirs, Progress, LeftBy, DirsMade, WayFree, Writable, Resolve, PathJoin, Dir, Accepts;
    var e := entries[i];
    var l := PlaceOf(cwd, dest, e);
    assert Fits(t, cwd, dest, e);
    if ok {
      assert t' == t1[l := File(e.data)];
      OneMoreEntry(t0, t, t', cwd, dest, entries, i);
    } else {
      var n :| 0 <= n <= |e.data| && t' == t1[l := File("")][l := File(e.data[..n])];
      assert t' == t1[l := File(e.data[..n])];
      StopsPartly(t0, t, t', cwd, dest, entries, i, faulted);
    }
  }

  // ---------------------------------------------------------------- what any run leaves

  /** Whatever a run left, nothing has disappeared; below an anchored destination it is
      confined; without faults it succeeds exactly if nothing was wrong with any entry; and
      below "." and "/" it does nothing at all. */
  lemma LeftMeans(t: Tree, t': Tree, cwd: Location, dest: string, entries: seq<ZipEntry>,
                  r: Result<(), ZipError>, faulted: bool)
    requires AllOrdinary(cwd) && LeftBy(t, t', cwd, dest, entries, r, faulted)
    ensures Kept(t, t')
    ensures Anchored(dest) ==> Contained(t, t', Resolve(cwd, dest))
    ensures !faulted ==> (r.Ok? <==> Good(t, cwd, dest, entries, |entries|))
    ensures Components(dest) == [] ==>
              && t' == t
              && (entries == [] ==> r.Ok?)
              && (entries != [] ==> r == Err(IllegalPath(PathJoin(dest, entries[0].name))))
  {
    hide WithDirs, Resolve, PathJoin, Anchored, Components, Clean, Dir, Contained, Kept, Fits, Accepts, ExtractOne,
      Partial;
    match r {
      case Ok(_) =>
        assert entries[..|entries|] == entries;
        FrontMeans(t, cwd, dest, entries, |entries|);
      case Err(IllegalPath(path)) =>
        var n :| 0 <= n < |entries| && Good(t, cwd, dest, entries, n) && !Accepts(dest, entries[n].name)
                 && path == PathJoin(dest, entries[n].name) && t' == ExtractAll(t, cwd, dest, entries[..n]);
        FrontMeans(t, cwd, dest, entries, n);
      case Err(Io) =>
        var n :| 0 <= n < |entries| && Good(t, cwd, dest, entries, n) && Accepts(dest, entries[n].name)
                 && FailedAt(ExtractAll(t, cwd, dest, entries[..n]), t', cwd, dest, entries[n], faulted);
        FrontMeans(t, cwd, dest, entries, n);
        RefusedBelowNothing(dest, entries[n].name);
        var mid := ExtractAll(t, cwd, dest, entries[..n]);
        PartKept(mid, t', cwd, dest, entries[n]);
        KeptTrans(t, mid, t');
        if Anchored(dest) {
          PartContained(mid, t', cwd, dest, entries[n]);
          ContainedTrans(t, mid, t', Resolve(cwd, dest));
        }
    }
  }

  lemma RefusedBelowNothing(dest: string, name: string)
    ensures Components(dest) == [] ==> !Accepts(dest, name)
  {
    NoComponentsMeansDotOrRoot(dest);
    if Components(dest) == [] {
      GuardRefusesDotAndRoot(dest, name);
    }
  }

  lemma KeptTrans(a: Tree, b: Tree, c: Tree)
    requires Kept(a, b) && Kept(b, c)
    ensures Kept(a, c)
  {}

  /** The same for the entries that were extracted. */
  lemma {:induction false} FrontMeans(t: Tree, cwd: Location, dest: string, entries: seq<ZipEntry>, n: nat)
    requires AllOrdinary(cwd) && n <= |entries| && Good(t, cwd, dest, entries, n)
    ensures var t' := ExtractAll(t, cwd, dest, entries[..n]);
            && Kept(t, t')
            && (Anchored(dest) ==> Contained(t, t', Resolve(cwd, dest)))
            && (Components(dest) == [] ==> n == 0 && t' == t)
  {
    hide WithDirs, Resolve, PathJoin, Anchored, Components, Clean, Dir, Contained, Kept, Fits, Accepts, ExtractOne,
      Partial;
    if n == 0 {
      NothingChanged(t, Resolve(cwd, dest));
    } else {
      var i: nat := n - 1;
      var mid, e := ExtractAll(t, cwd, dest, entries[..i]), entries[i];
      FrontMeans(t, cwd, dest, entries, i);
      RefusedBelowNothing(dest, e.name);
      assert entries[..n][..i] == entries[..i];
      WholeIsPart(mid, cwd, dest, e);
      var t' := ExtractOne(mid, cwd, dest, e);
      PartKept(mid, t', cwd, dest, e);
      KeptTrans(t, mid, t');
      if Anchored(dest) {
        PartContained(mid, t', cwd, dest, e);
        ContainedTrans(t, mid, t', Resolve(cwd, dest));
      }
    }
  }

  lemma WholeIsPart(t: Tree, cwd: Location, dest: string, e: ZipEntry)
    requires Fits(t, cwd, dest, e)
    ensures Partial(t, ExtractOne(t, cwd, dest, e), cwd, dest, e)
  {
    hide WithDirs, Resolve, PathJoin, Dir;
    assert e.data[..|e.data|] == e.data;
  }

  lemma PartKept(t: Tree, t': Tree, cwd: Location, dest: string, e: ZipEntry)
    requires Partial(t, t', cwd, dest, e)
    ensures Kept(t, t')
  {
    hide Resolve, PathJoin, Dir;
  }

  lemma PartContained(t: Tree, t': Tree, cwd: Location, dest: string, e: ZipEntry)
    requires AllOrdinary(cwd) && Anchored(dest) && Accepts(dest, e.name) && Partial(t, t', cwd, dest, e)
    ensures Contained(t, t', Resolve(cwd, dest))
  {
    hide Contained, Accepts, PathJoin, Dir, Anchored, Resolve, WithDirs;
    var l, d, base := PlaceOf(cwd, dest, e), DirOf(cwd, dest, e), Resolve(cwd, dest);
    DirOfAccepted(cwd, dest, e.name);
    if DirsMade(t, t', d) {
      var m :| 0 <= m <= |d| && t' == WithDirs(t, d, m);
      ContainedDirs(t, d, m, base);
    } else {
      var n :| 0 <= n <= |e.data| && t' == WithDirs(t, d, |d|)[l := File(e.data[..n])];
      ContainedDirs(t, d, |d|, base);
      ContainedTrans(t, WithDirs(t, d, |d|), t', base);
    }
  }

  // ---------------------------------------------------------------- the result of a success

  /** The data of the last regular entry that lies at `l`. */
  function LastData(cwd: Location, dest: string, entries: seq<ZipEntry>, l: Location): Option<string>
  {
    if entries == [] then None
    else
      var e := entries[|entries| - 1];
      if !e.isDir && PlaceOf(cwd, dest, e) == l then Some(e.data)
      else LastData(cwd, dest, entries[..|entries| - 1], l)
  }

  /** `l` is the directory an entry calls for, or lies on the way to it. */
  predicate NeedsDir(cwd: Location, dest: string, e: ZipEntry, l: Location)
  {
    l <= DirOf(cwd, dest, e)
  }

  lemma AncestorsArePrefixes(l: Location, p: Location)
    ensures p in Ancestors(l, |l|) <==> p <= l
  {
    if p <= l {
      assert p == l[..|p|];
    }
  }

  lemma OneEntryExact(t: Tree, cwd: Location, dest: string, e: ZipEntry, l: Location)
    ensures var t' := ExtractOne(t, cwd, dest, e);
            && (l in t' <==> l in t || NeedsDir(cwd, dest, e, l) || PlaceOf(cwd, dest, e) == l)
            && (l in t' ==> t'[l] == if !e.isDir && PlaceOf(cwd, dest, e) == l then File(e.data)
                                     else if l in t then t[l] else Directory)
  {
    AncestorsArePrefixes(DirOf(cwd, dest, e), l);
  }

  /** After a successful extraction every place holds the data of the last regular entry
      for it, what was there before, or a directory some entry needed; nothing else. */
  lemma {:induction false} ExtractAllExact(t: Tree, cwd: Location, dest: string, entries: seq<ZipEntry>, l: Location)
    ensures var t', data := ExtractAll(t, cwd, dest, entries), LastData(cwd, dest, entries, l);
            && (l in t' <==> l in t || data.Some? || exists e :: e in entries && NeedsDir(cwd, dest, e, l))
            && (l in t' ==> t'[l] == if data.Some? then File(data.value) else if l in t then t[l] else Directory)
  {
    hide ExtractOne;
    if entries != [] {
      var front, e := entries[..|entries| - 1], entries[|entries| - 1];
      ExtractAllExact(t, cwd, dest, front, l);
      OneEntryExact(ExtractAll(t, cwd, dest, front), cwd, dest, e, l);
      assert entries == front + [e];
      assert PlaceOf(cwd, dest, e) == l && e.isDir ==> NeedsDir(cwd, dest, e, l);
    }
  }

  /** Extracting the same archive again changes nothing. */
  lemma ExtractTwice(t: Tree, cwd: Location, dest: string, entries: seq<ZipEntry>)
    ensures var t' := ExtractAll(t, cwd, dest, entries);
            ExtractAll(t', cwd, dest, entries) == t'
  {
    var t' := ExtractAll(t, cwd, dest, entries);
    var t'' := ExtractAll(t', cwd, dest, entries);
    forall l ensures l in t'' <==> l in t'
      ensures l in t' ==> t''[l] == t'[l]
    {
      ExtractAllExact(t, cwd, dest, entries, l);
      ExtractAllExact(t', cwd, dest, entries, l);
    }
  }

  // ---------------------------------------------------------------- when nothing is in the way

  lemma {:induction false} LaterKept(t: Tree, cwd: Location, dest: string, entries: seq<ZipEntry>, m: nat, n: nat)
    requires m <= n <= |entries| && Good(t, cwd, dest, entries, n)
    ensures Kept(ExtractAll(t, cwd, dest, entries[..m]), ExtractAll(t, cwd, dest, entries[..n]))
  {
    hide Fits, Accepts, ExtractOne, Partial, Kept;
    if m == n {
      NothingChanged(ExtractAll(t, cwd, dest, entries[..n]), []);
    } else {
      var i: nat := n - 1;
      LaterKept(t, cwd, dest, entries, m, i);
      AfterEntry(t, cwd, dest, entries, i);
      KeptTrans(ExtractAll(t, cwd, dest, entries[..m]), ExtractAll(t, cwd, dest, entries[..i]),
                ExtractAll(t, cwd, dest, entries[..n]));
    }
  }

  lemma AfterEntry(t: Tree, cwd: Location, dest: string, entries: seq<ZipEntry>, i: nat)
    requires i < |entries|
    ensures var mid := ExtractAll(t, cwd, dest, entries[..i]);
            && ExtractAll(t, cwd, dest, entries[..i + 1]) == ExtractOne(mid, cwd, dest, entries[i])
            && (Fits(mid, cwd, dest, entries[i]) ==> Kept(mid, ExtractAll(t, cwd, dest, entries[..i + 1])))
  {
    hide Fits, ExtractOne, Partial, Kept;
    var mid, e := ExtractAll(t, cwd, dest, entries[..i]), entries[i];
    assert entries[..i + 1][..i] == entries[..i];
    if Fits(mid, cwd, dest, e) {
      WholeIsPart(mid, cwd, dest, e);
      PartKept(mid, ExtractOne(mid, cwd, dest, e), cwd, dest, e);
    }
  }

  /** A fitting entry leaves a directory wherever it calls for one, and its file. */
  lemma LeavesItsPlaces(t: Tree, cwd: Location, dest: string, e: ZipEntry, p: Location)
    requires Fits(t, cwd, dest, e)
    ensures var t' := ExtractOne(t, cwd, dest, e);
            && (p <= DirOf(cwd, dest, e) ==> p in t' && t'[p].Directory?)
            && (!e.isDir ==> PlaceOf(cwd, dest, e) in t' && t'[PlaceOf(cwd, dest, e)].File?)
  {
    hide Resolve, PathJoin, Dir;
    AncestorsArePrefixes(DirOf(cwd, dest, e), p);
  }

  /** Two entries get in each other's way: the one is a file where the other needs a
      directory. */
  predicate Clash(cwd: Location, dest: string, file: ZipEntry, other: ZipEntry)
  {
    !file.isDir && PlaceOf(cwd, dest, file) <= DirOf(cwd, dest, other)
  }

  /** Below an anchored destination an archive extracts without a failure exactly if each
      entry leads below the destination and can be read, meets no file of the tree where it
      needs a directory and no directory where it needs a file, and no two entries clash.
      The order of the entries plays no part. */
  lemma GoodExactly(t: Tree, cwd: Location, dest: string, entries: seq<ZipEntry>)
    requires AllOrdinary(cwd) && Anchored(dest)
    ensures Good(t, cwd, dest, entries, |entries|) <==>
            && (forall e :: e in entries ==>
                  && StrictlyBelow(dest, PathJoin(dest, e.name)) && (e.isDir || e.readable)
                  && (forall p :: p in t && p <= DirOf(cwd, dest, e) ==> t[p].Directory?)
                  && (!e.isDir && PlaceOf(cwd, dest, e) in t ==> t[PlaceOf(cwd, dest, e)].File?))
            && (forall e, e' :: e in entries && e' in entries && !e.isDir ==>
                  !(PlaceOf(cwd, dest, e) <= DirOf(cwd, dest, e')))
  {
    hide Accepts, Fits, Resolve, PathJoin, Dir, StrictlyBelow, ExtractAll, Anchored, DirOf, PlaceOf;
    forall e | e in entries ensures Accepts(dest, e.name) <==> StrictlyBelow(dest, PathJoin(dest, e.name)) {
      GuardExactWhenAnchored(dest, e.name);
    }
    if Good(t, cwd, dest, entries, |entries|) {
      forall e | e in entries
        ensures Accepts(dest, e.name) && MeetsNothing(t, cwd, dest, e)
      {
        var k :| 0 <= k < |entries| && entries[k] == e;
        FitsFromStart(t, cwd, dest, entries, k);
      }
      forall e, e' | e in entries && e' in entries ensures !Clash(cwd, dest, e, e') {
        var i :| 0 <= i < |entries| && entries[i] == e;
        var j :| 0 <= j < |entries| && entries[j] == e';
        GoodHasNoClash(t, cwd, dest, entries, i, j);
      }
    }
    if (forall e :: e in entries ==> Accepts(dest, e.name) && MeetsNothing(t, cwd, dest, e))
       && (forall e, e' :: e in entries && e' in entries ==> !Clash(cwd, dest, e, e')) {
      forall k | 0 <= k < |entries|
        ensures Accepts(dest, entries[k].name)
        ensures Fits(ExtractAll(t, cwd, dest, entries[..k]), cwd, dest, entries[k])
      {
        assert entries[k] in entries;
        FitsInTurn(t, cwd, dest, entries[..k], entries[k]);
      }
    }
  }

  /** The entry can be read and meets nothing of the wrong kind. */
  ghost predicate MeetsNothing(t: Tree, cwd: Location, dest: string, e: ZipEntry)
  {
    && (e.isDir || e.readable)
    && (forall p :: p in t && p <= DirOf(cwd, dest, e) ==> t[p].Directory?)
    && (!e.isDir && PlaceOf(cwd, dest, e) in t ==> t[PlaceOf(cwd, dest, e)].File?)
  }

  lemma FitsFromStart(t: Tree, cwd: Location, dest: string, entries: seq<ZipEntry>, k: nat)
    requires k < |entries| && Good(t, cwd, dest, entries, |entries|)
    ensures Accepts(dest, entries[k].name) && MeetsNothing(t, cwd, dest, entries[k])
  {
    hide Accepts, Resolve, PathJoin, Dir, WithDirs;
    var mid, e := ExtractAll(t, cwd, dest, entries[..k]), entries[k];
    LaterKept(t, cwd, dest, entries, 0, k);
    assert Fits(mid, cwd, dest, e);
    WithDirsKeeps(mid, DirOf(cwd, dest, e), |DirOf(cwd, dest, e)|, PlaceOf(cwd, dest, e));
  }

  lemma GoodHasNoClash(t: Tree, cwd: Location, dest: string, entries: seq<ZipEntry>, i: nat, j: nat)
    requires AllOrdinary(cwd) && Anchored(dest) && Good(t, cwd, dest, entries, |entries|)
    requires i < |entries| && j < |entries|
    ensures !Clash(cwd, dest, entries[i], entries[j])
  {
    hide Accepts, Resolve, PathJoin, Dir, WithDirs, Anchored, ExtractOne, ExtractAll;
    var e, e' := entries[i], entries[j];
    var l := PlaceOf(cwd, dest, e);
    if Clash(cwd, dest, e, e') {
      AfterEntry(t, cwd, dest, entries, i);
      AfterEntry(t, cwd, dest, entries, j);
      LeavesItsPlaces(ExtractAll(t, cwd, dest, entries[..i]), cwd, dest, e, l);
      LeavesItsPlaces(ExtractAll(t, cwd, dest, entries[..j]), cwd, dest, e', l);
      if i < j {
        LaterKept(t, cwd, dest, entries, i + 1, j);
      } else if j < i {
        LaterKept(t, cwd, dest, entries, j + 1, i);
      } else {
        DirOfAccepted(cwd, dest, e.name);
      }
    }
  }

  /** After entries it does not clash with, an entry fits if it met nothing at the start. */
  lemma FitsInTurn(t: Tree, cwd: Location, dest: string, front: seq<ZipEntry>, e: ZipEntry)
    requires AllOrdinary(cwd) && Anchored(dest) && Accepts(dest, e.name) && MeetsNothing(t, cwd, dest, e)
    requires forall e' :: e' in front ==> !Clash(cwd, dest, e, e') && !Clash(cwd, dest, e', e)
    ensures Fits(ExtractAll(t, cwd, dest, front), cwd, dest, e)
  {
    hide Accepts, Resolve, PathJoin, Dir, WithDirs, Anchored, ExtractOne, ExtractAll;
    var s, d, l := ExtractAll(t, cwd, dest, front), DirOf(cwd, dest, e), PlaceOf(cwd, dest, e);
    forall p | p in s && p <= d ensures s[p].Directory? {
      ExtractAllExact(t, cwd, dest, front, p);
      LastDataFrom(cwd, dest, front, p);
    }
    if !e.isDir {
      DirOfAccepted(cwd, dest, e.name);
      ExtractAllExact(t, cwd, dest, front, l);
      DirThere(s, d, l);
    }
  }

  lemma DirThere(t: Tree, d: Location, l: Location)
    requires WayFree(t, d) && !(l <= d)
    ensures d in WithDirs(t, d, |d|) && WithDirs(t, d, |d|)[d].Directory?
    ensures l in WithDirs(t, d, |d|) ==> l in t && WithDirs(t, d, |d|)[l] == t[l]
  {
    AncestorsArePrefixes(d, d);
    AncestorsArePrefixes(d, l);
  }

  lemma {:induction false} LastDataFrom(cwd: Location, dest: string, entries: seq<ZipEntry>, l: Location)
    ensures LastData(cwd, dest, entries, l).Some? <==>
            exists e :: e in entries && !e.isDir && PlaceOf(cwd, dest, e) == l
  {
    if entries != [] {
      var front, e := entries[..|entries| - 1], entries[|entries| - 1];
      LastDataFrom(cwd, dest, front, l);
      assert entries == front + [e];
    }
  }

  /** What could be extracted once can be extracted again, and that changes nothing. */
  lemma ExtractAgain(t: Tree, cwd: Location, dest: string, entries: seq<ZipEntry>)
    requires AllOrdinary(cwd) && Good(t, cwd, dest, entries, |entries|)
    ensures var t' := ExtractAll(t, cwd, dest, entries);
            Good(t', cwd, dest, entries, |entries|) && ExtractAll(t', cwd, dest, entries) == t'
  {
    hide Accepts, Fits, ExtractAll;
    var t' := ExtractAll(t, cwd, dest, entries);
    ExtractTwice(t, cwd, dest, entries);
    forall k | 0 <= k < |entries| ensures Fits(ExtractAll(t', cwd, dest, entries[..k]), cwd, dest, entries[k]) {
      FitsAgain(t, cwd, dest, entries, k);
    }
  }

  lemma FitsAgain(t: Tree, cwd: Location, dest: string, entries: seq<ZipEntry>, k: nat)
    requires k < |entries| && Good(t, cwd, dest, entries, |entries|)
    ensures var t' := ExtractAll(t, cwd, dest, entries);
            Fits(ExtractAll(t', cwd, dest, entries[..k]), cwd, dest, entries[k])
  {
    hide Accepts, Fits, ExtractOne, ExtractAll, Kept;
    var t' := ExtractAll(t, cwd, dest, entries);
    var mid, after := ExtractAll(t, cwd, dest, entries[..k]), ExtractAll(t, cwd, dest, entries[..k + 1]);
    var again := ExtractAll(t', cwd, dest, entries[..k]);
    assert entries[..|entries|] == entries;
    AfterEntry(t, cwd, dest, entries, k);
    LaterKept(t, cwd, dest, entries, k + 1, |entries|);
    KindsAgain(t, cwd, dest, entries, k);
    KeptTrans(after, t', again);
    StillFits(mid, again, cwd, dest, entries[k]);
  }

  lemma KindsAgain(t: Tree, cwd: Location, dest: string, entries: seq<ZipEntry>, k: nat)
    requires k <= |entries|
    ensures var t' := ExtractAll(t, cwd, dest, entries);
            Kept(t', ExtractAll(t', cwd, dest, entries[..k]))
  {
    hide ExtractAll, PlaceOf;
    var t' := ExtractAll(t, cwd, dest, entries);
    forall l | l in t'
      ensures var again := ExtractAll(t', cwd, dest, entries[..k]);
              l in again && (t'[l].Directory? <==> again[l].Directory?)
    {
      ExtractAllExact(t, cwd, dest, entries, l);
      ExtractAllExact(t', cwd, dest, entries[..k], l);
      LastDataFrom(cwd, dest, entries, l);
      LastDataFrom(cwd, dest, entries[..k], l);
    }
  }

  /** Where an entry was extracted once it fits again, as long as nothing changes its kind. */
  lemma StillFits(t: Tree, later: Tree, cwd: Location, dest: string, e: ZipEntry)
    requires Fits(t, cwd, dest, e) && Kept(ExtractOne(t, cwd, dest, e), later)
    ensures Fits(later, cwd, dest, e)
  {
    hide Resolve, PathJoin, Dir, WithDirs;
    var d, l := DirOf(cwd, dest, e), PlaceOf(cwd, dest, e);
    forall p | p in later && p <= d ensures later[p].Directory? {
      LeavesItsPlaces(t, cwd, dest, e, p);
    }
    if !e.isDir {
      LeavesItsPlaces(t, cwd, dest, e, d);
      WithDirsKeeps(later, d, |d|, l);
      WithDirsKeeps(later, d, |d|, l[..|l| - 1]);
    }
  }
}
