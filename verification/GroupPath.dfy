/** The slash form of a group path. */
module GroupPath {
  import opened Wrappers
  import opened Forest
  import opened Slashes

  /** What the path form hands to the segment form, if it accepts the path. */
  function ParsePath(path: string): Option<seq<string>>
  {
    var segments := Split(Trim(path));
    if "" in segments then None else Some(segments)
  }

  /** The lists of names that a slash path can express. */
  predicate Expressible(names: seq<string>)
  {
    names != [] && (forall n :: n in names ==> n != "" && SlashFree(n))
  }

  lemma {:induction false} JoinEnds(names: seq<string>)
    requires Expressible(names)
    ensures var s := Join(names); s != "" && s[0] != '/' && s[|s| - 1] != '/'
  {
    assert names[0] in names && names[0] != "" && names[0][0] != '/' && names[0][|names[0]| - 1] != '/';
    if |names| > 1 {
      forall n | n in names[1..] ensures n in names {}
      JoinEnds(names[1..]);
      var s, t := Join(names), Join(names[1..]);
      assert s == names[0] + "/" + t;
      assert s[0] == names[0][0] && s[|s| - 1] == t[|t| - 1];
    }
  }

  /** Any number of leading and trailing slashes around joined names parses to the names. */
  lemma PrintThenParse(names: seq<string>, leading: nat, trailing: nat)
    requires Expressible(names)
    ensures ParsePath(Bars(leading) + Join(names) + Bars(trailing)) == Some(names)
  {
    JoinEnds(names);
    var s := Join(names);
    assert Bars(leading) + s + Bars(trailing) == Bars(leading) + (s + Bars(trailing));
    assert (s + Bars(trailing))[0] == s[0];
    TrimLeftBars(leading, s + Bars(trailing));
    TrimRightBars(s, trailing);
    SplitJoin(names);
  }

  /** A path is accepted if and only if it has that shape, and then for just one list. */
  lemma ParseAcceptsExactly(path: string, names: seq<string>)
    ensures ParsePath(path) == Some(names) <==>
            Expressible(names)
                && exists leading: nat, trailing: nat :: path == Bars(leading) + Join(names) + Bars(trailing)
  {
    if ParsePath(path) == Some(names) {
      var trimmed := TrimLeft(path);
      var leading := TrimLeftShape(path);
      var trailing := TrimRightShape(trimmed);
      SplitSlashFree(Trim(path));
      JoinSplit(Trim(path));
      assert Bars(leading) + (Join(names) + Bars(trailing)) == Bars(leading) + Join(names) + Bars(trailing);
    }
    if Expressible(names)
        && exists leading: nat, trailing: nat :: path == Bars(leading) + Join(names) + Bars(trailing)
    {
      var leading: nat, trailing: nat :| path == Bars(leading) + Join(names) + Bars(trailing);
      PrintThenParse(names, leading, trailing);
    }
  }

  lemma {:induction false} PathStringFront(names: seq<string>)
    requires names != []
    ensures PathString(names) == "/" + names[0] + PathString(names[1..])
  {
    if |names| > 1 {
      var front, last := names[..|names| - 1], names[|names| - 1];
      PathStringFront(front);
      var tail := names[1..];
      assert front[1..] == tail[..|tail| - 1] && tail[|tail| - 1] == last && front[0] == names[0];
      assert PathString(tail) == PathString(front[1..]) + "/" + last;
      assert PathString(names) == ("/" + names[0] + PathString(front[1..])) + "/" + last;
    } else {
      assert PathString(names[..0]) == "" && PathString(names[1..]) == "";
    }
  }

  lemma {:induction false} PathStringIsJoin(names: seq<string>)
    requires names != []
    ensures PathString(names) == "/" + Join(names)
  {
    PathStringFront(names);
    if |names| > 1 {
      PathStringIsJoin(names[1..]);
      assert PathString(names) == "/" + (names[0] + "/" + Join(names[1..]));
    } else {
      assert PathString(names[1..]) == "";
    }
  }

  /** The path that a walk's result carries leads back to the same names. */
  lemma ResultPathParses(names: seq<string>)
    requires Expressible(names)
    ensures ParsePath(PathString(names)) == Some(names)
  {
    PathStringIsJoin(names);
    PrintThenParse(names, 1, 0);
    assert Bars(1) + Join(names) + Bars(0) == "/" + Join(names);
  }

  /** A name with a slash in it is out of reach of the slash form. */
  lemma SlashNamesNeedSegments(path: string, names: seq<string>, name: string)
    requires name in names && !SlashFree(name)
    ensures ParsePath(path) != Some(names)
  {
    ParseAcceptsExactly(path, names);
  }
}
