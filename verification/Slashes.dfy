/** Splitting, joining and trimming strings at slashes. */
module Slashes {

  /** The pieces between slashes; always at least one. */
  function Split(s: string): (r: seq<string>)
    ensures r != []
  {
    if s == "" then [""]
    else
      var rest := Split(s[1..]);
      if s[0] == '/' then [""] + rest else [[s[0]] + rest[0]] + rest[1..]
  }

  function Join(pieces: seq<string>): string
  {
    if pieces == [] then ""
    else if |pieces| == 1 then pieces[0]
    else pieces[0] + "/" + Join(pieces[1..])
  }

  predicate SlashFree(s: string)
  {
    '/' !in s
  }

  predicate AllSlashFree(pieces: seq<string>)
  {
    forall p :: p in pieces ==> SlashFree(p)
  }

  function TrimLeft(s: string): string
  {
    if s != "" && s[0] == '/' then TrimLeft(s[1..]) else s
  }

  function TrimRight(s: string): string
  {
    if s != "" && s[|s| - 1] == '/' then TrimRight(s[..|s| - 1]) else s
  }

  function Trim(s: string): string
  {
    TrimRight(TrimLeft(s))
  }

  /** `n` slashes. */
  function Bars(n: nat): string
  {
    if n == 0 then "" else "/" + Bars(n - 1)
  }

  lemma {:induction false} SplitSlashFree(s: string)
    ensures AllSlashFree(Split(s))
  {
    if s != "" {
      SplitSlashFree(s[1..]);
      var rest := Split(s[1..]);
      assert SlashFree(rest[0]);
    }
  }

  lemma {:induction false} JoinSplit(s: string)
    ensures Join(Split(s)) == s
  {
    if s != "" {
      JoinSplit(s[1..]);
      var rest := Split(s[1..]);
      assert s == [s[0]] + s[1..];
      if s[0] == '/' {
        assert ([""] + rest)[1..] == rest;
      } else {
        assert ([[s[0]] + rest[0]] + rest[1..])[1..] == rest[1..];
      }
    }
  }

  lemma {:induction false} SplitPiece(p: string, s: string)
    requires SlashFree(p)
    ensures Split(p) == [p]
    ensures Split(p + "/" + s) == [p] + Split(s)
  {
    if p == "" {
      assert ("" + "/" + s)[1..] == s;
    } else {
      assert SlashFree(p[1..]);
      SplitPiece(p[1..], s);
      assert (p + "/" + s)[1..] == p[1..] + "/" + s;
      assert p == [p[0]] + p[1..];
    }
  }

  lemma {:induction false} SplitJoin(pieces: seq<string>)
    requires pieces != [] && AllSlashFree(pieces)
    ensures Split(Join(pieces)) == pieces
  {
    assert pieces[0] in pieces;
    if |pieces| == 1 {
      SplitPiece(pieces[0], "");
    } else {
      SplitJoin(pieces[1..]);
      SplitPiece(pieces[0], Join(pieces[1..]));
      assert pieces == [pieces[0]] + pieces[1..];
    }
  }

  lemma {:induction false} TrimLeftBars(n: nat, s: string)
    requires s == "" || s[0] != '/'
    ensures TrimLeft(Bars(n) + s) == s
  {
    if n > 0 {
      TrimLeftBars(n - 1, s);
      assert (Bars(n) + s)[1..] == Bars(n - 1) + s;
    } else {
      assert Bars(0) + s == s;
    }
  }

  lemma {:induction false} BarsEnd(n: nat)
    ensures Bars(n + 1) == Bars(n) + "/"
  {
    if n > 0 {
      BarsEnd(n - 1);
      assert Bars(n + 1) == "/" + (Bars(n - 1) + "/") == ("/" + Bars(n - 1)) + "/";
    }
  }

  lemma {:induction false} TrimRightBars(s: string, n: nat)
    requires s == "" || s[|s| - 1] != '/'
    ensures TrimRight(s + Bars(n)) == s
  {
    if n > 0 {
      TrimRightBars(s, n - 1);
      BarsEnd(n - 1);
      var t, u := s + Bars(n), s + Bars(n - 1);
      assert t == u + "/";
      assert t[|t| - 1] == '/' && t[..|t| - 1] == u;
    } else {
      assert s + Bars(0) == s;
    }
  }

  lemma {:induction false} TrimLeftShape(s: string) returns (n: nat)
    ensures s == Bars(n) + TrimLeft(s)
    ensures TrimLeft(s) == "" || TrimLeft(s)[0] != '/'
  {
    if s != "" && s[0] == '/' {
      var k := TrimLeftShape(s[1..]);
      n := k + 1;
      assert s == "/" + s[1..] == "/" + (Bars(k) + TrimLeft(s[1..])) == ("/" + Bars(k)) + TrimLeft(s[1..]);
    } else {
      n := 0;
      assert s == Bars(0) + s;
    }
  }

  lemma {:induction false} TrimRightShape(s: string) returns (n: nat)
    ensures s == TrimRight(s) + Bars(n)
    ensures TrimRight(s) == "" || TrimRight(s)[|TrimRight(s)| - 1] != '/'
  {
    if s != "" && s[|s| - 1] == '/' {
      var front := s[..|s| - 1];
      var k := TrimRightShape(front);
      n := k + 1;
      BarsEnd(k);
      assert s == front + "/";
      assert s == TrimRight(front) + (Bars(k) + "/");
    } else {
      n := 0;
      assert s == s + Bars(0);
    }
  }
}
