/** Complete listings of a set of things, in the fixed order in which a server lists them. */
module Listings {

  /** A complete listing of a set, in the server's order. */
  function Pick<T(==)>(order: seq<T>, s: set<T>): seq<T>
  {
    if order == [] then [] else (if order[0] in s then [order[0]] else []) + Pick(order[1..], s)
  }

  ghost predicate NoDup<T>(s: seq<T>)
  {
    forall i, j :: 0 <= i < j < |s| ==> s[i] != s[j]
  }

  lemma NoDupTail<T>(s: seq<T>)
    requires NoDup(s) && s != []
    ensures NoDup(s[1..]) && s[0] !in s[1..]
  {
    forall i, j | 0 <= i < j < |s[1..]| ensures s[1..][i] != s[1..][j] {
      assert s[i + 1] != s[j + 1];
    }
    forall i | 0 <= i < |s[1..]| ensures s[1..][i] != s[0] {
      assert s[0] != s[i + 1];
    }
  }

  lemma {:induction false} PickMembers<T>(order: seq<T>, s: set<T>)
    requires NoDup(order)
    ensures forall x :: x in Pick(order, s) <==> x in order && x in s
    ensures NoDup(Pick(order, s))
  {
    if order != [] {
      NoDupTail(order);
      PickMembers(order[1..], s);
      assert forall x :: x in order <==> x == order[0] || x in order[1..];
      if order[0] in s {
        NoDupCons(order[0], Pick(order[1..], s));
      } else {
        assert Pick(order, s) == Pick(order[1..], s);
      }
    }
  }

  lemma NoDupCons<T>(x: T, s: seq<T>)
    requires NoDup(s) && x !in s
    ensures NoDup([x] + s)
  {}

  lemma {:induction false} PickSnoc<T>(s: seq<T>, x: T, m: set<T>)
    ensures Pick(s + [x], m) == Pick(s, m) + (if x in m then [x] else [])
  {
    if s == [] {
      assert s + [x] == [x] && [x][1..] == [];
    } else {
      PickSnoc(s[1..], x, m);
      assert (s + [x])[1..] == s[1..] + [x];
    }
  }

  /** Filtering a listing for some of its entries lists those entries. */
  lemma {:induction false} PickPick<T>(order: seq<T>, s: set<T>, m: set<T>)
    requires m <= s
    ensures Pick(Pick(order, s), m) == Pick(order, m)
  {
    if order != [] {
      PickPick(order[1..], s, m);
      if order[0] in s {
        assert Pick(order, s)[1..] == Pick(order[1..], s);
      } else {
        assert Pick(order, s) == Pick(order[1..], s);
      }
    }
  }

  lemma {:induction false} PickPrefix<T>(s: seq<T>, i: nat, m: set<T>)
    requires i <= |s|
    ensures Pick(s[..i], m) <= Pick(s, m)
    decreases |s| - i
  {
    if i == |s| {
      assert s[..i] == s;
    } else {
      PickPrefix(s, i + 1, m);
      assert s[..i + 1] == s[..i] + [s[i]];
      PickSnoc(s[..i], s[i], m);
    }
  }

  lemma {:induction false} PickNone<T>(order: seq<T>)
    ensures Pick(order, {}) == []
  {
    if order != [] {
      PickNone(order[1..]);
    }
  }
}
