/** Sequences that only ever grow by insertion: the shape of a server's listing
    while nothing is deleted. */
module Sequences {

  /** `b` is `a` with elements inserted at arbitrary positions. */
  predicate Subseq<T(==)>(a: seq<T>, b: seq<T>)
  {
    a == [] || (b != [] && ((a[0] == b[0] && Subseq(a[1..], b[1..])) || Subseq(a, b[1..])))
  }

  function InsertAt<T>(s: seq<T>, at: nat, x: T): seq<T>
  {
    var k := if at <= |s| then at else |s|;
    s[..k] + [x] + s[k..]
  }

  lemma {:induction false} SubseqRefl<T>(a: seq<T>)
    ensures Subseq(a, a)
  {
    if a != [] {
      SubseqRefl(a[1..]);
    }
  }

  lemma {:induction false} SubseqTail<T>(a: seq<T>, b: seq<T>)
    requires a != [] && Subseq(a, b)
    ensures Subseq(a[1..], b)
    decreases b
  {
    if a[0] == b[0] && Subseq(a[1..], b[1..]) {
      assert [b[0]] + b[1..] == b;
    } else {
      SubseqTail(a, b[1..]);
      assert [b[0]] + b[1..] == b;
    }
  }

  lemma {:induction false} SubseqTrans<T>(a: seq<T>, b: seq<T>, c: seq<T>)
    requires Subseq(a, b) && Subseq(b, c)
    ensures Subseq(a, c)
    decreases |b| + |c|
  {
    if a != [] {
      if b[0] == c[0] && Subseq(b[1..], c[1..]) {
        if a[0] == b[0] && Subseq(a[1..], b[1..]) {
          SubseqTrans(a[1..], b[1..], c[1..]);
        } else {
          SubseqTrans(a, b[1..], c[1..]);
        }
      } else {
        SubseqTrans(a, b, c[1..]);
      }
    }
  }

  lemma {:induction false} SubseqMember<T>(a: seq<T>, b: seq<T>, x: T)
    requires Subseq(a, b) && x in a
    ensures x in b
    decreases b
  {
    if a[0] == b[0] && Subseq(a[1..], b[1..]) {
      if x != a[0] {
        SubseqMember(a[1..], b[1..], x);
      }
    } else {
      SubseqMember(a, b[1..], x);
    }
  }

  lemma {:induction false} SubseqInsert<T>(a: seq<T>, at: nat, x: T)
    ensures Subseq(a, InsertAt(a, at, x))
  {
    var b := InsertAt(a, at, x);
    if at == 0 || a == [] {
      SubseqRefl(a);
      assert b[1..] == a;
    } else {
      SubseqInsert(a[1..], at - 1, x);
      assert b[1..] == InsertAt(a[1..], at - 1, x);
    }
  }

  lemma {:induction false} SubseqLength<T>(a: seq<T>, b: seq<T>)
    requires Subseq(a, b)
    ensures |a| <= |b|
    ensures |a| == |b| ==> a == b
    decreases b
  {
    if a != [] {
      if a[0] == b[0] && Subseq(a[1..], b[1..]) {
        SubseqLength(a[1..], b[1..]);
        assert a == [a[0]] + a[1..] && b == [b[0]] + b[1..];
      } else {
        SubseqLength(a, b[1..]);
      }
    }
  }

  /** An element never moves towards the front. */
  lemma {:induction false} SubseqPosition<T>(a: seq<T>, b: seq<T>, p: nat) returns (q: nat)
    requires Subseq(a, b) && p < |a|
    ensures p <= q < |b| && b[q] == a[p]
    decreases b
  {
    if a[0] == b[0] && Subseq(a[1..], b[1..]) {
      if p == 0 {
        q := 0;
      } else {
        var r := SubseqPosition(a[1..], b[1..], p - 1);
        q := r + 1;
      }
    } else {
      var r := SubseqPosition(a, b[1..], p);
      q := r + 1;
    }
  }

  /** Everything up to an element is found in front of where the element is found. */
  lemma {:induction false} SubseqFront<T>(a: seq<T>, b: seq<T>, p: nat) returns (q: nat)
    requires Subseq(a, b) && p < |a|
    ensures p <= q < |b| && b[q] == a[p]
    ensures Subseq(a[..p + 1], b[..q + 1])
    decreases b
  {
    if a[0] == b[0] && Subseq(a[1..], b[1..]) {
      if p == 0 {
        q := 0;
        assert a[..1][1..] == [];
      } else {
        var r := SubseqFront(a[1..], b[1..], p - 1);
        q := r + 1;
        assert a[..p + 1][1..] == a[1..][..p] && b[..q + 1][1..] == b[1..][..q];
      }
    } else {
      var r := SubseqFront(a, b[1..], p);
      q := r + 1;
      assert b[..q + 1][1..] == b[1..][..q];
    }
  }

  lemma {:induction false} SubseqAppend<T>(a: seq<T>, b: seq<T>)
    ensures Subseq(a, a + b)
  {
    if a != [] {
      SubseqAppend(a[1..], b);
      assert (a + b)[1..] == a[1..] + b;
    }
  }
}
