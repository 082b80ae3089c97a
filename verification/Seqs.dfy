/** Subsequences: what is left of a list after deleting some of its elements. */
module Seqs {

  predicate Subseq<T(==)>(a: seq<T>, b: seq<T>)
  {
    a == [] ||
    (b != [] && if a[0] == b[0] then Subseq(a[1..], b[1..]) else Subseq(a, b[1..]))
  }

  lemma SomeMember<T>(a: seq<T>)
    requires a != []
    ensures exists x :: x in a
  {
    assert a[0] in a;
  }

  /** Appending at most two elements is appending them one by one. */
  lemma AppendOneByOne<T>(a: seq<T>, more: seq<T>)
    ensures more == [] ==> a + more == a
    ensures |more| == 1 ==> a + more == a + [more[0]]
    ensures |more| == 2 ==> a + more == a + [more[0]] + [more[1]]
  {}

  lemma OneLonger<T>(a: seq<T>, k: nat)
    requires k < |a|
    ensures a[..k + 1][..k] == a[..k] && a[..k + 1][k] == a[k]
  {}

  lemma {:induction false} SubseqRefl<T>(a: seq<T>)
    ensures Subseq(a, a)
  {
    if a != [] {
      SubseqRefl(a[1..]);
    }
  }

  lemma {:induction false} SubseqTail<T>(a: seq<T>, b: seq<T>)
    requires a != [] && Subseq(a, b)
    ensures Subseq(a[1..], b)
    decreases |b|, 0
  {
    if a[0] != b[0] {
      SubseqTail(a, b[1..]);
    }
    SubseqPrepend(a[1..], b[1..], b[0]);
    assert [b[0]] + b[1..] == b;
  }

  lemma {:induction false} SubseqPrepend<T>(a: seq<T>, b: seq<T>, x: T)
    requires Subseq(a, b)
    ensures Subseq(a, [x] + b)
    decreases |b|, 1
  {
    assert ([x] + b)[1..] == b;
    if a != [] && a[0] == x {
      SubseqTail(a, b);
    }
  }

  lemma {:induction false} SubseqBoth<T>(a: seq<T>, b: seq<T>, x: T)
    requires Subseq(a, b)
    ensures Subseq([x] + a, [x] + b)
  {
    assert ([x] + a)[1..] == a && ([x] + b)[1..] == b;
  }

  lemma {:induction false} SubseqMember<T>(a: seq<T>, b: seq<T>)
    requires Subseq(a, b)
    ensures |a| <= |b|
    ensures forall x :: x in a ==> x in b
    ensures |a| == |b| ==> a == b
  {
    if a != [] {
      if a[0] == b[0] {
        SubseqMember(a[1..], b[1..]);
        assert a == [a[0]] + a[1..] && b == [b[0]] + b[1..];
      } else {
        SubseqMember(a, b[1..]);
      }
    }
  }

  lemma {:induction false} SubseqDropLast<T>(a: seq<T>, b: seq<T>)
    requires a != [] && Subseq(a, b)
    ensures b != [] && Subseq(a[..|a| - 1], b[..|b| - 1])
  {
    var a', b' := a[..|a| - 1], b[..|b| - 1];
    if a' != [] {
      if a[0] == b[0] {
        SubseqDropLast(a[1..], b[1..]);
        assert a'[1..] == a[1..][..|a| - 2] && b'[1..] == b[1..][..|b| - 2];
      } else {
        SubseqDropLast(a, b[1..]);
        assert b'[1..] == b[1..][..|b| - 2];
      }
    }
  }

  lemma {:induction false} SubseqPrefix<T>(a: seq<T>, b: seq<T>, n: nat)
    requires n <= |a| && Subseq(a, b)
    ensures Subseq(a[..n], b)
  {
    if n > 0 {
      if a[0] == b[0] {
        SubseqPrefix(a[1..], b[1..], n - 1);
        assert a[..n][1..] == a[1..][..n - 1];
      } else {
        SubseqPrefix(a, b[1..], n);
      }
    }
  }

  lemma {:induction false} SubseqTrans<T>(a: seq<T>, b: seq<T>, c: seq<T>)
    requires Subseq(a, b) && Subseq(b, c)
    ensures Subseq(a, c)
  {
    if a != [] {
      if b[0] != c[0] {
        SubseqTrans(a, b, c[1..]);
        SubseqPrepend(a, c[1..], c[0]);
        assert [c[0]] + c[1..] == c;
      } else if a[0] == b[0] {
        SubseqTrans(a[1..], b[1..], c[1..]);
      } else {
        SubseqTrans(a, b[1..], c[1..]);
      }
    }
  }

  lemma {:induction false} SubseqAppend<T>(a: seq<T>, b: seq<T>, x: T)
    requires Subseq(a, b)
    ensures Subseq(a, b + [x]) && Subseq(a + [x], b + [x])
  {
    if b == [] {
      assert a == [] && a + [x] == [x] && b + [x] == [x];
    } else {
      assert (b + [x])[0] == b[0] && (b + [x])[1..] == b[1..] + [x];
      if a == [] {
        SubseqAppend(a, b[1..], x);
        SubseqPrepend(a + [x], b[1..] + [x], b[0]);
        assert [b[0]] + (b[1..] + [x]) == b + [x];
      } else {
        assert (a + [x])[0] == a[0] && (a + [x])[1..] == a[1..] + [x];
        SubseqAppend(if a[0] == b[0] then a[1..] else a, b[1..], x);
      }
    }
  }
}
