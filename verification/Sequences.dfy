module Sequences {

  predicate Increasing(s: seq<nat>) {
    forall i, j :: 0 <= i < j < |s| ==> s[i] < s[j]
  }

  /** The pieces one after the other. */
  function Flat<T>(pieces: seq<seq<T>>): seq<T> {
    if pieces == [] then [] else Flat(pieces[..|pieces| - 1]) + pieces[|pieces| - 1]
  }

  lemma FlatNext<T>(pieces: seq<seq<T>>, i: nat)
    requires i < |pieces|
    ensures Flat(pieces[..i + 1]) == Flat(pieces[..i]) + pieces[i]
  {
    assert pieces[..i + 1][..i] == pieces[..i];
  }

  lemma FlatNextAfter<T>(before: seq<T>, pieces: seq<seq<T>>, i: nat)
    requires i < |pieces|
    ensures before + Flat(pieces[..i + 1]) == (before + Flat(pieces[..i])) + pieces[i]
  {
    FlatNext(pieces, i);
  }

  lemma FlatLast<T>(init: seq<seq<T>>, last: seq<T>, pieces: seq<seq<T>>)
    requires pieces == init + [last]
    ensures Flat(pieces) == Flat(init) + last
  {
    assert pieces[..|pieces| - 1] == init;
  }

  lemma {:induction false} FlatAdds<T>(a: seq<seq<T>>, b: seq<seq<T>>)
    ensures Flat(a + b) == Flat(a) + Flat(b)
  {
    if b == [] {
      assert a + b == a;
    } else {
      var init, last := b[..|b| - 1], b[|b| - 1];
      FlatAdds(a, init);
      FlatLast(init, last, b);
      FlatLast(a + init, last, a + b);
    }
  }

  lemma FlatOne<T>(piece: seq<T>)
    ensures Flat([piece]) == piece
  {
    assert Flat([piece][..0]) == [];
  }

  /** A function that respects concatenation can be applied piece by piece. */
  lemma {:induction false} FlatMaps<T, U>(f: seq<T> -> seq<U>, pieces: seq<seq<T>>, images: seq<seq<U>>)
    requires f([]) == [] && forall a: seq<T>, b: seq<T> :: f(a + b) == f(a) + f(b)
    requires |images| == |pieces| && forall i :: 0 <= i < |pieces| ==> images[i] == f(pieces[i])
    ensures f(Flat(pieces)) == Flat(images)
  {
    if pieces != [] {
      var n := |pieces| - 1;
      FlatMaps(f, pieces[..n], images[..n]);
    }
  }

  lemma {:induction false} FlatLengths<T, U>(a: seq<seq<T>>, b: seq<seq<U>>)
    requires |a| == |b| && forall i :: 0 <= i < |a| ==> |a[i]| == |b[i]|
    ensures |Flat(a)| == |Flat(b)|
  {
    if a != [] { FlatLengths(a[..|a| - 1], b[..|b| - 1]); }
  }

  lemma {:induction false} InFlat<T>(pieces: seq<seq<T>>, x: T)
    requires x in Flat(pieces)
    ensures exists i :: 0 <= i < |pieces| && x in pieces[i]
  {
    var n := |pieces| - 1;
    if x !in pieces[n] {
      InFlat(pieces[..n], x);
      var i :| 0 <= i < n && x in pieces[..n][i];
      assert x in pieces[i];
    }
  }
}
