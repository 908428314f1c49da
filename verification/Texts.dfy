/** Texts, and the string order of the tie-breaker.

    A text is a sequence of code units: bytes in the Go server, UTF-16 units in the
    browser. Both languages compare strings unit by unit, the way `LexLe` does. */
module Texts {

  type Text = seq<nat>

  datatype Option<+T> = None | Some(value: T)

  function Min(x: int, y: int): int {
    if x <= y then x else y
  }

  function Max(x: int, y: int): int {
    if x <= y then y else x
  }

  /** The `<=` of Go and JavaScript strings. */
  predicate LexLe(x: Text, y: Text) {
    if x == [] then true
    else if y == [] then false
    else if x[0] != y[0] then x[0] < y[0]
    else LexLe(x[1..], y[1..])
  }

  /** Two texts agree up to `k`, where the first has the smaller unit. */
  predicate SmallerAt(x: Text, y: Text, k: nat) {
    k < |x| && k < |y| && x[..k] == y[..k] && x[k] < y[k]
  }

  /** What the order is: a text precedes those it is a prefix of, and otherwise the first unit in
      which two texts differ decides. */
  lemma {:induction false} LexLeExact(x: Text, y: Text)
    ensures LexLe(x, y) <==> x <= y || exists k: nat :: SmallerAt(x, y, k)
    decreases |x|
  {
    if x == [] || y == [] {
    } else if x[0] != y[0] {
      assert SmallerAt(x, y, 0) <==> x[0] < y[0];
      forall k: nat | SmallerAt(x, y, k)
        ensures k == 0
      {
        SamePrefix(x, y, k);
      }
    } else {
      LexLeExact(x[1..], y[1..]);
      PrefixTails(x, y);
      forall k: nat
        ensures SmallerAt(x, y, k + 1) <==> SmallerAt(x[1..], y[1..], k)
      {
        SmallerTails(x, y, k);
      }
      if k: nat :| SmallerAt(x, y, k) {
        assert k > 0;
        SmallerTails(x, y, k - 1);
        assert SmallerAt(x[1..], y[1..], k - 1);
      }
      if k: nat :| SmallerAt(x[1..], y[1..], k) {
        assert SmallerAt(x, y, k + 1);
      }
    }
  }

  lemma SamePrefix(x: Text, y: Text, k: nat)
    requires k <= |x| && k <= |y| && x[..k] == y[..k]
    ensures forall i :: 0 <= i < k ==> x[i] == y[i]
  {
    assert forall i :: 0 <= i < k ==> x[..k][i] == x[i] && y[..k][i] == y[i];
  }

  lemma PrefixTails(x: Text, y: Text)
    requires x != [] && y != [] && x[0] == y[0]
    ensures x <= y <==> x[1..] <= y[1..]
  {
    if x[1..] <= y[1..] {
      assert x == [x[0]] + x[1..] && y == [y[0]] + y[1..];
      assert x == y[..|x|];
    }
    if x <= y {
      assert x[1..] == y[1..][..|x| - 1];
    }
  }

  lemma SmallerTails(x: Text, y: Text, k: nat)
    requires x != [] && y != [] && x[0] == y[0]
    ensures SmallerAt(x, y, k + 1) <==> SmallerAt(x[1..], y[1..], k)
  {
    if k + 1 <= |x| && k + 1 <= |y| {
      assert x[..k + 1] == [x[0]] + x[1..][..k] && y[..k + 1] == [y[0]] + y[1..][..k];
      if x[..k + 1] == y[..k + 1] {
        assert x[1..][..k] == x[..k + 1][1..] == y[..k + 1][1..] == y[1..][..k];
      }
    }
  }

  lemma {:induction false} LexTotal(x: Text, y: Text)
    ensures LexLe(x, y) || LexLe(y, x)
  {
    if x != [] && y != [] && x[0] == y[0] {
      LexTotal(x[1..], y[1..]);
    }
  }

  lemma {:induction false} LexAntisymmetric(x: Text, y: Text)
    requires LexLe(x, y) && LexLe(y, x)
    ensures x == y
  {
    if x != [] && y != [] {
      LexAntisymmetric(x[1..], y[1..]);
      assert x == [x[0]] + x[1..] && y == [y[0]] + y[1..];
    }
  }

  lemma {:induction false} LexTransitive(x: Text, y: Text, z: Text)
    requires LexLe(x, y) && LexLe(y, z)
    ensures LexLe(x, z)
  {
    if x != [] && y[0] == x[0] == z[0] {
      LexTransitive(x[1..], y[1..], z[1..]);
    }
  }

  // ----- Sequence equalities, stated apart so that they are proved in a small context

  lemma Uncons<T>(p: seq<T>, q: seq<T>)
    requires p != []
    ensures p + q == [p[0]] + (p[1..] + q)
    ensures (p + q)[0] == p[0] && (p + q)[1..] == p[1..] + q
  {}

  lemma SplitSum<T>(s: seq<T>, t: seq<T>, n: nat)
    requires n <= |s|
    ensures s + t == s[..n] + (s[n..] + t)
    ensures (s + t)[n..] == s[n..] + t && (s + t)[..n] == s[..n]
  {}

  lemma Halves<T>(s: seq<T>, n: nat)
    requires n <= |s|
    ensures s[..n] + s[n..] == s
  {}

  lemma SliceSum<T>(s: seq<T>, m: nat, n: nat)
    requires m <= n <= |s|
    ensures s[..n] == s[..m] + s[m..n]
    ensures s[m..] == s[m..n] + s[n..]
  {}

  lemma ConsSlice<T>(s: seq<T>, i: nat, n: nat)
    requires i < n <= |s|
    ensures s[i..n] == [s[i]] + s[i + 1..n]
  {}

  lemma SnocSlice<T>(s: seq<T>, i: nat, n: nat)
    requires i <= n < |s|
    ensures s[i..n + 1] == s[i..n] + [s[n]]
  {}

  lemma DropOne<T>(s: seq<T>, i: nat)
    requires i < |s|
    ensures s[i..][0] == s[i] && s[i..][1..] == s[i + 1..]
  {}

  lemma TakeTake<T>(s: seq<T>, m: nat, n: nat)
    requires m <= n <= |s|
    ensures s[..n][..m] == s[..m] && s[..n][m..] == s[m..n]
  {}

  lemma MoveOne<T>(s: seq<T>, t: seq<T>)
    requires t != []
    ensures s + [t[0]] + t[1..] == s + t
  {}

  lemma Middle<T>(s: seq<T>, i: nat)
    requires i < |s|
    ensures s == s[..i] + [s[i]] + s[i + 1..]
  {}

  lemma SliceEnd<T>(s: seq<T>, t: seq<T>)
    ensures (s + t)[|s|..|s| + |t|] == t
  {}

  lemma DropDrop<T>(s: seq<T>, m: nat, n: nat)
    requires m + n <= |s|
    ensures s[m..][n..] == s[m + n..] && s[m..][..n] == s[m..m + n]
  {}

  lemma Assoc<T>(s: seq<T>, t: seq<T>, u: seq<T>)
    ensures (s + t) + u == s + (t + u)
  {}

  /** A piece moved from what is to come to what is there. */
  lemma Shifted<T>(done: seq<T>, piece: seq<T>, rest: seq<T>, done': seq<T>, todo: seq<T>)
    requires done' == done + piece && todo == piece + rest
    ensures done' + rest == done + todo
  {
    Assoc(done, piece, rest);
  }

  lemma Units<T>(s: seq<T>)
    ensures s + [] == s && [] + s == s
    ensures s[..|s|] == s && s[0..] == s
  {}

  /** The pieces joined in order. */
  function Cat(pieces: seq<Text>): Text {
    if pieces == [] then [] else pieces[0] + Cat(pieces[1..])
  }

  lemma CatCons(piece: Text, pieces: seq<Text>)
    ensures Cat([piece] + pieces) == piece + Cat(pieces)
  {
    assert ([piece] + pieces)[1..] == pieces;
  }

  lemma {:induction false} CatConcat(p: seq<Text>, q: seq<Text>)
    ensures Cat(p + q) == Cat(p) + Cat(q)
  {
    if p == [] {
      assert p + q == q;
    } else {
      Uncons(p, q);
      CatConcat(p[1..], q);
      Assoc(p[0], Cat(p[1..]), Cat(q));
    }
  }
}
