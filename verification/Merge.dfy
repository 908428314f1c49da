/** What a merge of two concurrent changesets is, said without cursors: gap by gap of the
    source document. The promise of internal/ot/follow.go:8 is stated against it. */
module Merge {
  import opened Texts
  import opened Changesets
  import opened Application
  import opened Cursors
  import opened Follow

  /** The texts a changeset inserts just before source unit `i` (or at the end). */
  function GapAt(ops: seq<Op>, i: int): seq<Text> {
    if ops == [] then []
    else match ops[0]
      case Insert(s) => if i == 0 then [s] + GapAt(ops[1..], 0) else GapAt(ops[1..], i)
      case Retain(n) => if i < n then [] else GapAt(ops[1..], i - n)
      case Delete(n) => if i < n then [] else GapAt(ops[1..], i - n)
      case Unknown(_) => []
  }

  /** Whether a changeset retains source unit `i`. */
  predicate KeptAt(ops: seq<Op>, i: int) {
    if ops == [] then false
    else match ops[0]
      case Insert(_) => KeptAt(ops[1..], i)
      case Retain(n) => i < n || KeptAt(ops[1..], i - n)
      case Delete(n) => i >= n && KeptAt(ops[1..], i - n)
      case Unknown(_) => false
  }

  /** Two lists of texts for one gap, merged the way the tie-breaker does: the smaller first
      text goes first, that of `s` on a tie. */
  function TieMerge(s: seq<Text>, t: seq<Text>): seq<Text> {
    if s == [] then t
    else if t == [] then s
    else if LexLe(s[0], t[0]) then [s[0]] + TieMerge(s[1..], t)
    else [t[0]] + TieMerge(s, t[1..])
  }

  function MergedGap(a: seq<Op>, b: seq<Op>, i: nat): Text {
    Cat(TieMerge(GapAt(a, i), GapAt(b, i)))
  }

  function MergedUnit(doc: Text, a: seq<Op>, b: seq<Op>, i: nat): Text
    requires i < |doc|
  {
    if KeptAt(a, i) && KeptAt(b, i) then [doc[i]] else []
  }

  /** The merged document from gap `i` on: at each gap both sides' texts, then the source
      unit if both sides keep it. */
  function MergedFrom(doc: Text, a: seq<Op>, b: seq<Op>, i: nat): Text
    requires i <= |doc|
    decreases |doc| - i, 1
  {
    MergedGap(a, b, i) + MergedPast(doc, a, b, i)
  }

  /** The same, past the texts of gap `i`. */
  function MergedPast(doc: Text, a: seq<Op>, b: seq<Op>, i: nat): Text
    requires i <= |doc|
    decreases |doc| - i, 0
  {
    if i == |doc| then [] else MergedUnit(doc, a, b, i) + MergedFrom(doc, a, b, i + 1)
  }

  // ----- Moving inside the two lists

  lemma GapHead(ops: seq<Op>)
    requires Positive(ops)
    ensures ops == [] || !ops[0].Insert? ==> GapAt(ops, 0) == []
  {}

  lemma GapShift(ops: seq<Op>, n: nat, i: nat)
    requires Positive(ops) && ops != [] && !ops[0].Insert? && 0 < n <= OpLen(ops[0])
    ensures GapAt(ops, i + n) == GapAt(After(ops, n), i)
    ensures KeptAt(ops, i + n) == KeptAt(After(ops, n), i)
    ensures i < n ==> GapAt(ops, i) == [] && KeptAt(ops, i) == ops[0].Retain?
  {
    if n < OpLen(ops[0]) {
      assert After(ops, n)[1..] == ops[1..];
    }
  }

  /** The first `n` units of both lists lie inside one op that does not insert. */
  ghost predicate Aligned(a: seq<Op>, b: seq<Op>, n: nat) {
    && Positive(a) && a != [] && !a[0].Insert? && 0 < n <= OpLen(a[0])
    && Positive(b) && b != [] && !b[0].Insert? && n <= OpLen(b[0])
  }

  lemma PiecesShift(doc: Text, a: seq<Op>, b: seq<Op>, n: nat, i: nat)
    requires Aligned(a, b, n) && i + n <= |doc|
    ensures MergedGap(a, b, i + n) == MergedGap(After(a, n), After(b, n), i)
    ensures i + n < |doc| ==> MergedUnit(doc, a, b, i + n) == MergedUnit(doc[n..], After(a, n), After(b, n), i)
  {
    GapShift(a, n, i);
    GapShift(b, n, i);
  }

  lemma PiecesBlank(doc: Text, a: seq<Op>, b: seq<Op>, n: nat, i: nat)
    requires Aligned(a, b, n) && i < n <= |doc|
    ensures MergedGap(a, b, i) == []
    ensures MergedUnit(doc, a, b, i) == if a[0].Retain? && b[0].Retain? then [doc[i]] else []
  {
    GapShift(a, n, i);
    GapShift(b, n, i);
  }

  lemma {:induction false} MergedShift(doc: Text, a: seq<Op>, b: seq<Op>, n: nat, i: nat)
    requires Aligned(a, b, n) && i + n <= |doc|
    ensures MergedFrom(doc, a, b, i + n) == MergedFrom(doc[n..], After(a, n), After(b, n), i)
    decreases |doc| - i
  {
    var doc', a', b' := doc[n..], After(a, n), After(b, n);
    PiecesShift(doc, a, b, n, i);
    if i + n < |doc| {
      MergedShift(doc, a, b, n, i + 1);
      assert MergedFrom(doc, a, b, i + n + 1) == MergedFrom(doc', a', b', i + 1);
    }
    SamePieces(doc, a, b, i + n, doc', a', b', i);
  }

  /** Two merged documents with the same next gap, the same next unit and the same rest. */
  lemma SamePieces(doc: Text, a: seq<Op>, b: seq<Op>, i: nat, doc': Text, a': seq<Op>, b': seq<Op>, i': nat)
    requires i <= |doc| && i' <= |doc'| && (i == |doc| <==> i' == |doc'|)
    requires MergedGap(a, b, i) == MergedGap(a', b', i')
    requires i < |doc| ==> MergedUnit(doc, a, b, i) == MergedUnit(doc', a', b', i')
    requires i < |doc| ==> MergedFrom(doc, a, b, i + 1) == MergedFrom(doc', a', b', i' + 1)
    ensures MergedFrom(doc, a, b, i) == MergedFrom(doc', a', b', i')
  {}

  lemma {:induction false} MergedBlock(doc: Text, a: seq<Op>, b: seq<Op>, n: nat, i: nat)
    requires Aligned(a, b, n) && i <= n <= |doc|
    ensures MergedFrom(doc, a, b, i) ==
      (if a[0].Retain? && b[0].Retain? then doc[i..n] else []) + MergedFrom(doc, a, b, n)
    decreases n - i
  {
    if i < n {
      ConsSlice(doc, i, n);
      MergedBlock(doc, a, b, n, i + 1);
      PiecesBlank(doc, a, b, n, i);
      Assoc([doc[i]], doc[i + 1..n], MergedFrom(doc, a, b, n));
    }
  }

  lemma {:induction false} PastTail(doc: Text, a: seq<Op>, b: seq<Op>, i: nat)
    requires i <= |doc|
    ensures a != [] && a[0].Insert? ==> MergedPast(doc, a, b, i) == MergedPast(doc, a[1..], b, i)
    ensures b != [] && b[0].Insert? ==> MergedPast(doc, a, b, i) == MergedPast(doc, a, b[1..], i)
    decreases |doc| - i
  {
    if i < |doc| {
      PastTail(doc, a, b, i + 1);
    }
  }

  lemma TakeLeft(x: Text, s: seq<Text>, t: seq<Text>)
    requires t == [] || LexLe(x, t[0])
    ensures Cat(TieMerge([x] + s, t)) == x + Cat(TieMerge(s, t))
  {
    assert ([x] + s)[1..] == s;
  }

  lemma TakeRight(s: seq<Text>, y: Text, t: seq<Text>)
    requires s == [] || !LexLe(s[0], y)
    ensures Cat(TieMerge(s, [y] + t)) == y + Cat(TieMerge(s, t))
  {
    assert ([y] + t)[1..] == t;
  }

  /** Taking `A`'s text at the current gap. */
  lemma MergedTakeA(doc: Text, a: seq<Op>, b: seq<Op>)
    requires Positive(a) && Positive(b) && a != [] && a[0].Insert?
    requires b == [] || !b[0].Insert? || LexLe(a[0].chars, b[0].chars)
    ensures MergedFrom(doc, a, b, 0) == a[0].chars + MergedFrom(doc, a[1..], b, 0)
  {
    GapHead(b);
    TakeLeft(a[0].chars, GapAt(a[1..], 0), GapAt(b, 0));
    PastTail(doc, a, b, 0);
    Assoc(a[0].chars, MergedGap(a[1..], b, 0), MergedPast(doc, a, b, 0));
  }

  /** Taking `B`'s text at the current gap. */
  lemma MergedTakeB(doc: Text, a: seq<Op>, b: seq<Op>)
    requires Positive(a) && Positive(b) && b != [] && b[0].Insert?
    requires a == [] || !a[0].Insert? || !LexLe(a[0].chars, b[0].chars)
    ensures MergedFrom(doc, a, b, 0) == b[0].chars + MergedFrom(doc, a, b[1..], 0)
  {
    GapHead(a);
    TakeRight(GapAt(a, 0), b[0].chars, GapAt(b[1..], 0));
    PastTail(doc, a, b, 0);
    Assoc(b[0].chars, MergedGap(a, b[1..], 0), MergedPast(doc, a, b, 0));
  }

  // ----- Follow computes the merge

  /** Applying `A` and then `B` rebased over it yields the merged document, for any two
      changesets of one document, merged form or not. */
  lemma {:induction false} RawFollowMerges(doc: Text, a: seq<Op>, b: seq<Op>)
    requires Positive(a) && Positive(b) && Consumed(a) == |doc| == Consumed(b)
    ensures |Run(doc, a)| == Produced(a) == Consumed(RawFollow(a, b))
    ensures Run(Run(doc, a), RawFollow(a, b)) == MergedFrom(doc, a, b, 0)
    decreases |a| + |b|
  {
    RunLength(doc, a);
    if a != [] && a[0].Insert? && (b == [] || !b[0].Insert? || LexLe(a[0].chars, b[0].chars)) {
      var x := a[0].chars;
      RawFollowMerges(doc, a[1..], b);
      MergedTakeA(doc, a, b);
      RunCons(x, Run(doc, a[1..]), Retain(|x|), RawFollow(a[1..], b));
    } else if b != [] && b[0].Insert? {
      RawFollowMerges(doc, a, b[1..]);
      MergedTakeB(doc, a, b);
      RunCons([], Run(doc, a), b[0], RawFollow(a, b[1..]));
      Units(Run(doc, a));
    } else if a != [] && b != [] {
      var n := Min(a[0].len, b[0].len);
      RunAfter(doc, a, n);
      RunAfter(doc, b, n);
      RawFollowMerges(doc[n..], After(a, n), After(b, n));
      OverlapMerges(doc, a, b, n);
    }
  }

  lemma OverlapMerges(doc: Text, a: seq<Op>, b: seq<Op>, n: nat)
    requires Aligned(a, b, n) && n == Min(a[0].len, b[0].len) && n <= |doc|
    requires Consumed(a) == |doc| && Consumed(After(a, n)) == |doc| - n
    requires Consumed(RawFollow(After(a, n), After(b, n))) == |Run(doc[n..], After(a, n))|
    requires Run(Run(doc[n..], After(a, n)), RawFollow(After(a, n), After(b, n)))
          == MergedFrom(doc[n..], After(a, n), After(b, n), 0)
    ensures |Run(doc, a)| == Consumed(RawFollow(a, b))
    ensures Run(Run(doc, a), RawFollow(a, b)) == MergedFrom(doc, a, b, 0)
  {
    var rest, raw := Run(doc[n..], After(a, n)), RawFollow(After(a, n), After(b, n));
    RunAfter(doc, a, n);
    MergedOverlap(doc, a, b, n);
    OverlapRuns(doc[..n], rest, a[0], b[0], raw);
    assert Run(doc, a) == (if a[0].Retain? then doc[..n] else []) + rest;
  }

  lemma MergedOverlap(doc: Text, a: seq<Op>, b: seq<Op>, n: nat)
    requires Aligned(a, b, n) && n <= |doc|
    ensures MergedFrom(doc, a, b, 0) ==
      (if a[0].Retain? && b[0].Retain? then doc[..n] else []) + MergedFrom(doc[n..], After(a, n), After(b, n), 0)
  {
    MergedBlock(doc, a, b, n, 0);
    MergedShift(doc, a, b, n, 0);
  }

  lemma OverlapRuns(s: Text, t: Text, x: Op, y: Op, raw: seq<Op>)
    requires s != [] && (x.Retain? || x.Delete?) && (y.Retain? || y.Delete?)
    requires Positive(raw) && Consumed(raw) == |t|
    ensures var kept := if x.Retain? then s else [];
      && Positive(Overlap(x, y, |s|) + raw) && Consumed(Overlap(x, y, |s|) + raw) == |kept + t|
      && Run(kept + t, Overlap(x, y, |s|) + raw) == (if x.Retain? && y.Retain? then s else []) + Run(t, raw)
  {
    Units(t);
    Units(raw);
    if x.Retain? {
      RunCons(s, t, if y.Retain? then Retain(|s|) else Delete(|s|), raw);
    }
  }

  // ----- The diamond

  /** One side of the diamond, on texts. */
  lemma FollowMerges(doc: Text, A: Changeset, B: Changeset)
    requires Valid(A) && Valid(B) && A.oldLen == B.oldLen == |doc|
    ensures var F := Rebased(A, B);
      && Normal(F) && F.oldLen == A.newLen == |Run(doc, A.ops)|
      && Run(Run(doc, A.ops), F.ops) == MergedFrom(doc, A.ops, B.ops, 0)
  {
    RawFollowMerges(doc, A.ops, B.ops);
    MergedMeaning(RawFollow(A.ops, B.ops));
  }

  /** `A` and then `B` rebased over it, and `B` and then `A` rebased over it, give one text. */
  ghost predicate Diamond(doc: Text, A: Changeset, B: Changeset)
    requires Valid(A) && Valid(B) && A.oldLen == B.oldLen == |doc|
  {
    FollowMerges(doc, A, B);
    FollowMerges(doc, B, A);
    Run(Run(doc, A.ops), Rebased(A, B).ops) == Run(Run(doc, B.ops), Rebased(B, A).ops)
  }

  /** How many of the leading texts are at most `x`. */
  function RunUpTo(s: seq<Text>, x: Text): (n: nat)
    ensures n <= |s|
    ensures n < |s| ==> !LexLe(s[n], x)
    ensures forall i :: 0 <= i < n ==> LexLe(s[i], x)
  {
    if s == [] || !LexLe(s[0], x) then 0 else 1 + RunUpTo(s[1..], x)
  }

  /** The condition on the texts two sides put into one gap. Where both offer the same text
      `x`, the side that yields the tie waits while the other goes on with the texts `p` (or
      `q`) that follow and are at most `x`; the two orders are then p x q and q x p. */
  predicate TieSafe(s: seq<Text>, t: seq<Text>)
    decreases |s| + |t|
  {
    if s == [] || t == [] then true
    else if s[0] == t[0] then
      var x := s[0];
      var m, n := RunUpTo(s[1..], x), RunUpTo(t[1..], x);
      var p, q := s[1..][..m], t[1..][..n];
      && Cat(p) + x + Cat(q) == Cat(q) + x + Cat(p)
      && TieSafe(s[1..][m..], t[1..][n..])
    else if LexLe(s[0], t[0]) then TieSafe(s[1..], t)
    else TieSafe(s, t[1..])
  }

  lemma {:induction false} MergeRunLeft(p: seq<Text>, s: seq<Text>, x: Text, t: seq<Text>)
    requires forall i :: 0 <= i < |p| ==> LexLe(p[i], x)
    requires s == [] || !LexLe(s[0], x)
    ensures Cat(TieMerge(p + s, [x] + t)) == Cat(p) + x + Cat(TieMerge(s, t))
    decreases |p|
  {
    if p == [] {
      Units(s);
      TakeRight(s, x, t);
      Units(x);
    } else {
      Uncons(p, s);
      TakeLeft(p[0], p[1..] + s, [x] + t);
      MergeRunLeft(p[1..], s, x, t);
      Assoc(p[0], Cat(p[1..]), x);
      Assoc(p[0], Cat(p[1..]) + x, Cat(TieMerge(s, t)));
    }
  }

  lemma {:induction false} MergeRunRight(s: seq<Text>, q: seq<Text>, x: Text, t: seq<Text>)
    requires forall i :: 0 <= i < |q| ==> LexLe(q[i], x)
    requires s == [] || !LexLe(s[0], x)
    ensures Cat(TieMerge(s, q + t)) == Cat(q) + Cat(TieMerge(s, t))
    decreases |q|
  {
    if q == [] {
      Units(t);
    } else {
      Uncons(q, t);
      if s != [] && LexLe(s[0], q[0]) {
        LexTransitive(s[0], q[0], x);
      }
      TakeRight(s, q[0], q[1..] + t);
      MergeRunRight(s, q[1..], x, t);
      Assoc(q[0], Cat(q[1..]), Cat(TieMerge(s, t)));
    }
  }

  /** One tie, followed from the side that `TieMerge` favours. */
  lemma TieUnrolls(x: Text, p: seq<Text>, s: seq<Text>, q: seq<Text>, t: seq<Text>)
    requires forall i :: 0 <= i < |p| ==> LexLe(p[i], x)
    requires forall i :: 0 <= i < |q| ==> LexLe(q[i], x)
    requires s == [] || !LexLe(s[0], x)
    ensures Cat(TieMerge([x] + (p + s), [x] + (q + t))) == x + ((Cat(p) + x + Cat(q)) + Cat(TieMerge(s, t)))
  {
    LexTotal(x, x);
    TakeLeft(x, p + s, [x] + (q + t));
    MergeRunLeft(p, s, x, q + t);
    MergeRunRight(s, q, x, t);
    Assoc(Cat(p) + x, Cat(q), Cat(TieMerge(s, t)));
  }

  lemma {:induction false} TieMergeLength(s: seq<Text>, t: seq<Text>)
    ensures |Cat(TieMerge(s, t))| == |Cat(s)| + |Cat(t)|
    decreases |s| + |t|
  {
    if s != [] && t != [] {
      if LexLe(s[0], t[0]) { TieMergeLength(s[1..], t); } else { TieMergeLength(s, t[1..]); }
    }
  }

  lemma SameFront(p: Text, q: Text, s: Text, t: Text)
    requires |p| == |q|
    ensures p + s == q + t <==> p == q && s == t
  {
    if p + s == q + t {
      assert p == (p + s)[..|p|] && q == (q + t)[..|q|];
      assert s == (p + s)[|p|..] && t == (q + t)[|q|..];
    }
  }

  /** The two merges of one gap give one text exactly when the gap is tie-safe. */
  lemma {:induction false} TieExact(s: seq<Text>, t: seq<Text>)
    ensures Cat(TieMerge(s, t)) == Cat(TieMerge(t, s)) <==> TieSafe(s, t)
    decreases |s| + |t|
  {
    if s == [] || t == [] {
    } else if s[0] == t[0] {
      var x := s[0];
      var m, n := RunUpTo(s[1..], x), RunUpTo(t[1..], x);
      TieExact(s[1..][m..], t[1..][n..]);
      Regroup(s, m);
      Regroup(t, n);
      TieExactTie(x, s[1..][..m], s[1..][m..], t[1..][..n], t[1..][n..]);
    } else if LexLe(s[0], t[0]) {
      TieExactStep(s, t);
      TieExact(s[1..], t);
    } else {
      LexTotal(s[0], t[0]);
      TieExactStep(t, s);
      TieExact(s, t[1..]);
    }
  }

  lemma Regroup(s: seq<Text>, m: nat)
    requires s != [] && m <= |s[1..]|
    ensures s == [s[0]] + (s[1..][..m] + s[1..][m..])
  {}

  lemma TieExactTie(x: Text, p: seq<Text>, s: seq<Text>, q: seq<Text>, t: seq<Text>)
    requires forall i :: 0 <= i < |p| ==> LexLe(p[i], x)
    requires forall i :: 0 <= i < |q| ==> LexLe(q[i], x)
    requires (s == [] || !LexLe(s[0], x)) && (t == [] || !LexLe(t[0], x))
    ensures var l, r := [x] + (p + s), [x] + (q + t);
      Cat(TieMerge(l, r)) == Cat(TieMerge(r, l)) <==>
        Cat(p) + x + Cat(q) == Cat(q) + x + Cat(p) && Cat(TieMerge(s, t)) == Cat(TieMerge(t, s))
  {
    TieUnrolls(x, p, s, q, t);
    TieUnrolls(x, q, t, p, s);
    var l, r := Cat(p) + x + Cat(q), Cat(q) + x + Cat(p);
    SameFront(x, x, l + Cat(TieMerge(s, t)), r + Cat(TieMerge(t, s)));
    SwapLength(Cat(p), x, Cat(q));
    SameFront(l, r, Cat(TieMerge(s, t)), Cat(TieMerge(t, s)));
  }

  lemma SwapLength(p: Text, x: Text, q: Text)
    ensures |p + x + q| == |q + x + p|
  {}

  lemma TieExactStep(s: seq<Text>, t: seq<Text>)
    requires s != [] && t != [] && s[0] != t[0] && LexLe(s[0], t[0])
    ensures Cat(TieMerge(s, t)) == Cat(TieMerge(t, s)) <==> Cat(TieMerge(s[1..], t)) == Cat(TieMerge(t, s[1..]))
  {
    if LexLe(t[0], s[0]) {
      LexAntisymmetric(s[0], t[0]);
    }
    Halves(s, 1);
    TakeLeft(s[0], s[1..], t);
    TakeRight(t, s[0], s[1..]);
    SameFront(s[0], s[0], Cat(TieMerge(s[1..], t)), Cat(TieMerge(t, s[1..])));
  }

  /** Every gap from `i` on is tie-safe. */
  ghost predicate TieSafeFrom(a: seq<Op>, b: seq<Op>, i: nat, n: nat) {
    forall j :: i <= j <= n ==> TieSafe(GapAt(a, j), GapAt(b, j))
  }

  lemma {:induction false} MergedExact(doc: Text, a: seq<Op>, b: seq<Op>, i: nat)
    requires i <= |doc|
    ensures |MergedFrom(doc, a, b, i)| == |MergedFrom(doc, b, a, i)|
    ensures MergedFrom(doc, a, b, i) == MergedFrom(doc, b, a, i) <==> TieSafeFrom(a, b, i, |doc|)
    decreases |doc| - i
  {
    TieExact(GapAt(a, i), GapAt(b, i));
    TieMergeLength(GapAt(a, i), GapAt(b, i));
    TieMergeLength(GapAt(b, i), GapAt(a, i));
    SameFront(MergedGap(a, b, i), MergedGap(b, a, i), MergedPast(doc, a, b, i), MergedPast(doc, b, a, i));
    if i < |doc| {
      MergedExact(doc, a, b, i + 1);
      SameFront(MergedUnit(doc, a, b, i), MergedUnit(doc, b, a, i),
        MergedFrom(doc, a, b, i + 1), MergedFrom(doc, b, a, i + 1));
    }
  }

  /** The exact condition under which the promise of `Follow` holds, for every pair of valid
      changesets of one document: at every gap both sides' texts are tie-safe. The rebased
      forms have one resulting length in any case. */
  lemma DiamondExact(doc: Text, A: Changeset, B: Changeset)
    requires Valid(A) && Valid(B) && A.oldLen == B.oldLen == |doc|
    ensures Diamond(doc, A, B) <==> TieSafeFrom(A.ops, B.ops, 0, |doc|)
    ensures Rebased(A, B).newLen == Rebased(B, A).newLen
  {
    FollowMerges(doc, A, B);
    FollowMerges(doc, B, A);
    MergedExact(doc, A.ops, B.ops, 0);
    RunLength(Run(doc, A.ops), Rebased(A, B).ops);
    RunLength(Run(doc, B.ops), Rebased(B, A).ops);
  }

  lemma {:induction false} CanonicalGap(ops: seq<Op>, i: nat)
    requires Canonical(ops)
    ensures |GapAt(ops, i)| <= 1
    ensures ops != [] && !ops[0].Insert? && i == 0 ==> GapAt(ops, i) == []
    decreases |ops|
  {
    if ops != [] {
      assert forall k :: 0 < k < |ops[1..]| ==> ops[1..][k] == ops[k + 1] && ops[1..][k - 1] == ops[k];
      match ops[0]
      case Insert(_) =>
        assert |ops| > 1 ==> !SameKind(ops[0], ops[1]);
        CanonicalGap(ops[1..], i);
      case Retain(n) => if i >= n { CanonicalGap(ops[1..], i - n); }
      case Delete(n) => if i >= n { CanonicalGap(ops[1..], i - n); }
    }
  }

  /** Changesets in merged form always meet the condition, equal texts at one position
      included. */
  lemma DiamondCanonical(doc: Text, A: Changeset, B: Changeset)
    requires Normal(A) && Normal(B) && A.oldLen == B.oldLen == |doc|
    ensures Diamond(doc, A, B)
  {
    forall j | 0 <= j <= |doc|
      ensures TieSafe(GapAt(A.ops, j), GapAt(B.ops, j))
    {
      CanonicalGap(A.ops, j);
      CanonicalGap(B.ops, j);
      SingleTieSafe(GapAt(A.ops, j), GapAt(B.ops, j));
    }
    DiamondExact(doc, A, B);
  }

  lemma SingleTieSafe(s: seq<Text>, t: seq<Text>)
    requires |s| <= 1 && |t| <= 1
    ensures TieSafe(s, t)
  {
    if s != [] && t != [] {
      assert s[1..] == [] && t[1..] == [];
    }
  }

  /** Without merged form the promise fails: on the empty document, the texts "b" and "a"
      inserted as two ops against "b" give "bab" one way and "bba" the other. */
  lemma DiamondFailsUnmerged(A: Changeset, B: Changeset)
    requires A == Changeset(0, 2, [Insert([98]), Insert([97])]) && B == Changeset(0, 1, [Insert([98])])
    ensures Valid(A) && Valid(B) && !Diamond([], A, B)
    ensures MergedFrom([], A.ops, B.ops, 0) == [98, 97, 98] && MergedFrom([], B.ops, A.ops, 0) == [98, 98, 97]
  {
    UnmergedGaps(A.ops, B.ops);
    UnmergedMerges(A.ops, B.ops);
    assert MergedFrom([], A.ops, B.ops, 0)[1] != MergedFrom([], B.ops, A.ops, 0)[1];
    MergedExact([], A.ops, B.ops, 0);
    DiamondExact([], A, B);
  }

  lemma UnmergedMerges(a: seq<Op>, b: seq<Op>)
    requires GapAt(a, 0) == [[98], [97]] && GapAt(b, 0) == [[98]]
    ensures MergedFrom([], a, b, 0) == [98, 97, 98] && MergedFrom([], b, a, 0) == [98, 98, 97]
  {
    UnmergedTexts(GapAt(a, 0), GapAt(b, 0));
    Units(MergedGap(a, b, 0));
    Units(MergedGap(b, a, 0));
  }

  lemma UnmergedGaps(a: seq<Op>, b: seq<Op>)
    requires a == [Insert([98]), Insert([97])] && b == [Insert([98])]
    ensures GapAt(a, 0) == [[98], [97]] && GapAt(b, 0) == [[98]]
    ensures Consumed(a) == Consumed(b) == 0 && Produced(a) == 2 && Produced(b) == 1
  {
    var c := a[1..];
    assert c == [Insert([97])] && c[1..] == [] && b[1..] == [];
    assert GapAt(c, 0) == [[97]] + GapAt([], 0) == [[97]];
    assert Produced(c) == 1 + Produced([]) == 1;
  }

  lemma UnmergedTexts(s: seq<Text>, t: seq<Text>)
    requires s == [[98], [97]] && t == [[98]]
    ensures Cat(TieMerge(s, t)) == [98, 97, 98] && Cat(TieMerge(t, s)) == [98, 98, 97]
  {
    assert s == [[98]] + [[97]] && t == [[98]] + [] && [[97]] == [[97]] + [];
    TakeLeft([98], [[97]], t);
    TakeLeft([97], [], t);
    TakeLeft([98], [], s);
    assert Cat(t) == [98] + Cat([]) == [98];
    assert Cat(s) == [98] + Cat([[97]]) && Cat([[97]]) == [97] + Cat([]) == [97];
  }

  // ----- Conservation

  /** `u` holds exactly the texts of `s` and of `t`, each side's in its own order. */
  ghost predicate Interleaves(u: seq<Text>, s: seq<Text>, t: seq<Text>)
    decreases |u|
  {
    if u == [] then s == [] && t == []
    else
      || (s != [] && s[0] == u[0] && Interleaves(u[1..], s[1..], t))
      || (t != [] && t[0] == u[0] && Interleaves(u[1..], s, t[1..]))
  }

  lemma {:induction false} InterleavesLeft(s: seq<Text>)
    ensures Interleaves(s, s, [])
    ensures Interleaves(s, [], s)
  {
    if s != [] { InterleavesLeft(s[1..]); }
  }

  /** At every gap the merged document holds all texts of both sides, none twice. */
  lemma {:induction false} TieMergeInterleaves(s: seq<Text>, t: seq<Text>)
    ensures Interleaves(TieMerge(s, t), s, t)
    decreases |s| + |t|
  {
    if s == [] || t == [] {
      InterleavesLeft(if s == [] then t else s);
    } else if LexLe(s[0], t[0]) {
      TieMergeInterleaves(s[1..], t);
      assert TieMerge(s, t)[1..] == TieMerge(s[1..], t);
    } else {
      TieMergeInterleaves(s, t[1..]);
      assert TieMerge(s, t)[1..] == TieMerge(s, t[1..]);
    }
  }
}
