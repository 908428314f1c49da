/** Which of the minimal diffs the table yields (internal/ot/diff.go:38-59, web/client.js:248-259):
    of all that keep as much it keeps the latest units of the old text, and where it replaces text
    it deletes before it inserts. */
module Alignment {
  import opened Texts
  import opened Changesets
  import opened Application
  import opened Cursors
  import opened Merge
  import opened Selection
  import opened Views
  import opened Diff

  // ----- Deletes before inserts

  /** A shorter text shares no more. */
  lemma LcsGrows(o: seq<nat>, w: seq<nat>)
    requires o != []
    ensures Lcs(Front(o), w) <= Lcs(o, w)
  {
    LcsIsLongest(Front(o), w);
    var s :| IsSubseq(s, Front(o)) && IsSubseq(s, w) && |s| == Lcs(Front(o), w);
    assert IsSubseq(s, o);
    LcsBounds(s, o, w);
  }

  predicate DeletesFirst(segs: seq<Seg>) {
    forall k :: 0 < k < |segs| ==> !(segs[k - 1].kind == Ins && segs[k].kind == Del)
  }

  /** Where the walk back deletes, it does not go on with an insert. */
  lemma NoInsertBehind(o: seq<nat>, w: seq<nat>)
    requires o != [] && (w == [] || (Last(o) != Last(w) && Lcs(o, Front(w)) < Lcs(Front(o), w)))
    ensures Script(Front(o), w) == [] || Last(Script(Front(o), w)).kind != Ins
  {
    if w != [] {
      LcsGrows(o, Front(w));
    }
  }

  lemma {:induction false} ScriptDeletesFirst(o: seq<nat>, w: seq<nat>)
    ensures DeletesFirst(Script(o, w))
    decreases |o| + |w|
  {
    if o == [] && w == [] {
    } else if o != [] && w != [] && Last(o) == Last(w) {
      ScriptDeletesFirst(Front(o), Front(w));
    } else if w != [] && (o == [] || Lcs(o, Front(w)) >= Lcs(Front(o), w)) {
      ScriptDeletesFirst(o, Front(w));
    } else {
      ScriptDeletesFirst(Front(o), w);
      NoInsertBehind(o, w);
    }
  }

  predicate DeletesFirstOps(ops: seq<Op>) {
    forall k :: 0 < k < |ops| ==> !(ops[k - 1].Insert? && ops[k].Delete?)
  }

  lemma {:induction false} SegOpsAt(coding: Coding, segs: seq<Seg>, k: nat)
    requires k < |segs|
    ensures |SegOps(coding, segs)| == |segs| && SegOps(coding, segs)[k] == SegOp(coding, segs[k])
  {
    if k > 0 {
      SegOpsAt(coding, segs[1..], k - 1);
    } else if |segs| > 1 {
      SegOpsAt(coding, segs[1..], 0);
    }
  }

  lemma {:induction false} AddAllDeletesFirst(ops: seq<Op>, raw: seq<Op>)
    requires DeletesFirstOps(ops + raw)
    ensures DeletesFirstOps(AddAll(ops, raw))
    decreases |raw|
  {
    if raw == [] {
      Units(ops);
    } else {
      AddOpDeletesFirst(ops, raw);
      AddAllDeletesFirst(AddOp(ops, raw[0]), raw[1..]);
    }
  }

  lemma AddOpDeletesFirst(ops: seq<Op>, raw: seq<Op>)
    requires raw != [] && DeletesFirstOps(ops + raw)
    ensures DeletesFirstOps(AddOp(ops, raw[0]) + raw[1..])
  {
    var all, next := ops + raw, AddOp(ops, raw[0]) + raw[1..];
    var n := |ops|;
    if n > 0 && SameKind(ops[n - 1], raw[0]) {
      forall k | 0 < k < |next|
        ensures !(next[k - 1].Insert? && next[k].Delete?)
      {
        if k < n - 1 {
          assert next[k - 1] == all[k - 1] && next[k] == all[k];
        } else if k == n - 1 {
          assert next[k - 1] == all[k - 1] && all[k] == ops[n - 1];
        } else {
          assert next[k] == all[k + 1] && (k > n ==> next[k - 1] == all[k]) && all[n] == raw[0];
        }
      }
    } else {
      MoveOne(ops, raw);
    }
  }

  /** The merged ops of the diff never insert directly before they delete. */
  lemma DiffDeletesFirst(coding: Coding, o: seq<nat>, w: seq<nat>)
    ensures DeletesFirstOps(DiffOps(coding, o, w))
  {
    var segs := Script(o, w);
    var raw := SegOps(coding, segs);
    ScriptDeletesFirst(o, w);
    if segs != [] {
      forall k | 0 < k < |raw|
        ensures !(raw[k - 1].Insert? && raw[k].Delete?)
      {
        SegOpsAt(coding, segs, 0);
        SegOpsAt(coding, segs, k - 1);
        SegOpsAt(coding, segs, k);
      }
    }
    Units(raw);
    AddAllDeletesFirst([], raw);
  }

  // ----- Alignments

  /** Units of `o`, at the increasing positions `p`, that are the units of `w` at `r`. */
  ghost predicate Aligns(p: seq<nat>, r: seq<nat>, o: seq<nat>, w: seq<nat>) {
    && |p| == |r|
    && (forall m :: 0 <= m < |p| ==> p[m] < |o| && r[m] < |w| && o[p[m]] == w[r[m]])
    && (forall m, n :: 0 <= m < n < |p| ==> p[m] < p[n] && r[m] < r[n])
  }

  function Pick(t: seq<nat>, p: seq<nat>): (s: seq<nat>)
    requires forall m :: 0 <= m < |p| ==> p[m] < |t|
    ensures |s| == |p| && forall m :: 0 <= m < |p| ==> s[m] == t[p[m]]
  {
    seq(|p|, m requires 0 <= m < |p| => t[p[m]])
  }

  lemma {:induction false} PickSubseq(t: seq<nat>, p: seq<nat>)
    requires forall m :: 0 <= m < |p| ==> p[m] < |t|
    requires forall m, n :: 0 <= m < n < |p| ==> p[m] < p[n]
    ensures IsSubseq(Pick(t, p), t)
    decreases |t|
  {
    if p == [] {
      assert Pick(t, p) == [];
    } else {
      assert p[0] < |t|;
      if Last(p) == |t| - 1 {
        PickSubseq(Front(t), Front(p));
        assert Front(Pick(t, p)) == Pick(Front(t), Front(p)) && Last(Pick(t, p)) == Last(t);
      } else {
        assert forall m :: 0 <= m < |p| ==> p[m] <= Last(p);
        PickSubseq(Front(t), p);
        assert Pick(t, p) == Pick(Front(t), p);
      }
    }
  }

  lemma AlignsBound(p: seq<nat>, r: seq<nat>, o: seq<nat>, w: seq<nat>)
    requires Aligns(p, r, o, w)
    ensures |p| <= Lcs(o, w)
  {
    PickSubseq(o, p);
    PickSubseq(w, r);
    assert Pick(o, p) == Pick(w, r);
    LcsBounds(Pick(o, p), o, w);
  }

  lemma LcsInsert(o: seq<nat>, w: seq<nat>)
    requires w != [] && (o == [] || (Last(o) != Last(w) && Lcs(o, Front(w)) >= Lcs(Front(o), w)))
    ensures Lcs(o, w) == Lcs(o, Front(w))
  {}

  lemma LcsDelete(o: seq<nat>, w: seq<nat>)
    requires o != [] && (w == [] || (Last(o) != Last(w) && Lcs(o, Front(w)) < Lcs(Front(o), w)))
    ensures Lcs(o, w) == Lcs(Front(o), w)
  {}

  /** The positions the script keeps, in the old text and in the new one. */
  function OldKept(o: seq<nat>, w: seq<nat>): seq<nat>
    decreases |o| + |w|
  {
    if o == [] && w == [] then []
    else if o != [] && w != [] && Last(o) == Last(w) then OldKept(Front(o), Front(w)) + [|o| - 1]
    else if w != [] && (o == [] || Lcs(o, Front(w)) >= Lcs(Front(o), w)) then OldKept(o, Front(w))
    else OldKept(Front(o), w)
  }

  function NewKept(o: seq<nat>, w: seq<nat>): seq<nat>
    decreases |o| + |w|
  {
    if o == [] && w == [] then []
    else if o != [] && w != [] && Last(o) == Last(w) then NewKept(Front(o), Front(w)) + [|w| - 1]
    else if w != [] && (o == [] || Lcs(o, Front(w)) >= Lcs(Front(o), w)) then NewKept(o, Front(w))
    else NewKept(Front(o), w)
  }

  lemma AlignsMore(p: seq<nat>, r: seq<nat>, o: seq<nat>, w: seq<nat>)
    requires o != [] && w != [] && Last(o) == Last(w) && Aligns(p, r, Front(o), Front(w))
    ensures Aligns(p + [|o| - 1], r + [|w| - 1], o, w)
  {
    forall m | 0 <= m < |p|
      ensures p[m] < |o| - 1 && r[m] < |w| - 1 && o[p[m]] == w[r[m]]
    {
      assert Front(o)[p[m]] == Front(w)[r[m]];
    }
  }

  lemma AlignsFront(p: seq<nat>, r: seq<nat>, o: seq<nat>, w: seq<nat>)
    requires p != [] && Aligns(p, r, o, w)
    ensures o != [] && w != [] && Aligns(Front(p), Front(r), Front(o), Front(w))
  {
    var k := |p| - 1;
    assert o[p[k]] == w[r[k]];
    forall m | 0 <= m < k
      ensures p[m] < |o| - 1 && r[m] < |w| - 1 && Front(o)[p[m]] == Front(w)[r[m]]
    {
      assert p[m] < p[k] && r[m] < r[k];
    }
  }

  lemma AlignsLonger(p: seq<nat>, r: seq<nat>, o: seq<nat>, w: seq<nat>)
    ensures o != [] && Aligns(p, r, Front(o), w) ==> Aligns(p, r, o, w)
    ensures w != [] && Aligns(p, r, o, Front(w)) ==> Aligns(p, r, o, w)
  {
    if o != [] && Aligns(p, r, Front(o), w) {
      assert forall m :: 0 <= m < |p| ==> Front(o)[p[m]] == w[r[m]] && p[m] < |o|;
    }
    if w != [] && Aligns(p, r, o, Front(w)) {
      assert forall m :: 0 <= m < |p| ==> o[p[m]] == Front(w)[r[m]] && r[m] < |w|;
    }
  }

  lemma {:induction false} KeptAligns(o: seq<nat>, w: seq<nat>)
    ensures Aligns(OldKept(o, w), NewKept(o, w), o, w) && |OldKept(o, w)| == Lcs(o, w)
    decreases |o| + |w|
  {
    if o == [] && w == [] {
    } else if o != [] && w != [] && Last(o) == Last(w) {
      KeptAligns(Front(o), Front(w));
      AlignsMore(OldKept(Front(o), Front(w)), NewKept(Front(o), Front(w)), o, w);
    } else if w != [] && (o == [] || Lcs(o, Front(w)) >= Lcs(Front(o), w)) {
      KeptAligns(o, Front(w));
      AlignsLonger(OldKept(o, Front(w)), NewKept(o, Front(w)), o, w);
      LcsInsert(o, w);
    } else {
      KeptAligns(Front(o), w);
      AlignsLonger(OldKept(Front(o), w), NewKept(Front(o), w), o, w);
      LcsDelete(o, w);
    }
  }

  /** The first `i` pairs of one alignment and those of another from `j` on. */
  lemma Splice(p: seq<nat>, r: seq<nat>, q: seq<nat>, f: seq<nat>, i: nat, j: nat, o: seq<nat>, w: seq<nat>)
    requires Aligns(p, r, o, w) && Aligns(q, f, o, w) && i <= |p| && j <= |q|
    requires i > 0 && j < |q| ==> p[i - 1] < q[j] && r[i - 1] < f[j]
    ensures Aligns(p[..i] + q[j..], r[..i] + f[j..], o, w)
  {
    var h, g := p[..i] + q[j..], r[..i] + f[j..];
    forall m, n | 0 <= m < n < |h|
      ensures h[m] < h[n] && g[m] < g[n]
    {
      if m < i <= n {
        assert p[m] <= p[i - 1] && q[j] <= q[j + (n - i)] && r[m] <= r[i - 1] && f[j] <= f[j + (n - i)];
      }
    }
  }

  lemma {:induction false} LastBelow(p: seq<nat>, q: seq<nat>, k: nat) returns (b: nat)
    requires |p| == |q| && k <= |p| && exists m :: 0 <= m < k && q[m] < p[m]
    ensures b < k && q[b] < p[b] && forall m :: b < m < k ==> p[m] <= q[m]
    decreases k
  {
    if q[k - 1] < p[k - 1] {
      b := k - 1;
    } else {
      b := LastBelow(p, q, k - 1);
    }
  }

  /** An alignment of full length that keeps some unit later than another one does mixes with it
      to one that needs the new text no further than that does. */
  lemma Mixes(p: seq<nat>, r: seq<nat>, q: seq<nat>, f: seq<nat>, o: seq<nat>, w: seq<nat>) returns (b: nat)
    requires w != [] && Aligns(p, r, o, w) && Aligns(q, f, o, Front(w))
    requires |p| == |q| == Lcs(o, w) && p != [] && Last(r) == |w| - 1
    requires exists m :: 0 <= m < |p| && q[m] < p[m]
    ensures b + 1 < |p| && q[b] < p[b]
    ensures Aligns(p[..b + 1] + q[b + 1..], r[..b + 1] + f[b + 1..], o, Front(w))
  {
    b := LastBelow(p, q, |p|);
    NotBoth(p, r, q, f, b, o, w);
    assert b + 1 < |p|;
    assert p[b] < p[b + 1] <= q[b + 1] && r[b] <= f[b] < f[b + 1];
    Splice(p, r, q, f, b + 1, b + 1, o, w);
    Shortened(p[..b + 1] + q[b + 1..], r[..b + 1] + f[b + 1..], o, w);
  }

  /** Otherwise the two would join to a longer one. */
  lemma NotBoth(p: seq<nat>, r: seq<nat>, q: seq<nat>, f: seq<nat>, b: nat, o: seq<nat>, w: seq<nat>)
    requires w != [] && Aligns(p, r, o, w) && Aligns(q, f, o, Front(w))
    requires b < |p| == |q| == Lcs(o, w) && q[b] < p[b]
    ensures r[b] <= f[b] && Aligns(q, f, o, w)
  {
    AlignsLonger(q, f, o, w);
    if f[b] < r[b] {
      Splice(q, f, p, r, b + 1, b, o, w);
      AlignsBound(q[..b + 1] + p[b..], f[..b + 1] + r[b..], o, w);
    }
  }

  lemma Shortened(p: seq<nat>, r: seq<nat>, o: seq<nat>, w: seq<nat>)
    requires Aligns(p, r, o, w) && w != [] && (p == [] || Last(r) < |w| - 1)
    ensures Aligns(p, r, o, Front(w))
  {
    assert forall m :: 0 <= m < |p| ==> r[m] <= Last(r);
  }

  lemma ShortenedOld(p: seq<nat>, r: seq<nat>, o: seq<nat>, w: seq<nat>)
    requires Aligns(p, r, o, w) && o != [] && (p == [] || Last(p) < |o| - 1)
    ensures Aligns(p, r, Front(o), w)
  {
    assert forall m :: 0 <= m < |p| ==> p[m] <= Last(p);
  }

  /** Pair by pair, no alignment of full length keeps a later unit of the old text than the
      script does. */
  lemma {:induction false} KeepsLatest(p: seq<nat>, r: seq<nat>, o: seq<nat>, w: seq<nat>)
    requires Aligns(p, r, o, w) && |p| == Lcs(o, w)
    ensures |OldKept(o, w)| == |p| && forall m :: 0 <= m < |p| ==> p[m] <= OldKept(o, w)[m]
    decreases |o| + |w|
  {
    KeptAligns(o, w);
    if o == [] && w == [] {
    } else if o != [] && w != [] && Last(o) == Last(w) {
      AlignsFront(p, r, o, w);
      KeepsLatest(Front(p), Front(r), Front(o), Front(w));
    } else if w != [] && (o == [] || Lcs(o, Front(w)) >= Lcs(Front(o), w)) {
      LatestInsert(p, r, o, w);
    } else {
      LatestDelete(p, r, o, w);
    }
  }

  lemma LastDiffers(p: seq<nat>, r: seq<nat>, o: seq<nat>, w: seq<nat>)
    requires Aligns(p, r, o, w) && p != [] && Last(p) == |o| - 1 && (w == [] || Last(o) != Last(w))
    ensures w != [] && Aligns(p, r, o, Front(w))
  {
    var k := |p| - 1;
    assert o[p[k]] == w[r[k]] && r[k] < |w|;
    Shortened(p, r, o, w);
  }

  lemma LatestDelete(p: seq<nat>, r: seq<nat>, o: seq<nat>, w: seq<nat>)
    requires Aligns(p, r, o, w) && |p| == Lcs(o, w)
    requires o != [] && (w == [] || (Last(o) != Last(w) && Lcs(o, Front(w)) < Lcs(Front(o), w)))
    ensures |OldKept(o, w)| == |p| && forall m :: 0 <= m < |p| ==> p[m] <= OldKept(o, w)[m]
    decreases |o| + |w|, 0
  {
    LcsDelete(o, w);
    if p != [] && Last(p) == |o| - 1 {
      LastDiffers(p, r, o, w);
      AlignsBound(p, r, o, Front(w));
    } else {
      ShortenedOld(p, r, o, w);
      KeepsLatest(p, r, Front(o), w);
    }
  }

  lemma LatestInsert(p: seq<nat>, r: seq<nat>, o: seq<nat>, w: seq<nat>)
    requires Aligns(p, r, o, w) && |p| == Lcs(o, w)
    requires w != [] && (o == [] || (Last(o) != Last(w) && Lcs(o, Front(w)) >= Lcs(Front(o), w)))
    ensures |OldKept(o, w)| == |p| && forall m :: 0 <= m < |p| ==> p[m] <= OldKept(o, w)[m]
    decreases |o| + |w|, 0
  {
    LcsInsert(o, w);
    KeptAligns(o, Front(w));
    if p == [] || Last(r) < |w| - 1 {
      Shortened(p, r, o, w);
      KeepsLatest(p, r, o, Front(w));
    } else if exists m :: 0 <= m < |p| && OldKept(o, Front(w))[m] < p[m] {
      var q, f := OldKept(o, Front(w)), NewKept(o, Front(w));
      var b := Mixes(p, r, q, f, o, w);
      var h, g := p[..b + 1] + q[b + 1..], r[..b + 1] + f[b + 1..];
      assert h[b] == p[b];
      KeepsLatest(h, g, o, Front(w));
    }
  }

  // ----- What the changeset keeps

  /** The source units below `n` that a list of ops keeps. */
  function KeptList(ops: seq<Op>, n: nat): (p: seq<nat>)
    ensures forall m :: 0 <= m < |p| ==> p[m] < n && KeptAt(ops, p[m])
    ensures forall m, k :: 0 <= m < k < |p| ==> p[m] < p[k]
  {
    if n == 0 then [] else KeptList(ops, n - 1) + if KeptAt(ops, n - 1) then [n - 1] else []
  }

  lemma {:induction false} SameKeptList(p: seq<Op>, q: seq<Op>, n: nat)
    requires forall i: nat :: i < n ==> KeptAt(p, i) == KeptAt(q, i)
    ensures KeptList(p, n) == KeptList(q, n)
  {
    if n > 0 {
      SameKeptList(p, q, n - 1);
    }
  }

  /** The script, unit by unit: one more op reads the last unit, or none. */
  lemma {:induction false} ScriptKeptList(o: seq<nat>, w: seq<nat>)
    ensures Consumed(SegOps(CodeUnits, Script(o, w))) == |o|
    ensures KeptList(SegOps(CodeUnits, Script(o, w)), |o|) == OldKept(o, w)
    decreases |o| + |w|
  {
    if o == [] && w == [] {
    } else if o != [] && w != [] && Last(o) == Last(w) {
      ScriptKeptList(Front(o), Front(w));
      KeptListMore(Script(Front(o), Front(w)), Seg(Keep, Last(o)), |o| - 1);
    } else if w != [] && (o == [] || Lcs(o, Front(w)) >= Lcs(Front(o), w)) {
      ScriptKeptList(o, Front(w));
      KeptListMore(Script(o, Front(w)), Seg(Ins, Last(w)), |o|);
    } else {
      ScriptKeptList(Front(o), w);
      KeptListMore(Script(Front(o), w), Seg(Del, Last(o)), |o| - 1);
    }
  }

  lemma KeptListMore(segs: seq<Seg>, seg: Seg, n: nat)
    requires Consumed(SegOps(CodeUnits, segs)) == n
    ensures var ops, next := SegOps(CodeUnits, segs), SegOps(CodeUnits, segs + [seg]);
      var k := if seg.kind == Ins then n else n + 1;
      Consumed(next) == k && KeptList(next, k) == KeptList(ops, n) + if seg.kind == Keep then [n] else []
  {
    var ops, op := SegOps(CodeUnits, segs), SegOp(CodeUnits, seg);
    SegOpsLast(CodeUnits, segs, seg);
    UnitOp(ops, seg);
    KeptListBehind(ops, op);
    KeptListNext(ops + [op], n);
    Units(KeptList(ops, n));
  }

  lemma UnitOp(ops: seq<Op>, seg: Seg)
    ensures var op := SegOp(CodeUnits, seg);
      && (op.Insert? <==> seg.kind == Ins) && (op.Retain? <==> seg.kind == Keep)
      && Consumed(ops + [op]) == Consumed(ops) + if seg.kind == Ins then 0 else 1
  {
    LengthsConcat(ops, [SegOp(CodeUnits, seg)]);
    LengthsSingle(SegOp(CodeUnits, seg));
  }

  lemma KeptListNext(ops: seq<Op>, n: nat)
    ensures KeptList(ops, n + 1) == KeptList(ops, n) + if KeptAt(ops, n) then [n] else []
  {}

  lemma KeptListBehind(ops: seq<Op>, op: Op)
    requires Positive(ops) && PositiveOp(op)
    ensures KeptList(ops + [op], Consumed(ops)) == KeptList(ops, Consumed(ops))
    ensures !op.Insert? ==> KeptAt(ops + [op], Consumed(ops)) == op.Retain?
  {
    var n := Consumed(ops);
    forall i: nat | i < n
      ensures KeptAt(ops + [op], i) == KeptAt(ops, i)
    {
      ViewConcat(ops, [op], i);
    }
    SameKeptList(ops + [op], ops, n);
    ViewConcat(ops, [op], n);
    ViewOne(op, 0);
  }

  lemma DiffKeptList(o: seq<nat>, w: seq<nat>)
    ensures KeptList(BrowserDiff(o, w).ops, |o|) == OldKept(o, w)
  {
    var raw := SegOps(CodeUnits, Script(o, w));
    ScriptKeptList(o, w);
    Units(raw);
    AddAllView([], raw);
    SameKeptList(BrowserDiff(o, w).ops, raw, |o|);
  }

  lemma LandsApart(o: Text, ops: seq<Op>, i: nat, j: nat)
    requires Positive(ops) && Consumed(ops) == |o| && i < j && i < |o| && KeptAt(ops, i)
    ensures Landing(ops, i) < Landing(ops, j)
  {
    LandsOnSameUnit(o, ops, i);
    LandsInOrder(ops, i + 1, j);
  }

  function Landings(ops: seq<Op>, p: seq<nat>): (r: seq<nat>)
    requires Positive(ops)
    ensures |r| == |p| && forall m :: 0 <= m < |p| ==> r[m] == Landing(ops, p[m])
  {
    seq(|p|, m requires 0 <= m < |p| => Landing(ops, p[m]))
  }

  /** What any changeset keeps is an alignment of the text before and the text after. */
  lemma KeptListAligns(o: Text, ops: seq<Op>, w: Text)
    requires Positive(ops) && Consumed(ops) == |o| && Run(o, ops) == w
    ensures Aligns(KeptList(ops, |o|), Landings(ops, KeptList(ops, |o|)), o, w)
  {
    var p := KeptList(ops, |o|);
    var r := Landings(ops, p);
    forall m | 0 <= m < |p|
      ensures r[m] < |w| && o[p[m]] == w[r[m]]
    {
      LandsOnSameUnit(o, ops, p[m]);
    }
    forall m, n | 0 <= m < n < |p|
      ensures p[m] < p[n] && r[m] < r[n]
    {
      LandsApart(o, ops, p[m], p[n]);
    }
  }

  /** Of all changesets from one text to another that keep as many units as the diff, none keeps a
      later unit: counted from the first, each unit the diff keeps stands no earlier in the old
      text than the one the other changeset keeps in its place. */
  lemma DiffKeepsLatest(o: seq<nat>, w: seq<nat>, c: Changeset)
    requires Valid(c) && c.oldLen == |o| && Run(o, c.ops) == w
    ensures var mine, theirs := KeptList(BrowserDiff(o, w).ops, |o|), KeptList(c.ops, |o|);
      && |theirs| <= |mine|
      && (|theirs| == |mine| ==> forall m :: 0 <= m < |mine| ==> theirs[m] <= mine[m])
  {
    var p := KeptList(c.ops, |o|);
    var r := Landings(c.ops, p);
    KeptListAligns(o, c.ops, w);
    AlignsBound(p, r, o, w);
    KeptAligns(o, w);
    DiffKeptList(o, w);
    if |p| == Lcs(o, w) {
      KeepsLatest(p, r, o, w);
    }
  }
}
