/** Rebasing one changeset over another (internal/ot/follow.go, web/client.js:150-232). */
module Follow {
  import opened Texts
  import opened Changesets
  import opened Cursors

  /** The ops emitted, before merging, from what is left of both lists. */
  function RawFollow(a: seq<Op>, b: seq<Op>): (raw: seq<Op>)
    requires Positive(a) && Positive(b)
    ensures Positive(raw)
    decreases |a| + |b|
  {
    if a != [] && a[0].Insert? && b != [] && b[0].Insert? then
      if LexLe(a[0].chars, b[0].chars)
      then [Retain(|a[0].chars|)] + RawFollow(a[1..], b)
      else [b[0]] + RawFollow(a, b[1..])
    else if a != [] && a[0].Insert? then [Retain(|a[0].chars|)] + RawFollow(a[1..], b)
    else if b != [] && b[0].Insert? then [b[0]] + RawFollow(a, b[1..])
    else if a == [] || b == [] then []
    else
      var n := Min(a[0].len, b[0].len);
      Overlap(a[0], b[0], n) + RawFollow(After(a, n), After(b, n))
  }

  /** What `B'` does with `n` source units on which neither side inserts. */
  function Overlap(x: Op, y: Op, n: int): seq<Op> {
    if x.Retain? && y.Retain? then [Retain(n)]
    else if x.Retain? && y.Delete? then [Delete(n)]
    else []
  }

  /** `B'`, that is `B` rebased over `A`. */
  function Rebased(A: Changeset, B: Changeset): Changeset
    requires Positive(A.ops) && Positive(B.ops)
  {
    var ops := Merged(RawFollow(A.ops, B.ops));
    Changeset(A.newLen, Produced(ops), ops)
  }

  /** The cursor loop. Positive lengths are what keeps it moving; equal old lengths are not
      needed to terminate: on a mismatch the loop leaves early. */
  method Follow(A: Changeset, B: Changeset) returns (r: Changeset)
    requires Positive(A.ops) && Positive(B.ops)
    ensures r == Rebased(A, B)
  {
    var result := new OpBuilder();
    var aSlice := new OpSlice(A.ops);
    var bSlice := new OpSlice(B.ops);
    ghost var goal := Merged(RawFollow(A.ops, B.ops));
    while true
      invariant fresh(result) && fresh(aSlice) && fresh(bSlice) && aSlice != bSlice
      invariant aSlice.Valid() && bSlice.Valid() && result.Valid()
      invariant AddAll(result.ops, RawFollow(aSlice.Rest(), bSlice.Rest())) == goal
      decreases |aSlice.Rest()| + |bSlice.Rest()|
    {
      ghost var a, b := aSlice.Rest(), bSlice.Rest();
      var aOp := aSlice.Peek();
      var bOp := bSlice.Peek();
      if aOp.None? && bOp.None? {
        break;
      }
      if (aOp.Some? && aOp.value.Insert?) || (bOp.Some? && bOp.value.Insert?) {
        EmitInsert(result, aSlice, bSlice, aOp, bOp);
        continue;
      }
      if aOp.None? || bOp.None? {
        break;
      }
      EmitOverlap(result, aSlice, bSlice, aOp.value, bOp.value);
    }
    r := Changeset(A.newLen, result.newLen, result.ops);
  }

  /** The part of the loop where at least one side inserts. Texts inserted by both at one
      position are ordered by `LexLe`: the smaller goes first, `A`'s on a tie. */
  method EmitInsert(result: OpBuilder, aSlice: OpSlice, bSlice: OpSlice, aOp: Option<Op>, bOp: Option<Op>)
    requires result.Valid() && aSlice.Valid() && bSlice.Valid() && aSlice != bSlice
    requires aOp == if aSlice.Rest() == [] then None else Some(aSlice.Rest()[0])
    requires bOp == if bSlice.Rest() == [] then None else Some(bSlice.Rest()[0])
    requires (aOp.Some? && aOp.value.Insert?) || (bOp.Some? && bOp.value.Insert?)
    modifies result, aSlice, bSlice
    ensures result.Valid() && aSlice.Valid() && bSlice.Valid()
    ensures |aSlice.Rest()| + |bSlice.Rest()| < old(|aSlice.Rest()| + |bSlice.Rest()|)
    ensures AddAll(result.ops, RawFollow(aSlice.Rest(), bSlice.Rest()))
         == old(AddAll(result.ops, RawFollow(aSlice.Rest(), bSlice.Rest())))
  {
    ghost var a, b := aSlice.Rest(), bSlice.Rest();
    if aOp.Some? && aOp.value.Insert? && bOp.Some? && bOp.value.Insert? {
      if LexLe(aOp.value.chars, bOp.value.chars) {
        AddAllCons(result.ops, Retain(|aOp.value.chars|), RawFollow(a[1..], b));
        EmitPast(result, Retain(|aOp.value.chars|), aSlice, |aOp.value.chars|);
      } else {
        AddAllCons(result.ops, bOp.value, RawFollow(a, b[1..]));
        EmitPast(result, bOp.value, bSlice, |bOp.value.chars|);
      }
    } else if aOp.Some? && aOp.value.Insert? {
      AddAllCons(result.ops, Retain(|aOp.value.chars|), RawFollow(a[1..], b));
      EmitPast(result, Retain(|aOp.value.chars|), aSlice, |aOp.value.chars|);
    } else {
      AddAllCons(result.ops, bOp.value, RawFollow(a, b[1..]));
      EmitPast(result, bOp.value, bSlice, |bOp.value.chars|);
    }
  }

  /** The part of the loop where both sides stand on source units. */
  method EmitOverlap(result: OpBuilder, aSlice: OpSlice, bSlice: OpSlice, aOp: Op, bOp: Op)
    requires result.Valid() && aSlice.Valid() && bSlice.Valid() && aSlice != bSlice
    requires aSlice.Rest() != [] && aSlice.Rest()[0] == aOp && !aOp.Insert?
    requires bSlice.Rest() != [] && bSlice.Rest()[0] == bOp && !bOp.Insert?
    modifies result, aSlice, bSlice
    ensures result.Valid() && aSlice.Valid() && bSlice.Valid()
    ensures |aSlice.Rest()| + |bSlice.Rest()| < old(|aSlice.Rest()| + |bSlice.Rest()|)
    ensures AddAll(result.ops, RawFollow(aSlice.Rest(), bSlice.Rest()))
         == old(AddAll(result.ops, RawFollow(aSlice.Rest(), bSlice.Rest())))
  {
    var n := aOp.len;
    if bOp.len < n {
      n := bOp.len;
    }
    ghost var a, b := After(aSlice.Rest(), n), After(bSlice.Rest(), n);
    SkipIsAfter(aSlice.Rest(), n);
    SkipIsAfter(bSlice.Rest(), n);
    assert RawFollow(aSlice.Rest(), bSlice.Rest()) == Overlap(aOp, bOp, n) + RawFollow(a, b);
    if aOp.Retain? && bOp.Retain? {
      AddAllCons(result.ops, Retain(n), RawFollow(a, b));
      result.Add(Retain(n));
    } else if aOp.Retain? && bOp.Delete? {
      AddAllCons(result.ops, Delete(n), RawFollow(a, b));
      result.Add(Delete(n));
    } else {
      Units(RawFollow(a, b));
    }
    aSlice.Consume(n);
    bSlice.Consume(n);
  }

  // ----- What the result reads

  /** Where `A`'s text goes first. */
  predicate TakesA(a: seq<Op>, b: seq<Op>) {
    a != [] && a[0].Insert? && (b == [] || !b[0].Insert? || LexLe(a[0].chars, b[0].chars))
  }

  lemma ReadsTakenA(a: seq<Op>, b: seq<Op>)
    requires Positive(a) && Positive(b) && TakesA(a, b)
    ensures Consumed(RawFollow(a, b)) == |a[0].chars| + Consumed(RawFollow(a[1..], b))
  {
    ReadsCons(Retain(|a[0].chars|), RawFollow(a[1..], b));
  }

  lemma ReadsTakenB(a: seq<Op>, b: seq<Op>)
    requires Positive(a) && Positive(b) && !TakesA(a, b) && b != [] && b[0].Insert?
    ensures Consumed(RawFollow(a, b)) == Consumed(RawFollow(a, b[1..]))
  {
    ReadsCons(b[0], RawFollow(a, b[1..]));
  }

  lemma ReadsOverlap(a: seq<Op>, b: seq<Op>, n: nat)
    requires Positive(a) && a != [] && !a[0].Insert?
    requires Positive(b) && b != [] && !b[0].Insert? && n == Min(a[0].len, b[0].len)
    ensures Consumed(RawFollow(a, b)) == (if a[0].Retain? then n else 0) + Consumed(RawFollow(After(a, n), After(b, n)))
  {
    var rest := RawFollow(After(a, n), After(b, n));
    if a[0].Retain? {
      ReadsCons(Overlap(a[0], b[0], n)[0], rest);
    } else {
      Units(rest);
    }
  }

  /** If `B` reads at least as much as `A` does, `B'` reads exactly what `A` writes. */
  lemma {:induction false} RawFollowReads(a: seq<Op>, b: seq<Op>)
    requires Positive(a) && Positive(b) && Consumed(a) <= Consumed(b)
    ensures Consumed(RawFollow(a, b)) == Produced(a)
    decreases |a| + |b|
  {
    if TakesA(a, b) {
      ReadsTakenA(a, b);
      RawFollowReads(a[1..], b);
    } else if b != [] && b[0].Insert? {
      ReadsTakenB(a, b);
      RawFollowReads(a, b[1..]);
    } else if a != [] {
      var n := Min(a[0].len, b[0].len);
      ReadsOverlap(a, b, n);
      AfterLengths(a, n);
      AfterLengths(b, n);
      RawFollowReads(After(a, n), After(b, n));
    }
  }

  lemma ReadsCons(op: Op, raw: seq<Op>)
    ensures Consumed([op] + raw) == InLen(op) + Consumed(raw)
  {
    assert ([op] + raw)[1..] == raw;
  }

  lemma AfterLengths(ops: seq<Op>, n: nat)
    requires Positive(ops) && ops != [] && !ops[0].Insert? && 0 < n <= OpLen(ops[0])
    ensures Consumed(After(ops, n)) == Consumed(ops) - n
    ensures Produced(After(ops, n)) == Produced(ops) - (if ops[0].Retain? then n else 0)
  {
    if n < OpLen(ops[0]) {
      assert After(ops, n)[1..] == ops[1..];
    }
  }

  /** The result is valid, in merged form, and reads what `A` writes, whenever `B` was written
      for a document at least as long as `A`'s. Its `newLen` is right in every case. */
  lemma FollowValid(A: Changeset, B: Changeset)
    requires Valid(A) && Positive(B.ops)
    ensures var F := Rebased(A, B);
      && Canonical(F.ops) && F.oldLen == A.newLen && F.newLen == Produced(F.ops)
      && (A.oldLen <= Consumed(B.ops) ==> Normal(F))
  {
    MergedMeaning(RawFollow(A.ops, B.ops));
    if A.oldLen <= Consumed(B.ops) {
      RawFollowReads(A.ops, B.ops);
    }
  }
}
