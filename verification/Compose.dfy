/** Sequential composition (internal/ot/compose.go, web/client.js:68-139). */
module Compose {
  import opened Texts
  import opened Changesets
  import opened Application
  import opened Cursors

  /** The ops emitted, before merging, from what is left of both lists. */
  function RawCompose(a: seq<Op>, b: seq<Op>): (raw: seq<Op>)
    requires Positive(a) && Positive(b)
    ensures Positive(raw)
    decreases |a| + |b|
  {
    if b != [] && b[0].Insert? then [b[0]] + RawCompose(a, b[1..])
    else if a != [] && a[0].Delete? then [a[0]] + RawCompose(a[1..], b)
    else if a == [] || b == [] then []
    else
      var n := Min(OpLen(a[0]), b[0].len);
      Through(a[0], b[0], n) + RawCompose(After(a, n), After(b, n))
  }

  /** What becomes of `n` units that `A` writes and `B` reads. */
  function Through(x: Op, y: Op, n: nat): seq<Op>
    requires n <= OpLen(x)
  {
    if x.Retain? && y.Retain? then [Retain(n)]
    else if x.Retain? && y.Delete? then [Delete(n)]
    else if x.Insert? && y.Retain? then [Insert(x.chars[..n])]
    else []
  }

  function Composed(A: Changeset, B: Changeset): Changeset
    requires Positive(A.ops) && Positive(B.ops)
  {
    Changeset(A.oldLen, B.newLen, Merged(RawCompose(A.ops, B.ops)))
  }

  /** What was emitted and what is left of both lists lead to `goal`. */
  ghost predicate Leads(out: seq<Op>, a: seq<Op>, b: seq<Op>, goal: seq<Op>) {
    Positive(a) && Positive(b) && AddAll(out, RawCompose(a, b)) == goal
  }

  lemma LeadsPastB(out: seq<Op>, a: seq<Op>, b: seq<Op>, goal: seq<Op>)
    requires Leads(out, a, b, goal) && b != [] && b[0].Insert?
    ensures Leads(AddOp(out, b[0]), a, b[1..], goal)
  {
    AddAllCons(out, b[0], RawCompose(a, b[1..]));
  }

  lemma LeadsPastA(out: seq<Op>, a: seq<Op>, b: seq<Op>, goal: seq<Op>)
    requires Leads(out, a, b, goal) && (b == [] || !b[0].Insert?) && a != [] && a[0].Delete?
    ensures Leads(AddOp(out, a[0]), a[1..], b, goal)
  {
    AddAllCons(out, a[0], RawCompose(a[1..], b));
  }

  method Compose(A: Changeset, B: Changeset) returns (r: Changeset)
    requires Positive(A.ops) && Positive(B.ops)
    ensures r == Composed(A, B)
  {
    var result := new OpBuilder();
    var aSlice := new OpSlice(A.ops);
    var bSlice := new OpSlice(B.ops);
    ghost var goal := Merged(RawCompose(A.ops, B.ops));
    while true
      invariant fresh(result) && fresh(aSlice) && fresh(bSlice) && aSlice != bSlice
      invariant aSlice.Valid() && bSlice.Valid() && result.Valid()
      invariant Leads(result.ops, aSlice.Rest(), bSlice.Rest(), goal)
      decreases |aSlice.Rest()| + |bSlice.Rest()|
    {
      ghost var a, b := aSlice.Rest(), bSlice.Rest();
      var bOp := bSlice.Peek();
      var aOp := aSlice.Peek();
      if bOp.None? && aOp.None? {
        break;
      }
      if bOp.Some? && bOp.value.Insert? {
        LeadsPastB(result.ops, a, b, goal);
        EmitPast(result, bOp.value, bSlice, |bOp.value.chars|);
        continue;
      }
      if aOp.Some? && aOp.value.Delete? {
        LeadsPastA(result.ops, a, b, goal);
        EmitPast(result, aOp.value, aSlice, aOp.value.len);
        continue;
      }
      if aOp.None? || bOp.None? {
        break;
      }
      EmitThrough(result, aSlice, bSlice, aOp.value, bOp.value);
    }
    r := Changeset(A.oldLen, B.newLen, result.ops);
  }

  /** The part of the loop where `B` reads what `A` retained or inserted. */
  method EmitThrough(result: OpBuilder, aSlice: OpSlice, bSlice: OpSlice, aOp: Op, bOp: Op)
    requires result.Valid() && aSlice.Valid() && bSlice.Valid() && aSlice != bSlice
    requires aSlice.Rest() != [] && aSlice.Rest()[0] == aOp && !aOp.Delete?
    requires bSlice.Rest() != [] && bSlice.Rest()[0] == bOp && !bOp.Insert?
    modifies result, aSlice, bSlice
    ensures result.Valid() && aSlice.Valid() && bSlice.Valid()
    ensures |aSlice.Rest()| + |bSlice.Rest()| < old(|aSlice.Rest()| + |bSlice.Rest()|)
    ensures AddAll(result.ops, RawCompose(aSlice.Rest(), bSlice.Rest()))
         == old(AddAll(result.ops, RawCompose(aSlice.Rest(), bSlice.Rest())))
  {
    var aLen := if aOp.Insert? then |aOp.chars| else aOp.len;
    var n := aLen;
    if bOp.len < n {
      n := bOp.len;
    }
    ghost var a, b := After(aSlice.Rest(), n), After(bSlice.Rest(), n);
    SkipIsAfter(aSlice.Rest(), n);
    SkipIsAfter(bSlice.Rest(), n);
    assert RawCompose(aSlice.Rest(), bSlice.Rest()) == Through(aOp, bOp, n) + RawCompose(a, b);
    if aOp.Retain? && bOp.Retain? {
      AddAllCons(result.ops, Retain(n), RawCompose(a, b));
      result.Add(Retain(n));
    } else if aOp.Retain? && bOp.Delete? {
      AddAllCons(result.ops, Delete(n), RawCompose(a, b));
      result.Add(Delete(n));
    } else if aOp.Insert? && bOp.Retain? {
      AddAllCons(result.ops, Insert(aOp.chars[..n]), RawCompose(a, b));
      result.Add(Insert(aOp.chars[..n]));
    } else {
      Units(RawCompose(a, b));
    }
    aSlice.Consume(n);
    bSlice.Consume(n);
  }

  // ----- Meaning

  /** The first `n` units a list writes, for a first op that writes. */
  lemma RunWrites(doc: Text, ops: seq<Op>, n: nat)
    requires Positive(ops) && Consumed(ops) == |doc|
    requires ops != [] && !ops[0].Delete? && 0 < n <= OpLen(ops[0])
    ensures var k := if ops[0].Retain? then n else 0;
      && k <= |doc| && Consumed(After(ops, n)) == |doc| - k
      && Run(doc, ops) == (if ops[0].Retain? then doc[..n] else ops[0].chars[..n]) + Run(doc[k..], After(ops, n))
      && Produced(ops) == n + Produced(After(ops, n))
  {
    if ops[0].Retain? {
      RunAfter(doc, ops, n);
    } else {
      RunInsertAfter(doc, ops, n);
      Units(doc);
    }
  }

  /** For a pair of op lists that follow one another, what is emitted rewrites the document
      like the first and then the second. */
  lemma {:induction false} RawComposeRuns(doc: Text, a: seq<Op>, b: seq<Op>)
    requires Positive(a) && Positive(b) && Consumed(a) == |doc| && Produced(a) == Consumed(b)
    ensures |Run(doc, a)| == Produced(a)
    ensures Consumed(RawCompose(a, b)) == |doc|
    ensures Run(doc, RawCompose(a, b)) == Run(Run(doc, a), b)
    decreases |a| + |b|
  {
    RunLength(doc, a);
    if b != [] && b[0].Insert? {
      RawComposeRuns(doc, a, b[1..]);
      RunCons([], doc, b[0], RawCompose(a, b[1..]));
      Units(doc);
    } else if a != [] && a[0].Delete? {
      var n := a[0].len;
      RunAfter(doc, a, n);
      RawComposeRuns(doc[n..], a[1..], b);
      DeleteRuns(doc, a, b, n);
    } else if a != [] && b != [] {
      var n := Min(OpLen(a[0]), b[0].len);
      var k := if a[0].Retain? then n else 0;
      RunWrites(doc, a, n);
      RunAfter(Run(doc, a), b, n);
      RawComposeRuns(doc[k..], After(a, n), After(b, n));
      ThroughRuns(doc, a, b, n, k);
    }
  }

  lemma DeleteRuns(doc: Text, a: seq<Op>, b: seq<Op>, n: nat)
    requires Positive(a) && Positive(b) && a != [] && a[0] == Delete(n) && (b == [] || !b[0].Insert?)
    requires Consumed(a) == |doc| && Consumed(a[1..]) == |doc[n..]| == Consumed(RawCompose(a[1..], b))
    ensures Consumed(RawCompose(a, b)) == |doc|
    ensures Run(doc, a) == Run(doc[n..], a[1..])
    ensures Run(doc, RawCompose(a, b)) == Run(doc[n..], RawCompose(a[1..], b))
  {
    Halves(doc, n);
    RunCons(doc[..n], doc[n..], a[0], RawCompose(a[1..], b));
    Units(Run(doc[n..], a[1..]));
    Units(Run(doc[n..], RawCompose(a[1..], b)));
  }

  lemma ThroughRuns(doc: Text, a: seq<Op>, b: seq<Op>, n: nat, k: nat)
    requires Positive(a) && Positive(b) && Consumed(a) == |doc| && Consumed(b) == |Run(doc, a)|
    requires a != [] && b != [] && !a[0].Delete? && !b[0].Insert? && n == Min(OpLen(a[0]), b[0].len)
    requires k == (if a[0].Retain? then n else 0) && k <= |doc|
    requires Consumed(After(a, n)) == |doc| - k == Consumed(RawCompose(After(a, n), After(b, n)))
    requires Consumed(After(b, n)) == |Run(doc[k..], After(a, n))|
    requires Run(doc[k..], RawCompose(After(a, n), After(b, n))) == Run(Run(doc[k..], After(a, n)), After(b, n))
    ensures Consumed(RawCompose(a, b)) == |doc|
    ensures Run(doc, RawCompose(a, b)) == Run(Run(doc, a), b)
  {
    var raw, rest := RawCompose(After(a, n), After(b, n)), Run(doc[k..], After(a, n));
    RunWrites(doc, a, n);
    RunAfter(Run(doc, a), b, n);
    var front := if a[0].Retain? then doc[..n] else a[0].chars[..n];
    assert Run(doc, a)[..n] == front && Run(doc, a)[n..] == rest;
    Halves(doc, k);
    Units(raw);
    Units(Run(rest, After(b, n)));
    if Through(a[0], b[0], n) != [] {
      RunCons(doc[..k], doc[k..], Through(a[0], b[0], n)[0], raw);
    }
  }

  /** Composition preserves meaning on every document, its preset `NewLen` is what its ops
      produce, and its ops are in merged form. */
  lemma ComposeMeaning(A: Changeset, B: Changeset)
    requires Valid(A) && Valid(B) && A.newLen == B.oldLen
    ensures Normal(Composed(A, B))
    ensures forall doc: Text :: |doc| == A.oldLen ==>
      |Run(doc, A.ops)| == B.oldLen && Run(doc, Composed(A, B).ops) == Run(Run(doc, A.ops), B.ops)
  {
    var raw := RawCompose(A.ops, B.ops);
    MergedMeaning(raw);
    forall doc: Text | |doc| == A.oldLen
      ensures Consumed(raw) == |doc| && Produced(raw) == B.newLen
      ensures |Run(doc, A.ops)| == B.oldLen && Run(doc, Merged(raw)) == Run(Run(doc, A.ops), B.ops)
    {
      RawComposeRuns(doc, A.ops, B.ops);
      RunLength(doc, raw);
      RunLength(Run(doc, A.ops), B.ops);
    }
    assert |seq(A.oldLen, _ => 0)| == A.oldLen;
  }
}
