/** Results known op for op, not only up to meaning: what the client relies on when it keeps
    `A` as one insert and `X` as the identity (web/client.js:446-455, 493-496, 598-606). */
module NormalForms {
  import opened Texts
  import opened Changesets
  import opened Application
  import opened Cursors
  import opened Follow
  import opened Merge
  import opened Compose
  import opened Views

  predicate AllRetain(ops: seq<Op>) {
    forall i :: 0 <= i < |ops| ==> ops[i].Retain?
  }

  lemma {:induction false} RetainsOverIdentity(a: seq<Op>, b: seq<Op>)
    requires Positive(a) && Positive(b) && AllRetain(b)
    ensures AllRetain(RawFollow(a, b))
    decreases |a| + |b|
  {
    if a != [] && a[0].Insert? {
      RetainsOverIdentity(a[1..], b);
    } else if a != [] && b != [] {
      var n := Min(a[0].len, b[0].len);
      RetainsOverIdentity(After(a, n), After(b, n));
    }
  }

  lemma {:induction false} AddAllRetains(ops: seq<Op>, raw: seq<Op>)
    requires AllRetain(ops) && AllRetain(raw)
    ensures AllRetain(AddAll(ops, raw))
    decreases |raw|
  {
    if raw != [] {
      AddAllRetains(AddOp(ops, raw[0]), raw[1..]);
    }
  }

  lemma CanonicalRetains(ops: seq<Op>)
    requires Canonical(ops) && AllRetain(ops)
    ensures ops == if Consumed(ops) == 0 then [] else [Retain(Consumed(ops))]
  {
    assert |ops| > 1 ==> SameKind(ops[0], ops[1]);
    if |ops| == 1 {
      LengthsSingle(ops[0]);
      assert ops == [ops[0]];
    }
  }

  /** Rebasing the identity over `A` gives the identity on what `A` produces. */
  lemma FollowOfIdentity(A: Changeset)
    requires Valid(A)
    ensures Rebased(A, Identity(A.oldLen)) == Identity(A.newLen)
  {
    var I := Identity(A.oldLen);
    var doc := seq(A.oldLen, _ => 0);
    IdentityRuns(doc);
    FollowMerges(doc, A, I);
    RetainsOverIdentity(A.ops, I.ops);
    AddAllRetains([], RawFollow(A.ops, I.ops));
    var F := Rebased(A, I);
    CanonicalRetains(F.ops);
    RetainsProduce(F.ops);
  }

  lemma {:induction false} RetainsProduce(ops: seq<Op>)
    requires AllRetain(ops)
    ensures Produced(ops) == Consumed(ops)
  {
    if ops != [] { RetainsProduce(ops[1..]); }
  }

  lemma IdentityRuns(doc: Text)
    ensures Normal(Identity(|doc|)) && Run(doc, Identity(|doc|).ops) == doc
  {
    if doc != [] {
      LengthsSingle(Retain(|doc|));
      RunOne(doc, Retain(|doc|));
    }
  }

  lemma RetainStep(n: nat, k: nat)
    requires 0 < k <= n
    ensures After([Retain(n)], k) == Identity(n - k).ops
  {}

  lemma {:induction false} RawFollowOverRetain(n: nat, b: seq<Op>)
    requires Positive(b) && Consumed(b) == n
    ensures RawFollow(Identity(n).ops, b) == b
    decreases |b|
  {
    if b != [] {
      var k := InLen(b[0]);
      RawFollowOverRetain(n - k, b[1..]);
      assert b == [b[0]] + b[1..];
      if k > 0 {
        RetainStep(n, k);
        assert Overlap(Retain(n), b[0], k) == [b[0]];
        assert RawFollow([Retain(n)], b) == [b[0]] + RawFollow(Identity(n - k).ops, b[1..]);
      } else {
        assert RawFollow(Identity(n).ops, b) == [b[0]] + RawFollow(Identity(n).ops, b[1..]);
      }
    }
  }

  /** Rebasing over the identity changes nothing, op for op. */
  lemma FollowOverIdentity(B: Changeset)
    requires Normal(B)
    ensures Rebased(Identity(B.oldLen), B) == B
  {
    RawFollowOverRetain(B.oldLen, B.ops);
    MergedFixed(B.ops);
  }

  lemma {:induction false} ReadsNothing(ops: seq<Op>)
    requires Positive(ops) && Consumed(ops) == 0
    ensures forall i :: 0 <= i < |ops| ==> ops[i].Insert?
  {
    if ops != [] {
      assert InLen(ops[0]) >= 0;
      ReadsNothing(ops[1..]);
    }
  }

  lemma ConsumesNothing(ops: seq<Op>)
    requires Canonical(ops) && Consumed(ops) == 0
    ensures ops == [] || (|ops| == 1 && ops[0].Insert?)
  {
    ReadsNothing(ops);
    assert |ops| > 1 ==> SameKind(ops[0], ops[1]);
  }

  /** Composing onto the changeset that creates a text gives the changeset that creates the
      rewritten text. */
  lemma ComposeOntoText(t: Text, B: Changeset)
    requires Valid(B) && B.oldLen == |t|
    ensures Composed(TextToChangeset(t), B) == TextToChangeset(Run(t, B.ops))
  {
    var T := TextToChangeset(t);
    TextRuns(t);
    ComposeMeaning(T, B);
    var C := Composed(T, B);
    assert Run([], C.ops) == Run(Run([], T.ops), B.ops);
    ConsumesNothing(C.ops);
    RunLength(t, B.ops);
    if C.ops != [] {
      RunOne([], C.ops[0]);
      assert C.ops == [C.ops[0]];
    }
  }

  lemma TextRuns(t: Text)
    ensures Normal(TextToChangeset(t)) && Run([], TextToChangeset(t).ops) == t
  {
    if t != [] {
      LengthsSingle(Insert(t));
      RunOne([], Insert(t));
    }
  }

  // ----- The identity test

  lemma {:induction false} InsertShows(doc: Text, ops: seq<Op>, k: nat)
    requires Positive(ops) && Consumed(ops) == |doc| && k < |ops| && ops[k].Insert?
    ensures ops[k].chars[0] in Run(doc, ops)
    decreases |ops|
  {
    var n := InLen(ops[0]);
    var head, tail := Out(doc[..n], ops[0]), Run(doc[n..], ops[1..]);
    assert Run(doc, ops) == head + tail;
    if k == 0 {
      assert head[0] == ops[k].chars[0];
    } else {
      InsertShows(doc[n..], ops[1..], k - 1);
    }
  }

  lemma {:induction false} DeletesShrink(ops: seq<Op>)
    requires Positive(ops) && forall i :: 0 <= i < |ops| ==> !ops[i].Insert?
    ensures Produced(ops) <= Consumed(ops)
    ensures Produced(ops) == Consumed(ops) ==> AllRetain(ops)
  {
    if ops != [] {
      DeletesShrink(ops[1..]);
    }
  }

  /** `IsIdentity` holds of a changeset in merged form exactly when it leaves every document
      of its length unchanged. */
  lemma IsIdentityExact(c: Changeset)
    requires Normal(c)
    ensures IsIdentity(c) <==> forall doc: Text :: |doc| == c.oldLen ==> Run(doc, c.ops) == doc
  {
    if IsIdentity(c) {
      IsIdentityPorts(c);
      forall doc: Text | |doc| == c.oldLen
        ensures Run(doc, c.ops) == doc
      {
        IdentityRuns(doc);
      }
    } else {
      var doc := ChangedDocument(c);
      assert Run(doc, c.ops) != doc;
    }
  }

  lemma ChangedDocument(c: Changeset) returns (doc: Text)
    requires Normal(c) && !IsIdentity(c)
    ensures |doc| == c.oldLen && Run(doc, c.ops) != doc
  {
    doc := seq(c.oldLen, _ => 0);
    RunLength(doc, c.ops);
    if k :| 0 <= k < |c.ops| && c.ops[k].Insert? {
      var u := c.ops[k].chars[0];
      doc := seq(c.oldLen, _ => u + 1);
      InsertShows(doc, c.ops, k);
    } else {
      DeletesShrink(c.ops);
      if Produced(c.ops) == Consumed(c.ops) {
        CanonicalRetains(c.ops);
      }
    }
  }

  // ----- Rebasing over two changesets and over their composition

  /** Rebased over two changesets one after the other, or over their composition, `B` retains
      the same units, whatever it inserts. */
  lemma ComposedRebaseKeeps(A1: Changeset, A2: Changeset, B: Changeset, k: nat)
    requires Valid(A1) && Valid(A2) && A2.oldLen == A1.newLen && Valid(B) && B.oldLen == A1.oldLen && k < A2.newLen
    ensures Valid(Composed(A1, A2)) && Valid(Rebased(A1, B))
    ensures KeptAt(Rebased(Composed(A1, A2), B).ops, k) == KeptAt(Rebased(A2, Rebased(A1, B)).ops, k)
  {
    ComposeMeaning(A1, A2);
    FollowValid(A1, B);
    ComposedOrigin(A1, A2, k);
    RebasedKeeps(Composed(A1, A2), B, k);
    RebasedKeeps(A2, Rebased(A1, B), k);
    var o := Origin(A2.ops, k);
    if o.Some? {
      OriginInside(A2.ops, k);
      RebasedKeeps(A1, B, o.value);
    }
  }

  predicate NoInserts(ops: seq<Op>) {
    forall i :: 0 <= i < |ops| ==> !ops[i].Insert?
  }

  lemma {:induction false} RawFollowNoInserts(a: seq<Op>, b: seq<Op>)
    requires Positive(a) && Positive(b) && NoInserts(b)
    ensures NoInserts(RawFollow(a, b))
    decreases |a| + |b|
  {
    if a != [] && a[0].Insert? {
      RawFollowNoInserts(a[1..], b);
    } else if a != [] && b != [] {
      var n := Min(a[0].len, b[0].len);
      RawFollowNoInserts(After(a, n), After(b, n));
    }
  }

  lemma {:induction false} AddAllNoInserts(ops: seq<Op>, raw: seq<Op>)
    requires NoInserts(ops) && NoInserts(raw)
    ensures NoInserts(AddAll(ops, raw))
    decreases |raw|
  {
    if raw != [] {
      AddAllNoInserts(AddOp(ops, raw[0]), raw[1..]);
    }
  }

  lemma RebasedNoInserts(A: Changeset, B: Changeset)
    requires Positive(A.ops) && Positive(B.ops) && NoInserts(B.ops)
    ensures NoInserts(Rebased(A, B).ops)
  {
    RawFollowNoInserts(A.ops, B.ops);
    AddAllNoInserts([], RawFollow(A.ops, B.ops));
  }

  /** Merged lists without inserts are determined by what they retain. */
  lemma {:induction false} KeptDetermines(p: seq<Op>, q: seq<Op>)
    requires Canonical(p) && NoInserts(p) && Canonical(q) && NoInserts(q) && Consumed(p) == Consumed(q)
    requires forall i :: 0 <= i < Consumed(p) ==> KeptAt(p, i) == KeptAt(q, i)
    ensures p == q
    decreases |p|
  {
    if p != [] {
      assert Consumed(p) > 0 && q != [];
      assert KeptAt(p, 0) == KeptAt(q, 0);
      NotShorter(p, q);
      NotShorter(q, p);
      var n := p[0].len;
      forall i | 0 <= i < Consumed(p[1..])
        ensures KeptAt(p[1..], i) == KeptAt(q[1..], i)
      {
        assert KeptAt(p, i + n) == KeptAt(q, i + n);
      }
      CanonicalTail(p);
      CanonicalTail(q);
      KeptDetermines(p[1..], q[1..]);
      Uncons(p, []);
      Uncons(q, []);
    }
  }

  lemma CanonicalTail(ops: seq<Op>)
    requires Canonical(ops) && ops != []
    ensures Canonical(ops[1..])
  {
    assert forall k :: 0 < k < |ops[1..]| ==> ops[1..][k] == ops[k + 1] && ops[1..][k - 1] == ops[k];
  }

  /** Behind the first op of a merged list comes an op of the other type. */
  lemma SecondOp(ops: seq<Op>)
    requires Canonical(ops) && NoInserts(ops) && ops != [] && ops[0].len < Consumed(ops)
    ensures KeptAt(ops, ops[0].len) == !ops[0].Retain?
  {
    assert ops[1..] != [] && !SameKind(ops[0], ops[1]);
    assert KeptAt(ops, ops[0].len) == KeptAt(ops[1..], 0);
  }

  lemma FirstOp(ops: seq<Op>, i: nat)
    requires Positive(ops) && ops != [] && !ops[0].Insert? && i < ops[0].len
    ensures KeptAt(ops, i) == ops[0].Retain? && i < Consumed(ops)
  {
    assert Consumed(ops[1..]) >= 0;
  }

  lemma NotShorter(p: seq<Op>, q: seq<Op>)
    requires Canonical(p) && NoInserts(p) && p != [] && Canonical(q) && NoInserts(q) && q != []
    requires Consumed(p) == Consumed(q) && p[0].Retain? == q[0].Retain?
    requires forall i :: 0 <= i < Consumed(p) ==> KeptAt(p, i) == KeptAt(q, i)
    ensures p[0].len >= q[0].len
  {
    if p[0].len < q[0].len {
      FirstOp(q, p[0].len);
      SecondOp(p);
    }
  }

  /** A changeset that inserts nothing is rebased over two changesets one after the other to
      what it is rebased to over their composition, op for op. */
  lemma ComposedRebaseAgrees(A1: Changeset, A2: Changeset, B: Changeset)
    requires Valid(A1) && Valid(A2) && A2.oldLen == A1.newLen
    requires Valid(B) && B.oldLen == A1.oldLen && NoInserts(B.ops)
    ensures Valid(Composed(A1, A2)) && Valid(Rebased(A1, B))
    ensures Rebased(Composed(A1, A2), B) == Rebased(A2, Rebased(A1, B))
  {
    ComposeMeaning(A1, A2);
    FollowValid(A1, B);
    var F, G := Rebased(Composed(A1, A2), B), Rebased(A2, Rebased(A1, B));
    FollowValid(Composed(A1, A2), B);
    FollowValid(A2, Rebased(A1, B));
    RebasedNoInserts(Composed(A1, A2), B);
    RebasedNoInserts(A1, B);
    RebasedNoInserts(A2, Rebased(A1, B));
    forall k | 0 <= k < Consumed(F.ops)
      ensures KeptAt(F.ops, k) == KeptAt(G.ops, k)
    {
      ComposedRebaseKeeps(A1, A2, B, k);
    }
    KeptDetermines(F.ops, G.ops);
  }

  /** What it inserts may go to different places: on the empty document, with "d" and then "a"
      in front of it against "c", the tie-breaker gives "acd" one way and "adc" the other. */
  lemma ComposedRebaseDiffers(A1: Changeset, A2: Changeset, B: Changeset)
    requires A1 == Changeset(0, 1, [Insert([100])]) && A2 == Changeset(1, 2, [Insert([97]), Retain(1)])
    requires B == Changeset(0, 1, [Insert([99])])
    ensures Normal(A1) && Normal(A2) && A2.oldLen == A1.newLen && Normal(B)
    ensures Positive(Composed(A1, A2).ops) && Positive(Rebased(A1, B).ops)
    ensures Rebased(Composed(A1, A2), B).ops == [Retain(2), Insert([99])]
    ensures Rebased(A2, Rebased(A1, B)).ops == [Retain(1), Insert([99]), Retain(1)]
  {
    var a, c, d, r: Op := Insert([97]), Insert([99]), Insert([100]), Retain(1);
    ConcreteLengths(a, c, d, r);
    ComposedPair(a, d);
    RebasedPairs(a, c, d);
    assert A1.ops == [d] && A2.ops == [a, r] && B.ops == [c];
    var CA, RB := Composed(A1, A2), Rebased(A1, B);
    assert CA.ops == [Insert([97, 100])] && RB.ops == [c, r];
  }

  lemma ConcreteLengths(a: Op, c: Op, d: Op, r: Op)
    requires a == Insert([97]) && c == Insert([99]) && d == Insert([100]) && r == Retain(1)
    ensures Normal(Changeset(0, 1, [d])) && Normal(Changeset(1, 2, [a, r])) && Normal(Changeset(0, 1, [c]))
  {
    LengthsSingle(d);
    LengthsSingle(c);
    LengthsSingle(r);
    assert [a, r][1..] == [r];
  }

  lemma ComposedPair(a: Op, d: Op)
    requires a == Insert([97]) && d == Insert([100])
    ensures Merged(RawCompose([d], [a, Retain(1)])) == [Insert([97, 100])]
  {
    assert [a, Retain(1)][1..] == [Retain(1)] && [Retain(1)][1..] == [] && [d][1..] == [];
    assert d.chars[..1] == d.chars && a.chars + d.chars == [97, 100];
    assert RawCompose([d], [Retain(1)]) == [Insert(d.chars[..1])] + RawCompose([], []) == [d];
    assert RawCompose([d], [a, Retain(1)]) == [a] + [d];
    AddAllCons([], a, [d]);
    AddAllCons([a], d, []);
    assert AddOp([], a) == [a] && AddOp([a], d) == [] + [Join(a, d)] == [Insert([97, 100])];
  }

  lemma RebasedPairs(a: Op, c: Op, d: Op)
    requires a == Insert([97]) && c == Insert([99]) && d == Insert([100])
    ensures Merged(RawFollow([Insert([97, 100])], [c])) == [Retain(2), c]
    ensures Merged(RawFollow([d], [c])) == [c, Retain(1)]
    ensures Merged(RawFollow([a, Retain(1)], [c, Retain(1)])) == [Retain(1), c, Retain(1)]
  {
    var r, ad := Retain(1), Insert([97, 100]);
    assert [d][1..] == [] && [c][1..] == [] && [ad][1..] == [] && [r][1..] == [];
    assert [a, r][1..] == [r] && [c, r][1..] == [r];
    assert RawFollow([], [c]) == [c] + RawFollow([], []) == [c];
    assert RawFollow([ad], [c]) == [Retain(2)] + [c];
    MergedFixed([Retain(2), c]);
    assert RawFollow([d], []) == [r] + RawFollow([], []) == [r];
    assert RawFollow([d], [c]) == [c] + [r];
    MergedFixed([c, r]);
    assert RawFollow([r], [r]) == [r] + RawFollow([], []) == [r];
    assert RawFollow([r], [c, r]) == [c] + [r];
    assert RawFollow([a, r], [c, r]) == [r] + ([c] + [r]) == [r, c, r];
    MergedFixed([r, c, r]);
  }
}
