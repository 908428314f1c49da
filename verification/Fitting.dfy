/** What becomes of an entry that was written for a text of another length than the one at its
    base. The apply loop never compares the two (internal/fsm/fsm.go:133-143): the rebase cuts a
    longer changeset, and a shorter one is accepted only where nothing is missing in the end. Either
    way an accepted entry commits what it would commit after being fitted to its base text. */
module Fitting {
  import opened Texts
  import opened Changesets
  import opened Application
  import opened Cursors
  import opened Follow
  import opened Merge
  import opened Selection
  import opened NormalForms
  import opened Fsm

  // ----- Too long

  /** The ops on the first `m` source units, inserts behind them included. */
  function Upto(ops: seq<Op>, m: nat): (r: seq<Op>)
    requires Positive(ops)
    ensures Positive(r)
    decreases |ops|
  {
    if ops == [] then []
    else if ops[0].Insert? then [ops[0]] + Upto(ops[1..], m)
    else if m == 0 then []
    else if ops[0].len <= m then [ops[0]] + Upto(ops[1..], m - ops[0].len)
    else [if ops[0].Retain? then Retain(m) else Delete(m)]
  }

  lemma {:induction false} UptoConsumes(ops: seq<Op>, m: nat)
    requires Positive(ops) && m <= Consumed(ops)
    ensures Consumed(Upto(ops, m)) == m
    decreases |ops|
  {
    if ops != [] {
      if ops[0].Insert? {
        UptoConsumes(ops[1..], m);
      } else if m > 0 && ops[0].len <= m {
        UptoConsumes(ops[1..], m - ops[0].len);
      }
      if Upto(ops, m) != [] {
        UptoTail(ops, m);
      }
    }
  }

  lemma UptoTail(ops: seq<Op>, m: nat)
    requires Positive(ops) && Upto(ops, m) != []
    ensures ops != []
    ensures Upto(ops, m)[1..] ==
      if ops[0].Insert? then Upto(ops[1..], m)
      else if ops[0].len <= m then Upto(ops[1..], m - ops[0].len)
      else []
  {}

  /** What the cut changeset writes is the part of what the whole one writes up to there. */
  lemma {:induction false} UptoRuns(doc: Text, ops: seq<Op>, m: nat)
    requires Positive(ops) && Consumed(ops) == |doc| && m <= |doc|
    ensures Consumed(Upto(ops, m)) == m && Landing(ops, m) <= |Run(doc, ops)|
    ensures Run(doc[..m], Upto(ops, m)) == Run(doc, ops)[..Landing(ops, m)]
    decreases |ops|
  {
    UptoConsumes(ops, m);
    if ops != [] {
      var n := InLen(ops[0]);
      if ops[0].Insert? || (n <= m && m > 0) {
        UptoRuns(doc[n..], ops[1..], m - n);
        UptoRunsMore(doc, ops, m, n);
      } else if m == 0 {
        Units(doc);
      } else {
        UptoRunsInside(doc, ops, m);
      }
    }
  }

  lemma UptoRunsMore(doc: Text, ops: seq<Op>, m: nat, n: nat)
    requires Positive(ops) && ops != [] && Consumed(ops) == |doc| && m <= |doc| && n == InLen(ops[0]) <= m
    requires ops[0].Insert? || m > 0
    requires Consumed(Upto(ops[1..], m - n)) == m - n && Landing(ops[1..], m - n) <= |Run(doc[n..], ops[1..])|
    requires Run(doc[n..][..m - n], Upto(ops[1..], m - n)) == Run(doc[n..], ops[1..])[..Landing(ops[1..], m - n)]
    ensures Consumed(Upto(ops, m)) == m && Landing(ops, m) <= |Run(doc, ops)|
    ensures Run(doc[..m], Upto(ops, m)) == Run(doc, ops)[..Landing(ops, m)]
  {
    var head, tail, k := Out(doc[..n], ops[0]), Run(doc[n..], ops[1..]), Landing(ops[1..], m - n);
    var front, rest := doc[n..][..m - n], Upto(ops[1..], m - n);
    LandingPast(doc, ops, m);
    assert Run(doc, ops) == head + tail && Landing(ops, m) == |head| + k;
    PrefixSum(head, tail, k);
    TakeInTwo(doc, n, m);
    UptoCons(ops, m);
    RunCons(doc[..n], front, ops[0], rest);
  }

  lemma UptoCons(ops: seq<Op>, m: nat)
    requires Positive(ops) && ops != [] && InLen(ops[0]) <= m && (ops[0].Insert? || m > 0)
    ensures Upto(ops, m) == [ops[0]] + Upto(ops[1..], m - InLen(ops[0]))
  {}

  lemma TakeInTwo<T>(s: seq<T>, n: nat, m: nat)
    requires n <= m <= |s|
    ensures s[..m] == s[..n] + s[n..][..m - n]
  {}

  lemma UptoRunsInside(doc: Text, ops: seq<Op>, m: nat)
    requires Positive(ops) && ops != [] && Consumed(ops) == |doc| && !ops[0].Insert? && 0 < m < ops[0].len
    ensures m <= |doc| && Consumed(Upto(ops, m)) == m && Landing(ops, m) <= |Run(doc, ops)|
    ensures Run(doc[..m], Upto(ops, m)) == Run(doc, ops)[..Landing(ops, m)]
  {
    var n := ops[0].len;
    LandingPast(doc, ops, m);
    RunOne(doc[..m], Upto(ops, m)[0]);
    assert Upto(ops, m) == [Upto(ops, m)[0]];
    if ops[0].Retain? {
      PrefixInside(doc[..n], Run(doc[n..], ops[1..]), m);
      assert doc[..n][..m] == doc[..m];
    }
  }

  lemma UptoAfter(ops: seq<Op>, m: nat, n: nat)
    requires Positive(ops) && ops != [] && !ops[0].Insert? && 0 < n <= OpLen(ops[0]) && n <= m
    ensures var cut := Upto(ops, m);
      && cut != [] && SameKind(cut[0], ops[0]) && cut[0].len == Min(m, ops[0].len)
      && After(cut, n) == Upto(After(ops, n), m - n)
  {
    var k := ops[0].len;
    UptoTail(ops, m);
    if n < k {
      assert After(ops, n)[1..] == ops[1..];
    }
  }

  ghost predicate Cuts(a: seq<Op>, b: seq<Op>) {
    Positive(a) && Positive(b) && 0 <= Consumed(a) && RawFollow(a, b) == RawFollow(a, Upto(b, Consumed(a)))
  }

  /** Rebasing over `A` sees nothing of `B` behind the source `A` was written for. */
  lemma {:induction false} RawFollowCuts(a: seq<Op>, b: seq<Op>)
    requires Positive(a) && Positive(b) && Consumed(a) <= Consumed(b)
    ensures Cuts(a, b)
    decreases |a| + |b|
  {
    if TakesA(a, b) {
      RawFollowCuts(a[1..], b);
      CutsTakenA(a, b);
    } else if b != [] && b[0].Insert? {
      RawFollowCuts(a, b[1..]);
      CutsTakenB(a, b);
    } else if a != [] {
      var n := Min(a[0].len, b[0].len);
      AfterLengths(a, n);
      AfterLengths(b, n);
      RawFollowCuts(After(a, n), After(b, n));
      CutsOverlap(a, b, n);
    }
  }

  lemma CutsTakenA(a: seq<Op>, b: seq<Op>)
    requires Positive(a) && TakesA(a, b) && Cuts(a[1..], b)
    ensures Cuts(a, b)
  {}

  lemma CutsTakenB(a: seq<Op>, b: seq<Op>)
    requires Positive(a) && Positive(b) && !TakesA(a, b) && b != [] && b[0].Insert? && Cuts(a, b[1..])
    ensures Cuts(a, b)
  {
    UptoTail(b, Consumed(a));
  }

  lemma CutsOverlap(a: seq<Op>, b: seq<Op>, n: nat)
    requires Aligned(a, b, n) && n == Min(a[0].len, b[0].len) && Cuts(After(a, n), After(b, n))
    ensures Cuts(a, b)
  {
    var m, m' := Consumed(a), Consumed(After(a, n));
    AfterLengths(a, n);
    FirstFits(a);
    UptoAfter(b, m, n);
    assert m' == m - n;
    OverlapSame(a, b, Upto(b, m), n);
  }

  lemma FirstFits(a: seq<Op>)
    requires Positive(a) && a != [] && !a[0].Insert?
    ensures a[0].len <= Consumed(a)
  {
    assert Consumed(a[1..]) >= 0;
  }

  lemma OverlapSame(a: seq<Op>, b: seq<Op>, b': seq<Op>, n: nat)
    requires Aligned(a, b, n) && n == Min(a[0].len, b[0].len)
    requires Aligned(a, b', n) && n == Min(a[0].len, b'[0].len) && SameKind(b[0], b'[0])
    requires RawFollow(After(a, n), After(b, n)) == RawFollow(After(a, n), After(b', n))
    ensures RawFollow(a, b) == RawFollow(a, b')
  {}

  // ----- Too short

  /** The ops with `k` more units retained. */
  function Pad(ops: seq<Op>, k: nat): seq<Op> {
    if k == 0 then ops else AddOp(ops, Retain(k))
  }

  lemma PadTwice(M: seq<Op>, G: seq<Op>, F: seq<Op>, k: nat, d: nat, j: nat)
    requires G == Pad(M, k) && F == Pad(M, j) && j == k + d
    ensures F == Pad(G, d)
  {}

  lemma {:induction false} PadAll(ops: seq<Op>, retains: seq<Op>)
    requires Positive(retains) && AllRetain(retains)
    ensures AddAll(ops, retains) == Pad(ops, Consumed(retains))
    decreases |retains|
  {
    if retains != [] {
      var j, rest := retains[0].len, retains[1..];
      var next := AddOp(ops, retains[0]);
      PadAll(next, rest);
      PadTwice(ops, next, Pad(ops, j + Consumed(rest)), j, Consumed(rest), j + Consumed(rest));
    }
  }

  lemma {:induction false} AddAllConcat(ops: seq<Op>, p: seq<Op>, q: seq<Op>)
    ensures AddAll(ops, p + q) == AddAll(AddAll(ops, p), q)
    decreases |p|
  {
    if p == [] {
      Units(q);
    } else {
      Uncons(p, q);
      AddAllConcat(AddOp(ops, p[0]), p[1..], q);
    }
  }

  /** What rebasing emits until `c` is used up, and what is left of `A` by then. */
  function FollowFront(a: seq<Op>, c: seq<Op>): (r: (seq<Op>, seq<Op>))
    requires Positive(a) && Positive(c)
    ensures Positive(r.0) && Positive(r.1)
    decreases |a| + |c|
  {
    if c == [] then ([], a)
    else if TakesA(a, c) then
      var r := FollowFront(a[1..], c);
      ([Retain(|a[0].chars|)] + r.0, r.1)
    else if c[0].Insert? then
      var r := FollowFront(a, c[1..]);
      ([c[0]] + r.0, r.1)
    else if a == [] then ([], [])
    else
      var n := Min(a[0].len, c[0].len);
      var r := FollowFront(After(a, n), After(c, n));
      (Overlap(a[0], c[0], n) + r.0, r.1)
  }

  lemma {:induction false} FollowTail(a: seq<Op>, c: seq<Op>, tail: seq<Op>)
    requires Positive(a) && Positive(c) && Positive(tail) && AllRetain(tail)
    ensures Positive(c + tail)
    ensures RawFollow(a, c + tail) == FollowFront(a, c).0 + RawFollow(FollowFront(a, c).1, tail)
    decreases |a| + |c|
  {
    if c == [] {
      Units(tail);
      Units(RawFollow(a, tail));
    } else {
      Uncons(c, tail);
      if TakesA(a, c) {
        FollowTail(a[1..], c, tail);
        Assoc([Retain(|a[0].chars|)], FollowFront(a[1..], c).0, RawFollow(FollowFront(a, c).1, tail));
      } else if c[0].Insert? {
        FollowTail(a, c[1..], tail);
        Assoc([c[0]], FollowFront(a, c[1..]).0, RawFollow(FollowFront(a, c).1, tail));
      } else if a != [] {
        var n := Min(a[0].len, c[0].len);
        FollowTail(After(a, n), After(c, n), tail);
        AfterConcat(c, tail, n);
        Assoc(Overlap(a[0], c[0], n), FollowFront(After(a, n), After(c, n)).0, RawFollow(FollowFront(a, c).1, tail));
      }
    }
  }

  lemma AfterConcat(c: seq<Op>, tail: seq<Op>, n: nat)
    requires Positive(c) && Positive(tail) && c != [] && 0 < n <= OpLen(c[0])
    ensures Positive(c + tail) && After(c + tail, n) == After(c, n) + tail
  {
    Uncons(c, tail);
  }

  /** `F` is `M`, which reads `m` units, with `k` more retained. */
  ghost predicate IsPad(F: seq<Op>, M: seq<Op>, m: int, k: nat) {
    F == Pad(M, k) && Consumed(F) == m + k
  }

  /** The one that reads more is the other with the difference retained. */
  ghost predicate PadsTo(G: seq<Op>, F: seq<Op>) {
    forall d: nat :: Consumed(F) == Consumed(G) + d ==> F == Pad(G, d)
  }

  lemma PadApart(F: seq<Op>, G: seq<Op>, M: seq<Op>, m: int, j: nat, k: nat)
    requires IsPad(F, M, m, j) && IsPad(G, M, m, k)
    ensures PadsTo(G, F)
  {
    forall d: nat | Consumed(F) == Consumed(G) + d
      ensures F == Pad(G, d)
    {
      PadTwice(M, G, F, k, d, j);
    }
  }

  /** Rebased with a longer and with a shorter run of retained units at the end, a changeset
      differs in no more than that. */
  lemma TailPads(a: seq<Op>, c: seq<Op>, long: seq<Op>, short: seq<Op>)
    requires Positive(a) && Positive(c)
    requires Positive(long) && AllRetain(long) && Positive(short) && AllRetain(short)
    ensures Positive(c + long) && Positive(c + short)
    ensures PadsTo(Merged(RawFollow(a, c + short)), Merged(RawFollow(a, c + long)))
  {
    var M, m := Merged(FollowFront(a, c).0), Consumed(FollowFront(a, c).0);
    var j := TailEmits(a, c, long);
    var k := TailEmits(a, c, short);
    PadApart(Merged(RawFollow(a, c + long)), Merged(RawFollow(a, c + short)), M, m, j, k);
  }

  lemma TailEmits(a: seq<Op>, c: seq<Op>, tail: seq<Op>) returns (k: nat)
    requires Positive(a) && Positive(c) && Positive(tail) && AllRetain(tail)
    ensures Positive(c + tail)
    ensures IsPad(Merged(RawFollow(a, c + tail)), Merged(FollowFront(a, c).0), Consumed(FollowFront(a, c).0), k)
  {
    var (front, rest) := FollowFront(a, c);
    FollowTail(a, c, tail);
    RetainsOverIdentity(rest, tail);
    MergedTail(front, RawFollow(rest, tail));
    k := Consumed(RawFollow(rest, tail));
  }

  lemma MergedTail(front: seq<Op>, retains: seq<Op>)
    requires Positive(front) && Positive(retains) && AllRetain(retains)
    ensures IsPad(Merged(front + retains), Merged(front), Consumed(front), Consumed(retains))
  {
    AddAllConcat([], front, retains);
    PadAll(Merged(front), retains);
    LengthsConcat(front, retains);
    MergedMeaning(front + retains);
  }

  /** `longer` is `shorter` with units retained up to `n`. */
  ghost predicate Padded(shorter: seq<Op>, longer: seq<Op>, n: int) {
    && Positive(shorter) && Positive(longer)
    && Consumed(shorter) <= n && longer == Pad(shorter, n - Consumed(shorter))
  }

  lemma PadPositive(ops: seq<Op>, k: nat)
    requires Positive(ops)
    ensures Positive(Pad(ops, k)) && Consumed(Pad(ops, k)) == Consumed(ops) + k
    ensures Produced(Pad(ops, k)) == Produced(ops) + k
    ensures Canonical(ops) ==> Canonical(Pad(ops, k))
  {
    if k > 0 {
      AddOpLengths(ops, Retain(k));
      if Canonical(ops) {
        AddOpCanonical(ops, Retain(k));
      }
    }
  }

  /** A padded list ends in one run of retained units, the list itself in a shorter one. */
  lemma PadSplits(ops: seq<Op>, k: nat) returns (c: seq<Op>, long: seq<Op>, short: seq<Op>)
    requires Positive(ops)
    ensures Positive(c) && Positive(long) && AllRetain(long) && Positive(short) && AllRetain(short)
    ensures Pad(ops, k) == c + long && ops == c + short
  {
    if k > 0 && ops != [] && ops[|ops| - 1].Retain? {
      SplitsRetain(ops, k);
      c, short := ops[..|ops| - 1], [ops[|ops| - 1]];
      long := [Retain(ops[|ops| - 1].len + k)];
    } else {
      Units(ops);
      c, short := ops, [];
      long := if k > 0 then [Retain(k)] else [];
    }
  }

  lemma SplitsRetain(ops: seq<Op>, k: nat)
    requires k > 0 && ops != [] && ops[|ops| - 1].Retain?
    ensures Pad(ops, k) == ops[..|ops| - 1] + [Retain(ops[|ops| - 1].len + k)]
    ensures ops == ops[..|ops| - 1] + [ops[|ops| - 1]]
  {}

  lemma PadFollows(a: seq<Op>, ops: seq<Op>, padded: seq<Op>, k: nat)
    requires Positive(a) && Positive(ops) && Positive(padded) && padded == Pad(ops, k)
    ensures PadsTo(Merged(RawFollow(a, ops)), Merged(RawFollow(a, padded)))
  {
    var c, long, short := PadSplits(ops, k);
    TailPads(a, c, long, short);
  }

  lemma PadsPadded(G: seq<Op>, F: seq<Op>, n: int)
    requires PadsTo(G, F) && Positive(G) && Positive(F) && Consumed(G) <= n && Consumed(F) == n
    ensures Padded(G, F, n)
  {}

  lemma PaddedPads(A: Changeset, shorter: Changeset, longer: Changeset)
    requires Positive(A.ops) && Padded(shorter.ops, longer.ops, A.oldLen)
    ensures PadsTo(Rebased(A, shorter).ops, Rebased(A, longer).ops)
  {
    PadFollows(A.ops, shorter.ops, longer.ops, A.oldLen - Consumed(shorter.ops));
  }

  lemma PaddedFollows(A: Changeset, shorter: Changeset, longer: Changeset)
    requires Valid(A) && Padded(shorter.ops, longer.ops, A.oldLen)
    ensures Padded(Rebased(A, shorter).ops, Rebased(A, longer).ops, A.newLen)
  {
    PaddedPads(A, shorter, longer);
    PaddedReads(shorter.ops, longer.ops, A.oldLen);
    RebasedLands(A, shorter);
    RebasedReadsAll(A, longer);
    PadsPadded(Rebased(A, shorter).ops, Rebased(A, longer).ops, A.newLen);
  }

  lemma PaddedReads(shorter: seq<Op>, longer: seq<Op>, n: int)
    requires Padded(shorter, longer, n)
    ensures Consumed(longer) == n && Consumed(shorter) <= n
  {
    PadPositive(shorter, n - Consumed(shorter));
  }

  lemma RebasedReadsAll(A: Changeset, B: Changeset)
    requires Valid(A) && Positive(B.ops) && Consumed(B.ops) == A.oldLen
    ensures Positive(Rebased(A, B).ops) && Consumed(Rebased(A, B).ops) == A.newLen
  {
    RebasedLands(A, B);
    LandsAtEnd(A.ops);
  }

  lemma {:induction false} PaddedCatchesUp(text: Text, hist: seq<Changeset>, shorter: Changeset, longer: Changeset)
    requires Chained(text, hist) && Padded(shorter.ops, longer.ops, |text|)
    ensures AllPositive(hist)
    ensures Padded(Rebase(hist, shorter).ops, Rebase(hist, longer).ops, |TextAfter(text, hist)|)
    decreases |hist|
  {
    ChainedApplies(text, hist);
    if hist != [] {
      RunLength(text, hist[0].ops);
      PaddedFollows(hist[0], shorter, longer);
      PaddedCatchesUp(Run(text, hist[0].ops), hist[1..], Rebased(hist[0], shorter), Rebased(hist[0], longer));
    }
  }

  // ----- Fitted entries

  /** A changeset made to fit a text of `n` units: cut there, or the missing units retained. */
  function Fitted(C: Changeset, n: nat): Changeset
    requires Positive(C.ops)
  {
    if C.oldLen > n then Changeset(n, Produced(Upto(C.ops, n)), Upto(C.ops, n))
    else if C.oldLen < n then Changeset(n, C.newLen + (n - C.oldLen), Pad(C.ops, n - C.oldLen))
    else C
  }

  lemma FittedValid(C: Changeset, n: nat)
    requires Valid(C)
    ensures Valid(Fitted(C, n)) && Fitted(C, n).oldLen == n
    ensures Canonical(C.ops) ==> Normal(Fitted(C, n))
  {
    if C.oldLen > n {
      UptoConsumes(C.ops, n);
      if Canonical(C.ops) {
        UptoCanonical(C.ops, n);
      }
    } else if C.oldLen < n {
      PadPositive(C.ops, n - C.oldLen);
    }
  }

  lemma {:induction false} UptoCanonical(ops: seq<Op>, m: nat)
    requires Canonical(ops)
    ensures Canonical(Upto(ops, m)) && (Upto(ops, m) != [] ==> ops != [] && SameKind(Upto(ops, m)[0], ops[0]))
    decreases |ops|
  {
    if ops != [] {
      CanonicalTail(ops);
      if ops[0].Insert? {
        UptoCanonical(ops[1..], m);
        UptoTail(ops, m);
        CanonicalCons(Upto(ops, m), Upto(ops[1..], m), ops);
      } else if 0 < ops[0].len <= m {
        UptoCanonical(ops[1..], m - ops[0].len);
        UptoTail(ops, m);
        CanonicalCons(Upto(ops, m), Upto(ops[1..], m - ops[0].len), ops);
      }
    }
  }

  lemma CanonicalCons(cut: seq<Op>, rest: seq<Op>, ops: seq<Op>)
    requires Canonical(ops) && ops != [] && Positive(cut) && cut != [] && cut[1..] == rest
    requires SameKind(cut[0], ops[0]) && Canonical(rest)
    requires rest != [] ==> |ops| > 1 && SameKind(rest[0], ops[1])
    ensures Canonical(cut)
  {
    forall k | 0 < k < |cut|
      ensures !SameKind(cut[k - 1], cut[k])
    {
      assert cut[k] == rest[k - 1] && (k > 1 ==> cut[k - 1] == rest[k - 2]);
    }
  }

  /** The changeset an entry has become when it is applied, if it was written for a text longer
      than the one at its base. */
  lemma CutCatchesUp(text: Text, hist: seq<Changeset>, C: Changeset)
    requires Chained(text, hist) && hist != [] && Valid(C) && C.oldLen > |text|
    ensures AllPositive(hist) && Valid(Fitted(C, |text|))
    ensures Rebase(hist, C) == Rebase(hist, Fitted(C, |text|))
  {
    ChainedApplies(text, hist);
    FittedValid(C, |text|);
    RawFollowCuts(hist[0].ops, C.ops);
  }

  /** Every entry that is accepted over missed revisions commits what it commits when fitted to
      the text at its base: the same record, text and map, and the same answer. */
  lemma AcceptedIsFitted(init: Text, s: SnapshotData, e: Entry)
    requires Inv(init, s) && Admissible(e) && 0 <= e.baseRev < s.headRev
    ensures Runnable(s)
    ensures var fitted := e.(changeset := Fitted(e.changeset, |TextAt(init, s, e.baseRev)|));
      && Admissible(fitted) && fitted.changeset.oldLen == |TextAt(init, s, e.baseRev)|
      && (Accepts(s, e) ==> Next(s, fitted) == Next(s, e) && Result(s, fitted) == Result(s, e))
  {
    InvMeans(init, s);
    var text, hist := TextAt(init, s, e.baseRev), Changes(s.revisionLog);
    var fitted := e.(changeset := Fitted(e.changeset, |text|));
    FittedValid(e.changeset, |text|);
    ChainedPrefix(init, hist, e.baseRev);
    if Accepts(s, e) {
      AcceptedReads(s, e);
      FittedCatchesUp(text, hist[e.baseRev..], e.changeset);
      NextDepends(s, e, fitted);
    }
  }

  lemma AcceptedReads(s: SnapshotData, e: Entry)
    requires Runnable(s) && Admissible(e) && Accepts(s, e)
    ensures Consumed(CaughtUp(s, e).ops) == CaughtUp(s, e).oldLen == |s.headText|
  {
    ApplyExact(s.headText, CaughtUp(s, e));
  }

  lemma FittedCatchesUp(text: Text, hist: seq<Changeset>, C: Changeset)
    requires Chained(text, hist) && hist != [] && Valid(C) && AllPositive(hist)
    requires Consumed(Rebase(hist, C).ops) == |TextAfter(text, hist)|
    ensures Valid(Fitted(C, |text|)) && Rebase(hist, C) == Rebase(hist, Fitted(C, |text|))
  {
    var D := Fitted(C, |text|);
    FittedValid(C, |text|);
    if C.oldLen > |text| {
      CutCatchesUp(text, hist, C);
    } else if C.oldLen < |text| {
      PaddedCatchesUp(text, hist, C, D);
      RebaseReads(text, hist, C);
      RebaseReads(text, hist, D);
      RebaseNewLen(hist, C);
      RebaseNewLen(hist, D);
    }
  }

  /** So the head text after any accepted entry is the old base text with the fitted change
      applied first and the missed revisions rebased over it. */
  lemma AcceptedMergesFitted(init: Text, s: SnapshotData, e: Entry)
    requires Inv(init, s) && AllNormal(Changes(s.revisionLog)) && Admissible(e) && Canonical(e.changeset.ops)
    requires 0 <= e.baseRev < s.headRev && Runnable(s) && Accepts(s, e)
    ensures var C := Fitted(e.changeset, |TextAt(init, s, e.baseRev)|);
      && Normal(C) && C.oldLen == |TextAt(init, s, e.baseRev)|
      && var mine, theirs := Run(TextAt(init, s, e.baseRev), C.ops), Ladder(Missed(s, e.baseRev), C);
        Chained(mine, theirs) && Next(s, e).headText == TextAfter(mine, theirs)
  {
    FittedValid(e.changeset, |TextAt(init, s, e.baseRev)|);
    AcceptedIsFitted(init, s, e);
    AcceptedMerges(init, s, e.(changeset := Fitted(e.changeset, |TextAt(init, s, e.baseRev)|)));
  }

  /** An accepted entry that names the head revision, or a later one, is committed as it came. */
  lemma AheadCommitsAsIs(init: Text, s: SnapshotData, e: Entry)
    requires Inv(init, s) && Admissible(e) && e.baseRev >= s.headRev
    ensures Runnable(s)
    ensures Accepts(s, e) ==>
      && Consumed(e.changeset.ops) == |s.headText|
      && Next(s, e).headText == Run(s.headText, e.changeset.ops)
      && Next(s, e).revisionLog == s.revisionLog + [Revision(s.headRev, e.changeset, e.clientId)]
  {
    InvMeans(init, s);
    assert Missed(s, e.baseRev) == [];
    ApplyExact(s.headText, e.changeset);
  }
}
