/** What a list of ops does to the single units of a text: which it keeps, in which gaps it
    inserts, and where each unit it writes comes from. Merging adjacent ops changes none of it. */
module Views {
  import opened Texts
  import opened Changesets
  import opened Application
  import opened Cursors
  import opened Follow
  import opened Merge
  import opened Compose
  import opened Selection

  // ----- What is kept and where text is inserted

  function GapOne(op: Op, i: nat): seq<Text> {
    if op.Insert? && i == 0 then [op.chars] else []
  }

  lemma ViewCons(op: Op, rest: seq<Op>, i: nat)
    requires PositiveOp(op) && Positive(rest)
    ensures i < InLen(op) ==> KeptAt([op] + rest, i) == op.Retain? && GapAt([op] + rest, i) == []
    ensures i >= InLen(op) ==> KeptAt([op] + rest, i) == KeptAt(rest, i - InLen(op))
    ensures i >= InLen(op) ==> GapAt([op] + rest, i) == GapOne(op, i) + GapAt(rest, i - InLen(op))
  {
    assert ([op] + rest)[1..] == rest;
    if i >= InLen(op) {
      Units(GapAt(rest, i - InLen(op)));
    }
  }

  /** What is kept by two lists of ops, one after the other. */
  lemma {:induction false} KeptConcat(p: seq<Op>, q: seq<Op>, i: nat)
    requires Positive(p) && Positive(q)
    ensures KeptAt(p + q, i) == if i < Consumed(p) then KeptAt(p, i) else KeptAt(q, i - Consumed(p))
    decreases |p|
  {
    if p == [] {
      Units(q);
    } else {
      Uncons(p, q);
      Uncons(p, []);
      Units(p);
      ViewCons(p[0], p[1..], i);
      ViewCons(p[0], p[1..] + q, i);
      if i >= InLen(p[0]) {
        KeptConcat(p[1..], q, i - InLen(p[0]));
      }
    }
  }

  /** What is inserted by them. */
  lemma {:induction false} GapConcat(p: seq<Op>, q: seq<Op>, i: nat)
    requires Positive(p) && Positive(q)
    ensures GapAt(p + q, i) == GapAt(p, i) + if i < Consumed(p) then [] else GapAt(q, i - Consumed(p))
    decreases |p|
  {
    if p == [] {
      Units(q);
    } else {
      Uncons(p, q);
      Uncons(p, []);
      Units(p);
      ViewCons(p[0], p[1..], i);
      ViewCons(p[0], p[1..] + q, i);
      var n := InLen(p[0]);
      if i >= n {
        GapConcat(p[1..], q, i - n);
        Assoc(GapOne(p[0], i), GapAt(p[1..], i - n), if i < Consumed(p) then [] else GapAt(q, i - Consumed(p)));
      }
    }
  }

  lemma ViewConcat(p: seq<Op>, q: seq<Op>, i: nat)
    requires Positive(p) && Positive(q)
    ensures i < Consumed(p) ==> KeptAt(p + q, i) == KeptAt(p, i) && GapAt(p + q, i) == GapAt(p, i)
    ensures i >= Consumed(p) ==> KeptAt(p + q, i) == KeptAt(q, i - Consumed(p))
    ensures i >= Consumed(p) ==> GapAt(p + q, i) == GapAt(p, i) + GapAt(q, i - Consumed(p))
  {
    KeptConcat(p, q, i);
    GapConcat(p, q, i);
    Units(GapAt(p, i));
  }

  /** Two lists that keep the same units and insert in the same gaps. */
  ghost predicate SameView(p: seq<Op>, q: seq<Op>) {
    && Positive(p) && Positive(q) && Consumed(p) == Consumed(q)
    && forall i: nat :: KeptAt(p, i) == KeptAt(q, i) && (GapAt(p, i) == [] <==> GapAt(q, i) == [])
  }

  lemma ViewBefore(r: seq<Op>, p: seq<Op>, q: seq<Op>)
    requires Positive(r) && SameView(p, q)
    ensures SameView(r + p, r + q)
  {
    LengthsConcat(r, p);
    LengthsConcat(r, q);
    forall i: nat
      ensures KeptAt(r + p, i) == KeptAt(r + q, i) && (GapAt(r + p, i) == [] <==> GapAt(r + q, i) == [])
    {
      ViewConcat(r, p, i);
      ViewConcat(r, q, i);
    }
  }

  lemma ViewBehind(p: seq<Op>, q: seq<Op>, r: seq<Op>)
    requires Positive(r) && SameView(p, q)
    ensures SameView(p + r, q + r)
  {
    LengthsConcat(p, r);
    LengthsConcat(q, r);
    forall i: nat
      ensures KeptAt(p + r, i) == KeptAt(q + r, i) && (GapAt(p + r, i) == [] <==> GapAt(q + r, i) == [])
    {
      ViewConcat(p, r, i);
      ViewConcat(q, r, i);
    }
  }

  lemma ViewOne(op: Op, i: nat)
    requires PositiveOp(op)
    ensures KeptAt([op], i) == (op.Retain? && i < op.len)
    ensures GapAt([op], i) == if op.Insert? && i == 0 then [op.chars] else []
  {
    assert [op][1..] == [];
  }

  lemma JoinView(x: Op, y: Op)
    requires PositiveOp(x) && PositiveOp(y) && SameKind(x, y)
    ensures SameView([Join(x, y)], [x] + [y])
  {
    LengthsConcat([x], [y]);
    LengthsSingle(x);
    LengthsSingle(y);
    LengthsSingle(Join(x, y));
    forall i: nat
      ensures KeptAt([Join(x, y)], i) == KeptAt([x] + [y], i)
      ensures GapAt([Join(x, y)], i) == [] <==> GapAt([x] + [y], i) == []
    {
      ViewConcat([x], [y], i);
      ViewOne(x, i);
      ViewOne(Join(x, y), i);
      if i >= InLen(x) {
        ViewOne(y, i - InLen(x));
      }
    }
  }

  lemma AddOpView(ops: seq<Op>, op: Op)
    requires Positive(ops) && PositiveOp(op)
    ensures SameView(AddOp(ops, op), ops + [op])
  {
    AddOpMeaning(ops, op);
    if ops != [] && SameKind(ops[|ops| - 1], op) {
      var front, last := ops[..|ops| - 1], ops[|ops| - 1];
      JoinView(last, op);
      ViewBefore(front, [Join(last, op)], [last] + [op]);
      Assoc(front, [last], [op]);
      assert ops == front + [last];
    }
  }

  lemma {:induction false} AddAllView(ops: seq<Op>, raw: seq<Op>)
    requires Positive(ops) && Positive(raw)
    ensures SameView(AddAll(ops, raw), ops + raw)
    decreases |raw|
  {
    if raw == [] {
      Units(ops);
    } else {
      AddOpView(ops, raw[0]);
      AddAllView(AddOp(ops, raw[0]), raw[1..]);
      ViewBehind(AddOp(ops, raw[0]), ops + [raw[0]], raw[1..]);
      Assoc(ops, [raw[0]], raw[1..]);
      Uncons(raw, []);
      Units(raw);
    }
  }

  // ----- Where the units of the result come from

  function Plus(o: Option<nat>, n: nat): Option<nat> {
    if o.Some? then Some(o.value + n) else None
  }

  /** The source unit that unit `k` of the result is, if it is not inserted. */
  function Origin(ops: seq<Op>, k: nat): Option<nat>
    requires Positive(ops)
    decreases |ops|
  {
    if ops == [] then None
    else match ops[0]
      case Retain(n) => if k < n then Some(k) else Plus(Origin(ops[1..], k - n), n)
      case Insert(s) => if k < |s| then None else Origin(ops[1..], k - |s|)
      case Delete(n) => Plus(Origin(ops[1..], k), n)
  }

  /** It is the kept unit that lands there. */
  lemma {:induction false} OriginIsPlace(ops: seq<Op>, k: nat, i: nat)
    requires Positive(ops)
    ensures Origin(ops, k) == Some(i) <==> KeptAt(ops, i) && Landing(ops, i) == k
    decreases |ops|
  {
    if ops != [] {
      match ops[0]
      case Retain(n) => if k >= n && i >= n { OriginIsPlace(ops[1..], k - n, i - n); }
      case Insert(s) => if k >= |s| { OriginIsPlace(ops[1..], k - |s|, i); }
      case Delete(n) => if i >= n { OriginIsPlace(ops[1..], k, i - n); }
    }
  }

  lemma {:induction false} OriginInside(ops: seq<Op>, k: nat)
    requires Positive(ops) && Origin(ops, k).Some?
    ensures Origin(ops, k).value < Consumed(ops)
    decreases |ops|
  {
    match ops[0]
    case Retain(n) => if k >= n { OriginInside(ops[1..], k - n); }
    case Insert(s) => OriginInside(ops[1..], k - |s|);
    case Delete(n) => OriginInside(ops[1..], k);
  }

  /** And it is the same unit. */
  lemma OriginText(doc: Text, ops: seq<Op>, k: nat)
    requires Positive(ops) && Consumed(ops) == |doc| && Origin(ops, k).Some?
    ensures Origin(ops, k).value < |doc| && k < |Run(doc, ops)|
    ensures Run(doc, ops)[k] == doc[Origin(ops, k).value]
  {
    var i := Origin(ops, k).value;
    OriginInside(ops, k);
    OriginIsPlace(ops, k, i);
    LandsOnSameUnit(doc, ops, i);
  }

  /** The first `n` units of a list's first op. */
  lemma OriginAfter(ops: seq<Op>, n: nat, k: nat)
    requires Positive(ops) && ops != [] && 0 < n <= OpLen(ops[0])
    ensures Origin(ops, k) == OriginPast(ops[0], n, After(ops, n), k)
  {
    OriginHead(ops, k);
    if n < OpLen(ops[0]) {
      OriginSplit(ops[0], n, ops[1..], k);
    }
  }

  lemma OriginHead(ops: seq<Op>, k: nat)
    requires Positive(ops) && ops != []
    ensures Origin(ops, k) == OriginPast(ops[0], OpLen(ops[0]), ops[1..], k)
  {
    match ops[0]
    case Retain(n) =>
    case Insert(s) =>
    case Delete(n) =>
  }

  lemma OriginSplit(op: Op, n: nat, rest: seq<Op>, k: nat)
    requires PositiveOp(op) && Positive(rest) && 0 < n < OpLen(op)
    ensures Positive([Cut(op, n)] + rest)
    ensures OriginPast(op, OpLen(op), rest, k) == OriginPast(op, n, [Cut(op, n)] + rest, k)
  {
    if op.Delete? {
      OriginCons(Cut(op, n), rest, k);
    } else if k >= n {
      OriginCons(Cut(op, n), rest, k - n);
    }
  }

  /** Unit `k` behind `n` units of `op` and then `rest`. */
  function OriginPast(op: Op, n: nat, rest: seq<Op>, k: nat): Option<nat>
    requires Positive(rest)
  {
    match op
    case Retain(_) => if k < n then Some(k) else Plus(Origin(rest, k - n), n)
    case Insert(_) => if k < n then None else Origin(rest, k - n)
    case Delete(_) => Plus(Origin(rest, k), n)
    case Unknown(_) => None
  }

  lemma OriginCons(op: Op, rest: seq<Op>, k: nat)
    requires PositiveOp(op) && Positive(rest)
    ensures Positive([op] + rest) && Origin([op] + rest, k) == OriginPast(op, OpLen(op), rest, k)
  {
    assert ([op] + rest)[1..] == rest;
  }

  // ----- Rebasing keeps what the other side wrote

  lemma KeptCons(op: Op, rest: seq<Op>, k: nat)
    requires PositiveOp(op) && Positive(rest)
    ensures KeptAt([op] + rest, k) ==
      if k < InLen(op) then op.Retain? else KeptAt(rest, k - InLen(op))
  {
    ViewCons(op, rest, k);
  }

  /** Whether `B` has nothing against a unit of `A`'s result: `A` inserted it, or it is a unit of
      the document that `B` retains. */
  predicate Spares(b: seq<Op>, origin: Option<nat>) {
    origin.None? || KeptAt(b, origin.value)
  }

  /** Rebased over `A`, `B` retains exactly the units of `A`'s result that `A` inserted or that
      `B` itself retains: it never deletes what `A` inserted, and deletes again nothing that `A`
      deleted. */
  lemma {:induction false} RawFollowKeeps(a: seq<Op>, b: seq<Op>, k: nat)
    requires Positive(a) && Positive(b) && Consumed(a) <= Consumed(b) && k < Produced(a)
    ensures KeptAt(RawFollow(a, b), k) <==> Spares(b, Origin(a, k))
    decreases |a| + |b|
  {
    if TakesA(a, b) {
      var n := |a[0].chars|;
      KeptCons(Retain(n), RawFollow(a[1..], b), k);
      if k >= n {
        RawFollowKeeps(a[1..], b, k - n);
      }
    } else if b != [] && b[0].Insert? {
      KeptCons(b[0], RawFollow(a, b[1..]), k);
      RawFollowKeeps(a, b[1..], k);
    } else if a != [] {
      var n := Min(a[0].len, b[0].len);
      var k' := if a[0].Retain? then k - n else k;
      AfterLengths(a, n);
      AfterLengths(b, n);
      if k' >= 0 {
        RawFollowKeeps(After(a, n), After(b, n), k');
      }
      OverlapKeeps(a, b, n, k, k');
    }
  }

  lemma OverlapKeeps(a: seq<Op>, b: seq<Op>, n: nat, k: nat, k': int)
    requires Aligned(a, b, n) && n == Min(a[0].len, b[0].len) && k' == if a[0].Retain? then k - n else k
    requires k' >= 0 ==>
      (KeptAt(RawFollow(After(a, n), After(b, n)), k') <==> Spares(After(b, n), Origin(After(a, n), k')))
    ensures KeptAt(RawFollow(a, b), k) <==> Spares(b, Origin(a, k))
  {
    var rest := RawFollow(After(a, n), After(b, n));
    OriginAfter(a, n, k);
    if a[0].Retain? {
      KeptCons(if b[0].Retain? then Retain(n) else Delete(n), rest, k);
    } else {
      Units(rest);
    }
    if k' < 0 {
      GapShift(b, n, k);
    } else if Origin(After(a, n), k').Some? {
      GapShift(b, n, Origin(After(a, n), k').value);
    }
  }

  /** The same for the merged output. */
  lemma RebasedKeeps(A: Changeset, B: Changeset, k: nat)
    requires Valid(A) && Positive(B.ops) && A.oldLen <= Consumed(B.ops) && k < A.newLen
    ensures Positive(Rebased(A, B).ops)
    ensures KeptAt(Rebased(A, B).ops, k) <==> Spares(B.ops, Origin(A.ops, k))
  {
    var raw := RawFollow(A.ops, B.ops);
    Units(raw);
    AddAllView([], raw);
    RawFollowKeeps(A.ops, B.ops, k);
  }

  // ----- Origins through composition and merging

  /** A unit of the second result, traced back through both. */
  function Traced(a: seq<Op>, o: Option<nat>): Option<nat>
    requires Positive(a)
  {
    if o.Some? then Origin(a, o.value) else None
  }

  /** A composition takes every unit from where the two steps take it. */
  lemma {:induction false} RawComposeOrigin(a: seq<Op>, b: seq<Op>, k: nat)
    requires Positive(a) && Positive(b) && Produced(a) == Consumed(b)
    ensures Origin(RawCompose(a, b), k) == Traced(a, Origin(b, k))
    decreases |a| + |b|
  {
    if b != [] && b[0].Insert? {
      var n := |b[0].chars|;
      OriginCons(b[0], RawCompose(a, b[1..]), k);
      if k >= n {
        RawComposeOrigin(a, b[1..], k - n);
      }
    } else if a != [] && a[0].Delete? {
      OriginCons(a[0], RawCompose(a[1..], b), k);
      RawComposeOrigin(a[1..], b, k);
    } else if a != [] && b != [] {
      var n := Min(OpLen(a[0]), b[0].len);
      var k' := if b[0].Retain? then k - n else k;
      WriteLengths(a, n);
      AfterLengths(b, n);
      if k' >= 0 {
        RawComposeOrigin(After(a, n), After(b, n), k');
      }
      ThroughOrigin(a, b, n, k, k');
    }
  }

  lemma WriteLengths(ops: seq<Op>, n: nat)
    requires Positive(ops) && ops != [] && !ops[0].Delete? && 0 < n <= OpLen(ops[0])
    ensures Produced(After(ops, n)) == Produced(ops) - n
  {
    if n < OpLen(ops[0]) {
      assert After(ops, n)[1..] == ops[1..];
    }
  }

  lemma ThroughOrigin(a: seq<Op>, b: seq<Op>, n: nat, k: nat, k': int)
    requires Positive(a) && a != [] && !a[0].Delete? && Positive(b) && b != [] && !b[0].Insert?
    requires n == Min(OpLen(a[0]), b[0].len) && k' == if b[0].Retain? then k - n else k
    requires k' >= 0 ==>
      Origin(RawCompose(After(a, n), After(b, n)), k') == Traced(After(a, n), Origin(After(b, n), k'))
    ensures Origin(RawCompose(a, b), k) == Traced(a, Origin(b, k))
  {
    EmittedOrigin(a, b, n, k);
    OriginAfter(b, n, k);
    if k' < 0 {
      OriginAfter(a, n, k);
    } else {
      var o := Origin(After(b, n), k');
      assert Origin(b, k) == Plus(o, n);
      TracedPast(a, n, o);
    }
  }

  /** A place behind the first `n` units that `a` writes. */
  lemma TracedPast(a: seq<Op>, n: nat, o: Option<nat>)
    requires Positive(a) && a != [] && !a[0].Delete? && 0 < n <= OpLen(a[0])
    ensures Traced(a, Plus(o, n)) ==
      if a[0].Retain? then Plus(Traced(After(a, n), o), n) else Traced(After(a, n), o)
  {
    if o.Some? {
      OriginAfter(a, n, o.value + n);
    }
  }

  lemma EmittedOrigin(a: seq<Op>, b: seq<Op>, n: nat, k: nat)
    requires Positive(a) && a != [] && !a[0].Delete? && Positive(b) && b != [] && !b[0].Insert?
    requires n == Min(OpLen(a[0]), b[0].len)
    ensures var rest, emitted := RawCompose(After(a, n), After(b, n)), Through(a[0], b[0], n);
      Origin(RawCompose(a, b), k) == if emitted == [] then Origin(rest, k) else OriginPast(emitted[0], n, rest, k)
  {
    var rest, emitted := RawCompose(After(a, n), After(b, n)), Through(a[0], b[0], n);
    if emitted != [] {
      OriginCons(emitted[0], rest, k);
    } else {
      Units(rest);
    }
  }

  lemma {:induction false} OriginConcat(p: seq<Op>, q: seq<Op>, k: nat)
    requires Positive(p) && Positive(q)
    ensures Positive(p + q)
    ensures Origin(p + q, k) == if k < Produced(p) then Origin(p, k) else Plus(Origin(q, k - Produced(p)), Consumed(p))
    decreases |p|
  {
    if p == [] {
      Units(q);
    } else {
      var k' := k - OutLen(p[0]);
      Uncons(p, q);
      OriginCons(p[0], p[1..] + q, k);
      if k' >= 0 {
        OriginConcat(p[1..], q, k');
      }
    }
  }

  /** Two lists of ops that take every unit from the same place. */
  ghost predicate SameOrigins(p: seq<Op>, q: seq<Op>) {
    && Positive(p) && Positive(q) && Consumed(p) == Consumed(q) && Produced(p) == Produced(q)
    && forall k: nat :: Origin(p, k) == Origin(q, k)
  }

  lemma OriginsBefore(r: seq<Op>, p: seq<Op>, q: seq<Op>)
    requires Positive(r) && SameOrigins(p, q)
    ensures SameOrigins(r + p, r + q)
  {
    LengthsConcat(r, p);
    LengthsConcat(r, q);
    forall k: nat
      ensures Origin(r + p, k) == Origin(r + q, k)
    {
      OriginConcat(r, p, k);
      OriginConcat(r, q, k);
    }
  }

  lemma OriginsBehind(p: seq<Op>, q: seq<Op>, r: seq<Op>)
    requires Positive(r) && SameOrigins(p, q)
    ensures SameOrigins(p + r, q + r)
  {
    LengthsConcat(p, r);
    LengthsConcat(q, r);
    forall k: nat
      ensures Origin(p + r, k) == Origin(q + r, k)
    {
      OriginConcat(p, r, k);
      OriginConcat(q, r, k);
    }
  }

  lemma OriginOne(op: Op, k: nat)
    requires PositiveOp(op)
    ensures Origin([op], k) == if op.Retain? && k < op.len then Some(k) else None
  {
    assert [op][1..] == [];
  }

  lemma JoinOrigins(x: Op, y: Op)
    requires PositiveOp(x) && PositiveOp(y) && SameKind(x, y)
    ensures SameOrigins([Join(x, y)], [x] + [y])
  {
    LengthsConcat([x], [y]);
    LengthsSingle(x);
    LengthsSingle(y);
    LengthsSingle(Join(x, y));
    forall k: nat
      ensures Origin([Join(x, y)], k) == Origin([x] + [y], k)
    {
      OriginConcat([x], [y], k);
      OriginOne(x, k);
      OriginOne(Join(x, y), k);
      if k >= OutLen(x) {
        OriginOne(y, k - OutLen(x));
      }
    }
  }

  lemma AddOpOrigins(ops: seq<Op>, op: Op)
    requires Positive(ops) && PositiveOp(op)
    ensures SameOrigins(AddOp(ops, op), ops + [op])
  {
    AddOpMeaning(ops, op);
    if ops != [] && SameKind(ops[|ops| - 1], op) {
      var front, last := ops[..|ops| - 1], ops[|ops| - 1];
      JoinOrigins(last, op);
      OriginsBefore(front, [Join(last, op)], [last] + [op]);
      Assoc(front, [last], [op]);
      assert ops == front + [last];
    }
  }

  lemma {:induction false} AddAllOrigins(ops: seq<Op>, raw: seq<Op>)
    requires Positive(ops) && Positive(raw)
    ensures SameOrigins(AddAll(ops, raw), ops + raw)
    decreases |raw|
  {
    if raw == [] {
      Units(ops);
    } else {
      AddOpOrigins(ops, raw[0]);
      AddAllOrigins(AddOp(ops, raw[0]), raw[1..]);
      OriginsBehind(AddOp(ops, raw[0]), ops + [raw[0]], raw[1..]);
      MoveOne(ops, raw);
    }
  }

  lemma ComposedOrigin(A: Changeset, B: Changeset, k: nat)
    requires Positive(A.ops) && Positive(B.ops) && Produced(A.ops) == Consumed(B.ops)
    ensures Positive(Composed(A, B).ops)
    ensures Origin(Composed(A, B).ops, k) == Traced(A.ops, Origin(B.ops, k))
  {
    var raw := RawCompose(A.ops, B.ops);
    Units(raw);
    AddAllOrigins([], raw);
    RawComposeOrigin(A.ops, B.ops, k);
  }

  // ----- Landing places through composition and merging

  /** Where `p` lands behind `n` units of `op` and then `rest`. */
  function LandingBehind(op: Op, n: nat, rest: seq<Op>, p: nat): nat
    requires Positive(rest)
  {
    match op
    case Retain(_) => if p < n then p else n + Landing(rest, p - n)
    case Insert(_) => n + Landing(rest, p)
    case Delete(_) => if p < n then 0 else Landing(rest, p - n)
    case Unknown(_) => 0
  }

  lemma LandingHead(ops: seq<Op>, p: nat)
    requires Positive(ops) && ops != []
    ensures Landing(ops, p) == LandingBehind(ops[0], OpLen(ops[0]), ops[1..], p)
  {}

  lemma LandingCons(op: Op, rest: seq<Op>, p: nat)
    requires PositiveOp(op) && Positive(rest)
    ensures Positive([op] + rest) && Landing([op] + rest, p) == LandingBehind(op, OpLen(op), rest, p)
  {
    assert ([op] + rest)[1..] == rest;
  }

  lemma LandingCut(ops: seq<Op>, n: nat, p: nat)
    requires Positive(ops) && ops != [] && 0 < n <= OpLen(ops[0])
    ensures Landing(ops, p) == LandingBehind(ops[0], n, After(ops, n), p)
  {
    LandingHead(ops, p);
    if n < OpLen(ops[0]) {
      LandingSplit(ops[0], n, ops[1..], p);
    }
  }

  lemma LandingSplit(op: Op, n: nat, rest: seq<Op>, p: nat)
    requires PositiveOp(op) && Positive(rest) && 0 < n < OpLen(op)
    ensures Positive([Cut(op, n)] + rest)
    ensures LandingBehind(op, OpLen(op), rest, p) == LandingBehind(op, n, [Cut(op, n)] + rest, p)
  {
    if op.Insert? {
      LandingCons(Cut(op, n), rest, p);
    } else if p >= n {
      LandingCons(Cut(op, n), rest, p - n);
    }
  }

  /** Where nothing is inserted first, the start lands at the start. */
  lemma LandingStart(ops: seq<Op>)
    requires Positive(ops) && (ops == [] || !ops[0].Insert?)
    ensures Landing(ops, 0) == 0
  {}

  ghost predicate ComposeLands(a: seq<Op>, b: seq<Op>, p: nat) {
    && Positive(a) && Positive(b)
    && Landing(RawCompose(a, b), p) == Landing(b, Landing(a, p))
  }

  /** A cursor moves through a composition as through the two steps: so a composition puts every
      insert where the two steps put it, in front of deleted units or behind them. */
  lemma {:induction false} RawComposeLands(a: seq<Op>, b: seq<Op>, p: nat)
    requires Positive(a) && Positive(b) && Produced(a) == Consumed(b)
    ensures ComposeLands(a, b, p)
    decreases |a| + |b|
  {
    if b != [] && b[0].Insert? {
      RawComposeLands(a, b[1..], p);
      InsertLands(a, b, p);
    } else if a != [] && a[0].Delete? {
      if p >= a[0].len {
        RawComposeLands(a[1..], b, p - a[0].len);
      }
      DeleteLands(a, b, p);
    } else if a != [] && b != [] {
      var n := Min(OpLen(a[0]), b[0].len);
      var p' := if a[0].Retain? then p - n else p;
      WriteLengths(a, n);
      AfterLengths(b, n);
      if p' >= 0 {
        RawComposeLands(After(a, n), After(b, n), p');
      }
      ThroughLands(a, b, n, p, p');
    } else {
      EndLands(a, b, p);
    }
  }

  lemma InsertLands(a: seq<Op>, b: seq<Op>, p: nat)
    requires Positive(b) && b != [] && b[0].Insert? && ComposeLands(a, b[1..], p)
    ensures ComposeLands(a, b, p)
  {
    LandingCons(b[0], RawCompose(a, b[1..]), p);
    LandingHead(b, Landing(a, p));
  }

  lemma DeleteLands(a: seq<Op>, b: seq<Op>, p: nat)
    requires Positive(a) && Positive(b) && (b == [] || !b[0].Insert?) && a != [] && a[0].Delete?
    requires p >= a[0].len ==> ComposeLands(a[1..], b, p - a[0].len)
    ensures ComposeLands(a, b, p)
  {
    LandingCons(a[0], RawCompose(a[1..], b), p);
    LandingHead(a, p);
    LandingStart(b);
  }

  lemma EndLands(a: seq<Op>, b: seq<Op>, p: nat)
    requires Positive(a) && Positive(b) && Produced(a) == Consumed(b)
    requires (b == [] || !b[0].Insert?) && (a == [] || !a[0].Delete?) && (a == [] || b == [])
    ensures ComposeLands(a, b, p)
  {}

  lemma ThroughLands(a: seq<Op>, b: seq<Op>, n: nat, p: nat, p': int)
    requires Positive(a) && a != [] && !a[0].Delete? && Positive(b) && b != [] && !b[0].Insert?
    requires n == Min(OpLen(a[0]), b[0].len) && p' == if a[0].Retain? then p - n else p
    requires p' >= 0 ==> ComposeLands(After(a, n), After(b, n), p')
    ensures ComposeLands(a, b, p)
  {
    EmittedLands(a, b, n, p);
    if p' < 0 {
      LandingCut(a, n, p);
      LandingCut(b, n, p);
    } else {
      LandsBeyond(a, n, p, p');
      LandedPast(b, n, Landing(After(a, n), p'));
    }
  }

  lemma LandsBeyond(a: seq<Op>, n: nat, p: nat, p': nat)
    requires Positive(a) && a != [] && !a[0].Delete? && 0 < n <= OpLen(a[0])
    requires p' == if a[0].Retain? then p - n else p
    ensures Landing(a, p) == n + Landing(After(a, n), p')
  {
    LandingCut(a, n, p);
  }

  /** A place behind the first `n` units that `b` reads. */
  lemma LandedPast(b: seq<Op>, n: nat, q: nat)
    requires Positive(b) && b != [] && !b[0].Insert? && 0 < n <= OpLen(b[0])
    ensures Landing(b, n + q) == (if b[0].Retain? then n else 0) + Landing(After(b, n), q)
  {
    LandingCut(b, n, n + q);
  }

  lemma EmittedLands(a: seq<Op>, b: seq<Op>, n: nat, p: nat)
    requires Positive(a) && a != [] && !a[0].Delete? && Positive(b) && b != [] && !b[0].Insert?
    requires n == Min(OpLen(a[0]), b[0].len)
    ensures var rest, emitted := RawCompose(After(a, n), After(b, n)), Through(a[0], b[0], n);
      Landing(RawCompose(a, b), p) == if emitted == [] then Landing(rest, p) else LandingBehind(emitted[0], n, rest, p)
  {
    var rest, emitted := RawCompose(After(a, n), After(b, n)), Through(a[0], b[0], n);
    if emitted != [] {
      LandingCons(emitted[0], rest, p);
    } else {
      Units(rest);
    }
  }

  lemma {:induction false} LandingConcat(p: seq<Op>, q: seq<Op>, i: nat)
    requires Positive(p) && Positive(q)
    ensures Positive(p + q)
    ensures Landing(p + q, i) == if i < Consumed(p) then Landing(p, i) else Produced(p) + Landing(q, i - Consumed(p))
    decreases |p|
  {
    if p == [] {
      Units(q);
    } else {
      Uncons(p, q);
      LandingCons(p[0], p[1..] + q, i);
      LandingHead(p, i);
      if i >= InLen(p[0]) {
        LandingConcat(p[1..], q, i - InLen(p[0]));
      }
    }
  }

  /** Two lists of ops that carry every cursor to the same place. */
  ghost predicate SameLandings(p: seq<Op>, q: seq<Op>) {
    && Positive(p) && Positive(q) && Consumed(p) == Consumed(q) && Produced(p) == Produced(q)
    && forall i: nat :: Landing(p, i) == Landing(q, i)
  }

  lemma LandingsBefore(r: seq<Op>, p: seq<Op>, q: seq<Op>)
    requires Positive(r) && SameLandings(p, q)
    ensures SameLandings(r + p, r + q)
  {
    LengthsConcat(r, p);
    LengthsConcat(r, q);
    forall i: nat
      ensures Landing(r + p, i) == Landing(r + q, i)
    {
      LandingConcat(r, p, i);
      LandingConcat(r, q, i);
    }
  }

  lemma LandingsBehind(p: seq<Op>, q: seq<Op>, r: seq<Op>)
    requires Positive(r) && SameLandings(p, q)
    ensures SameLandings(p + r, q + r)
  {
    LengthsConcat(p, r);
    LengthsConcat(q, r);
    forall i: nat
      ensures Landing(p + r, i) == Landing(q + r, i)
    {
      LandingConcat(p, r, i);
      LandingConcat(q, r, i);
    }
  }

  lemma JoinLandings(x: Op, y: Op)
    requires PositiveOp(x) && PositiveOp(y) && SameKind(x, y)
    ensures SameLandings([Join(x, y)], [x] + [y])
  {
    LengthsConcat([x], [y]);
    LengthsSingle(x);
    LengthsSingle(y);
    LengthsSingle(Join(x, y));
    forall i: nat
      ensures Landing([Join(x, y)], i) == Landing([x] + [y], i)
    {
      LandingOne(x, i);
      LandingOne(Join(x, y), i);
      LandingConcat([x], [y], i);
      if i >= InLen(x) {
        LandingOne(y, i - InLen(x));
      }
    }
  }

  lemma LandingOne(op: Op, i: nat)
    requires PositiveOp(op)
    ensures Landing([op], i) == LandingBehind(op, OpLen(op), [], i)
  {
    assert [op][1..] == [];
  }

  lemma AddOpLandings(ops: seq<Op>, op: Op)
    requires Positive(ops) && PositiveOp(op)
    ensures SameLandings(AddOp(ops, op), ops + [op])
  {
    AddOpMeaning(ops, op);
    AddOpLengths(ops, op);
    LengthsConcat(ops, [op]);
    LengthsSingle(op);
    if ops != [] && SameKind(ops[|ops| - 1], op) {
      var front, last := ops[..|ops| - 1], ops[|ops| - 1];
      JoinLandings(last, op);
      LandingsBefore(front, [Join(last, op)], [last] + [op]);
      Assoc(front, [last], [op]);
      assert ops == front + [last];
    }
  }

  lemma {:induction false} AddAllLandings(ops: seq<Op>, raw: seq<Op>)
    requires Positive(ops) && Positive(raw)
    ensures SameLandings(AddAll(ops, raw), ops + raw)
    decreases |raw|
  {
    if raw == [] {
      Units(ops);
    } else {
      AddOpLandings(ops, raw[0]);
      AddAllLandings(AddOp(ops, raw[0]), raw[1..]);
      LandingsBehind(AddOp(ops, raw[0]), ops + [raw[0]], raw[1..]);
      MoveOne(ops, raw);
    }
  }

  /** The same for the merged output. */
  lemma ComposedLands(A: Changeset, B: Changeset, p: nat)
    requires Positive(A.ops) && Positive(B.ops) && Produced(A.ops) == Consumed(B.ops)
    ensures Positive(Composed(A, B).ops)
    ensures Landing(Composed(A, B).ops, p) == Landing(B.ops, Landing(A.ops, p))
  {
    var raw := RawCompose(A.ops, B.ops);
    Units(raw);
    AddAllLandings([], raw);
    RawComposeLands(A.ops, B.ops, p);
  }
}
