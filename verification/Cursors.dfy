/** The machinery `Follow`, `Compose` and the diff share: a cursor over a list of ops that
    may stand inside an op, and an output list that merges adjacent ops of one type
    (internal/ot/follow.go:38-105, internal/ot/compose.go:31-92). */
module Cursors {
  import opened Texts
  import opened Changesets
  import opened Application

  /** Units an op still offers to a cursor. */
  function OpLen(op: Op): int {
    match op
    case Retain(n) => n
    case Insert(s) => |s|
    case Delete(n) => n
    case Unknown(_) => 0
  }

  /** The op without its first `n` units. */
  function Cut(op: Op, n: nat): Op
    requires n < OpLen(op)
  {
    match op
    case Retain(k) => Retain(k - n)
    case Insert(s) => Insert(s[n..])
    case Delete(k) => Delete(k - n)
  }

  /** What is left of the ops once `n` units are consumed. */
  function Skip(ops: seq<Op>, n: int): (r: seq<Op>)
    requires Positive(ops)
    ensures Positive(r)
  {
    if n <= 0 || ops == [] then ops
    else if n >= OpLen(ops[0]) then Skip(ops[1..], n - OpLen(ops[0]))
    else [Cut(ops[0], n)] + ops[1..]
  }

  /** Skipping inside the first op only, the way the loops use it. */
  function After(ops: seq<Op>, n: nat): (r: seq<Op>)
    requires Positive(ops) && ops != [] && 0 < n <= OpLen(ops[0])
    ensures Positive(r) && |r| <= |ops| && (n == OpLen(ops[0]) ==> r == ops[1..])
  {
    if n == OpLen(ops[0]) then ops[1..] else [Cut(ops[0], n)] + ops[1..]
  }

  /** The first `n` units a list reads, for a first op that reads. */
  lemma RunAfter(doc: Text, ops: seq<Op>, n: nat)
    requires Positive(ops) && Consumed(ops) == |doc|
    requires ops != [] && !ops[0].Insert? && 0 < n <= OpLen(ops[0])
    ensures n <= |doc| && Consumed(After(ops, n)) == |doc| - n
    ensures Run(doc, ops) == (if ops[0].Retain? then doc[..n] else []) + Run(doc[n..], After(ops, n))
    ensures Produced(ops) == (if ops[0].Retain? then n else 0) + Produced(After(ops, n))
  {
    var k := OpLen(ops[0]);
    if n < k {
      var cut := Cut(ops[0], n);
      assert After(ops, n)[1..] == ops[1..];
      SliceSum(doc, n, k);
      RunCons(doc[n..k], doc[k..], cut, ops[1..]);
      Assoc(doc[..n], doc[n..k], Run(doc[k..], ops[1..]));
    }
  }

  /** The first `n` units a list writes, for a first op that inserts. */
  lemma RunInsertAfter(doc: Text, ops: seq<Op>, n: nat)
    requires Positive(ops) && Consumed(ops) == |doc|
    requires ops != [] && ops[0].Insert? && 0 < n <= OpLen(ops[0])
    ensures Consumed(After(ops, n)) == |doc|
    ensures Run(doc, ops) == ops[0].chars[..n] + Run(doc, After(ops, n))
    ensures Produced(ops) == n + Produced(After(ops, n))
  {
    var s, rest := ops[0].chars, After(ops, n);
    if n < |s| {
      assert rest[1..] == ops[1..];
      Halves(s, n);
      Assoc(s[..n], s[n..], Run(doc, ops[1..]));
    } else {
      Units(s);
    }
  }

  lemma SkipIsAfter(ops: seq<Op>, n: nat)
    requires Positive(ops) && ops != [] && 0 < n <= OpLen(ops[0])
    ensures Skip(ops, n) == After(ops, n)
  {}

  /** Skipping in two steps is skipping once. */
  lemma {:induction false} SkipTwice(ops: seq<Op>, m: nat, n: nat)
    requires Positive(ops)
    ensures Skip(Skip(ops, m), n) == Skip(ops, m + n)
    decreases |ops|
  {
    if m > 0 && ops != [] {
      var k := OpLen(ops[0]);
      if m >= k {
        SkipTwice(ops[1..], m - k, n);
      } else {
        assert ([Cut(ops[0], m)] + ops[1..])[1..] == ops[1..];
        if n < k - m {
          assert Cut(Cut(ops[0], m), n) == Cut(ops[0], m + n);
        }
      }
    }
  }

  /** Units all ops together offer to a cursor. */
  function Offered(ops: seq<Op>): (n: int)
    ensures Positive(ops) ==> n >= 0
  {
    if ops == [] then 0 else OpLen(ops[0]) + Offered(ops[1..])
  }

  lemma {:induction false} SkipLeaves(ops: seq<Op>, n: nat)
    requires Positive(ops)
    ensures Offered(Skip(ops, n)) == Max(Offered(ops) - n, 0)
    decreases |ops|
  {
    if n > 0 && ops != [] {
      if n >= OpLen(ops[0]) {
        SkipLeaves(ops[1..], n - OpLen(ops[0]));
      } else {
        assert ([Cut(ops[0], n)] + ops[1..])[1..] == ops[1..];
      }
    }
  }

  /** A cursor position inside a list of ops, and what is left from there. */
  predicate At(ops: seq<Op>, pos: nat, off: nat) {
    && pos <= |ops|
    && (if pos < |ops| then off < OpLen(ops[pos]) else off == 0)
  }

  function RestFrom(ops: seq<Op>, pos: nat, off: nat): (r: seq<Op>)
    requires Positive(ops) && At(ops, pos, off)
    ensures Positive(r)
  {
    if off == 0 then ops[pos..] else [Cut(ops[pos], off)] + ops[pos + 1..]
  }

  lemma RestHead(ops: seq<Op>, pos: nat, off: nat)
    requires Positive(ops) && At(ops, pos, off) && pos < |ops|
    ensures RestFrom(ops, pos, off) == [Cut(ops[pos], off)] + ops[pos + 1..]
  {}

  /** `n` more units to consume from a cursor position lead to `goal`. */
  ghost predicate Toward(ops: seq<Op>, pos: nat, off: nat, n: int, goal: seq<Op>) {
    Positive(ops) && At(ops, pos, off) && Skip(RestFrom(ops, pos, off), n) == goal
  }

  /** Consuming the rest of the current op, or less; and where the loop ends. */
  lemma TowardPast(ops: seq<Op>, pos: nat, off: nat, n: nat, pos': nat, n': int, goal: seq<Op>)
    requires Toward(ops, pos, off, n, goal) && pos < |ops| && n >= OpLen(ops[pos]) - off && 0 < n
    requires pos' == pos + 1 && n' == n - (OpLen(ops[pos]) - off)
    ensures Toward(ops, pos', 0, n', goal)
  {
    RestHead(ops, pos, off);
    assert RestFrom(ops, pos, off)[1..] == ops[pos + 1..];
  }

  lemma TowardWithin(ops: seq<Op>, pos: nat, off: nat, n: nat, off': nat, goal: seq<Op>)
    requires Toward(ops, pos, off, n, goal) && pos < |ops| && 0 < n < OpLen(ops[pos]) - off
    requires off' == off + n
    ensures Toward(ops, pos, off', 0, goal)
  {
    RestHead(ops, pos, off);
    assert RestFrom(ops, pos, off)[1..] == ops[pos + 1..];
    assert Cut(Cut(ops[pos], off), n) == Cut(ops[pos], off + n);
  }

  lemma TowardEnd(ops: seq<Op>, pos: nat, off: nat, n: int, goal: seq<Op>)
    requires Toward(ops, pos, off, n, goal) && (n <= 0 || pos >= |ops|)
    ensures RestFrom(ops, pos, off) == goal
  {}

  class OpSlice {
    const ops: seq<Op>
    var pos: nat
    var off: nat

    ghost predicate Valid()
      reads this
    {
      Positive(ops) && At(ops, pos, off)
    }

    /** The ops not yet consumed, the first one possibly cut. */
    ghost function Rest(): (r: seq<Op>)
      requires Valid()
      reads this
      ensures Positive(r)
    {
      RestFrom(ops, pos, off)
    }

    constructor (ops: seq<Op>)
      requires Positive(ops)
      ensures Valid() && Rest() == ops
    {
      this.ops := ops;
      pos, off := 0, 0;
    }

    method Peek() returns (op: Option<Op>)
      requires Valid()
      ensures op == if Rest() == [] then None else Some(Rest()[0])
    {
      if pos >= |ops| {
        return None;
      }
      match ops[pos] {
        case Retain(n) => return Some(Retain(n - off));
        case Insert(s) => return Some(Insert(s[off..]));
        case Delete(n) => return Some(Delete(n - off));
      }
    }

    method Consume(count: int)
      requires Valid()
      modifies this
      ensures Valid() && Rest() == Skip(old(Rest()), count)
    {
      var n := count;
      ghost var goal := Skip(Rest(), count);
      while n > 0 && pos < |ops|
        invariant Toward(ops, pos, off, n, goal)
        decreases |ops| - pos, n
      {
        var rem := OpLen(ops[pos]) - off;
        ghost var pos', off', n' := pos, off, n;
        if n >= rem {
          n := n - rem;
          pos := pos + 1;
          off := 0;
          TowardPast(ops, pos', off', n', pos, n, goal);
        } else {
          off := off + n;
          n := 0;
          TowardWithin(ops, pos', off', n', off, goal);
        }
      }
      TowardEnd(ops, pos, off, n, goal);
    }
  }

  // ----- Merging output

  function Join(x: Op, y: Op): Op
    requires SameKind(x, y)
  {
    match x
    case Retain(n) => Retain(n + y.len)
    case Insert(s) => Insert(s + y.chars)
    case Delete(n) => Delete(n + y.len)
  }

  /** `addOp`: append, or extend the last op when the types agree. */
  function AddOp(ops: seq<Op>, op: Op): seq<Op> {
    if ops != [] && SameKind(ops[|ops| - 1], op)
    then ops[..|ops| - 1] + [Join(ops[|ops| - 1], op)]
    else ops + [op]
  }

  function AddAll(ops: seq<Op>, raw: seq<Op>): seq<Op>
    decreases |raw|
  {
    if raw == [] then ops else AddAll(AddOp(ops, raw[0]), raw[1..])
  }

  lemma AddAllCons(ops: seq<Op>, op: Op, raw: seq<Op>)
    ensures AddAll(ops, [op] + raw) == AddAll(AddOp(ops, op), raw)
  {
    assert ([op] + raw)[1..] == raw;
  }

  class OpBuilder {
    var ops: seq<Op>
    var newLen: int

    constructor ()
      ensures Valid() && ops == []
    {
      ops, newLen := [], 0;
    }

    ghost predicate Valid()
      reads this
    {
      Positive(ops) && newLen == Produced(ops)
    }

    /** Extends the output and keeps the running length of what it produces. */
    method Add(op: Op)
      requires Valid() && PositiveOp(op)
      modifies this
      ensures Valid() && ops == AddOp(old(ops), op)
    {
      AddOpLengths(ops, op);
      if |ops| > 0 {
        var last := ops[|ops| - 1];
        if SameKind(last, op) {
          match op {
            case Retain(n) =>
              ops := ops[|ops| - 1 := Retain(last.len + n)];
              newLen := newLen + n;
            case Delete(n) =>
              ops := ops[|ops| - 1 := Delete(last.len + n)];
            case Insert(s) =>
              ops := ops[|ops| - 1 := Insert(last.chars + s)];
              newLen := newLen + |s|;
          }
          assert ops == AddOp(old(ops), op);
          return;
        }
      }
      ops := ops + [op];
      match op {
        case Retain(n) => newLen := newLen + n;
        case Insert(s) => newLen := newLen + |s|;
        case Delete(_) =>
      }
    }
  }

  /** Emits `op` for the whole of the cursor's current op, `count` units, and moves past it. */
  method EmitPast(result: OpBuilder, op: Op, slice: OpSlice, count: nat)
    requires result.Valid() && slice.Valid() && PositiveOp(op)
    requires slice.Rest() != [] && count == OpLen(slice.Rest()[0])
    modifies result, slice
    ensures result.Valid() && slice.Valid()
    ensures result.ops == AddOp(old(result.ops), op) && slice.Rest() == old(slice.Rest())[1..]
  {
    SkipIsAfter(slice.Rest(), count);
    result.Add(op);
    slice.Consume(count);
  }

  lemma AddOpCanonical(ops: seq<Op>, op: Op)
    requires Canonical(ops) && PositiveOp(op)
    ensures Canonical(AddOp(ops, op))
  {}

  lemma JoinMeaning(s: Text, x: Op, y: Op)
    requires PositiveOp(x) && PositiveOp(y) && SameKind(x, y) && |s| == InLen(x) + InLen(y)
    ensures PositiveOp(Join(x, y)) && InLen(Join(x, y)) == |s|
    ensures Out(s, Join(x, y)) == Out(s[..InLen(x)], x) + Out(s[InLen(x)..], y)
  {
    assert s == s[..InLen(x)] + s[InLen(x)..];
  }

  /** Merging into the last op changes neither the lengths nor the meaning. */
  lemma AddOpMeaning(ops: seq<Op>, op: Op)
    requires Positive(ops) && PositiveOp(op)
    ensures Positive(AddOp(ops, op)) && SameMeaning(AddOp(ops, op), ops + [op])
  {
    if ops != [] && SameKind(ops[|ops| - 1], op) {
      var front, last := ops[..|ops| - 1], ops[|ops| - 1];
      assert ops == front + [last];
      JoinSameMeaning(front, last, op);
    }
  }

  lemma AddOpLengths(ops: seq<Op>, op: Op)
    requires Positive(ops) && PositiveOp(op)
    ensures Positive(AddOp(ops, op))
    ensures Consumed(AddOp(ops, op)) == Consumed(ops) + InLen(op)
    ensures Produced(AddOp(ops, op)) == Produced(ops) + OutLen(op)
  {
    AddOpMeaning(ops, op);
    SameMeaningProduced(AddOp(ops, op), ops + [op]);
    LengthsConcat(ops, [op]);
    LengthsSingle(op);
  }

  lemma JoinSameMeaning(front: seq<Op>, x: Op, y: Op)
    requires Positive(front) && PositiveOp(x) && PositiveOp(y) && SameKind(x, y)
    ensures Positive(front + [Join(x, y)]) && SameMeaning(front + [Join(x, y)], front + [x] + [y])
  {
    LengthsConcat(front, [Join(x, y)]);
    LengthsConcat(front, [x]);
    LengthsConcat(front + [x], [y]);
    LengthsSingle(Join(x, y));
    LengthsSingle(x);
    LengthsSingle(y);
    forall t: Text | |t| == Consumed(front + [Join(x, y)])
      ensures Run(t, front + [Join(x, y)]) == Run(t, front + [x] + [y])
    {
      Halves(t, Consumed(front));
      JoinedRuns(t[..Consumed(front)], t[Consumed(front)..], front, x, y);
    }
  }

  lemma JoinedRuns(s: Text, t: Text, front: seq<Op>, x: Op, y: Op)
    requires Positive(front) && PositiveOp(x) && PositiveOp(y) && SameKind(x, y)
    requires Consumed(front) == |s| && |t| == InLen(x) + InLen(y)
    ensures Positive(front + [Join(x, y)]) && Consumed(front + [Join(x, y)]) == |s + t|
    ensures Positive(front + [x] + [y]) && Consumed(front + [x] + [y]) == |s + t|
    ensures Run(s + t, front + [Join(x, y)]) == Run(s + t, front + [x] + [y])
  {
    var l, r := t[..InLen(x)], t[InLen(x)..];
    JoinMeaning(t, x, y);
    RunOne(t, Join(x, y));
    RunConcat(s, t, front, [Join(x, y)]);
    RunPair(l, r, x, y);
    Halves(t, InLen(x));
    RunConcat(s, t, front, [x] + [y]);
    Assoc(front, [x], [y]);
  }

  lemma RunPair(l: Text, r: Text, x: Op, y: Op)
    requires PositiveOp(x) && PositiveOp(y) && |l| == InLen(x) && |r| == InLen(y)
    ensures Positive([x] + [y]) && Consumed([x] + [y]) == |l + r|
    ensures Run(l + r, [x] + [y]) == Out(l, x) + Out(r, y)
  {
    RunOne(l, x);
    RunOne(r, y);
    RunConcat(l, r, [x], [y]);
  }

  lemma {:induction false} AddAllCanonical(ops: seq<Op>, raw: seq<Op>)
    requires Canonical(ops) && Positive(raw)
    ensures Canonical(AddAll(ops, raw))
    decreases |raw|
  {
    if raw != [] {
      AddOpCanonical(ops, raw[0]);
      AddAllCanonical(AddOp(ops, raw[0]), raw[1..]);
    }
  }

  lemma SameMeaningExtends(p: seq<Op>, q: seq<Op>, r: seq<Op>)
    requires Positive(p) && Positive(q) && Positive(r) && SameMeaning(p, q)
    ensures SameMeaning(p + r, q + r)
  {
    LengthsConcat(p, r);
    LengthsConcat(q, r);
    forall t: Text | |t| == Consumed(p + r)
      ensures Run(t, p + r) == Run(t, q + r)
    {
      SameRunExtends(t, p, q, r);
    }
  }

  lemma SameRunExtends(t: Text, p: seq<Op>, q: seq<Op>, r: seq<Op>)
    requires Positive(p) && Positive(q) && Positive(r) && SameMeaning(p, q) && |t| == Consumed(p) + Consumed(r)
    ensures Positive(p + r) && Consumed(p + r) == |t| && Positive(q + r) && Consumed(q + r) == |t|
    ensures Run(t, p + r) == Run(t, q + r)
  {
    RunSplit(t, p, r);
    RunSplit(t, q, r);
    assert Run(t[..Consumed(p)], p) == Run(t[..Consumed(p)], q);
  }

  /** Merging a whole list keeps its meaning. */
  lemma {:induction false} AddAllMeaning(ops: seq<Op>, raw: seq<Op>)
    requires Positive(ops) && Positive(raw)
    ensures Positive(AddAll(ops, raw)) && SameMeaning(AddAll(ops, raw), ops + raw)
    decreases |raw|
  {
    if raw == [] {
      Units(ops);
    } else {
      AddOpMeaning(ops, raw[0]);
      AddAllMeaning(AddOp(ops, raw[0]), raw[1..]);
      SameMeaningExtends(AddOp(ops, raw[0]), ops + [raw[0]], raw[1..]);
      MoveOne(ops, raw);
    }
  }

  /** A list already in merged form is left as it is. */
  lemma {:induction false} AddAllFixed(ops: seq<Op>, raw: seq<Op>)
    requires Canonical(ops + raw)
    ensures AddAll(ops, raw) == ops + raw
    decreases |raw|
  {
    if raw == [] {
      Units(ops);
    } else {
      var all := ops + raw;
      assert all[|ops|] == raw[0];
      assert ops != [] ==> all[|ops| - 1] == ops[|ops| - 1];
      MoveOne(ops, raw);
      AddAllFixed(ops + [raw[0]], raw[1..]);
    }
  }

  /** The merged form of a list of emitted ops. */
  function Merged(raw: seq<Op>): seq<Op> {
    AddAll([], raw)
  }

  lemma MergedMeaning(raw: seq<Op>)
    requires Positive(raw)
    ensures Canonical(Merged(raw)) && SameMeaning(Merged(raw), raw)
    ensures Consumed(Merged(raw)) == Consumed(raw) && Produced(Merged(raw)) == Produced(raw)
  {
    AddAllCanonical([], raw);
    Units(raw);
    AddAllMeaning([], raw);
    SameMeaningProduced(Merged(raw), raw);
  }

  lemma MergedFixed(raw: seq<Op>)
    requires Canonical(raw)
    ensures Merged(raw) == raw
  {
    Units(raw);
    AddAllFixed([], raw);
  }
}
