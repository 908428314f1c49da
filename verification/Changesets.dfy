/** Changesets: well-formedness, validation and the standard constructors
    (internal/ot/changeset.go, web/client.js:26-38). */
module Changesets {
  import opened Texts

  /** `Unknown` stands for an op whose type string is none of the three. */
  datatype Op =
    | Retain(len: int)
    | Insert(chars: Text)
    | Delete(len: int)
    | Unknown(tag: string)

  datatype Changeset = Changeset(oldLen: int, newLen: int, ops: seq<Op>)

  predicate PositiveOp(op: Op) {
    match op
    case Retain(n) => n > 0
    case Insert(s) => s != []
    case Delete(n) => n > 0
    case Unknown(_) => false
  }

  /** Every op is of a known type and has positive length. */
  predicate Positive(ops: seq<Op>) {
    forall i :: 0 <= i < |ops| ==> PositiveOp(ops[i])
  }

  predicate SameKind(x: Op, y: Op) {
    || (x.Retain? && y.Retain?)
    || (x.Insert? && y.Insert?)
    || (x.Delete? && y.Delete?)
  }

  /** Positive, and no two adjacent ops of one type: the form `addOp` keeps. */
  predicate Canonical(ops: seq<Op>) {
    && Positive(ops)
    && forall i :: 0 < i < |ops| ==> !SameKind(ops[i - 1], ops[i])
  }

  /** Units of the source an op covers, and units of the result it writes. */
  function InLen(op: Op): int {
    match op
    case Retain(n) => n
    case Insert(_) => 0
    case Delete(n) => n
    case Unknown(_) => 0
  }

  function OutLen(op: Op): int {
    match op
    case Retain(n) => n
    case Insert(s) => |s|
    case Delete(_) => 0
    case Unknown(_) => 0
  }

  function Consumed(ops: seq<Op>): (n: int)
    ensures Positive(ops) ==> n >= 0
  {
    if ops == [] then 0 else InLen(ops[0]) + Consumed(ops[1..])
  }

  function Produced(ops: seq<Op>): (n: int)
    ensures Positive(ops) ==> n >= 0
  {
    if ops == [] then 0 else OutLen(ops[0]) + Produced(ops[1..])
  }

  /** What `Validate` accepts. */
  predicate Valid(c: Changeset) {
    && Positive(c.ops)
    && Consumed(c.ops) == c.oldLen
    && Produced(c.ops) == c.newLen
  }

  /** A valid changeset in the form `addOp` keeps. */
  predicate Normal(c: Changeset) {
    Valid(c) && Canonical(c.ops)
  }

  lemma {:induction false} LengthsConcat(p: seq<Op>, q: seq<Op>)
    ensures Consumed(p + q) == Consumed(p) + Consumed(q)
    ensures Produced(p + q) == Produced(p) + Produced(q)
  {
    if p == [] {
      assert p + q == q;
    } else {
      assert (p + q)[1..] == p[1..] + q;
      LengthsConcat(p[1..], q);
    }
  }

  lemma LengthsSingle(op: Op)
    ensures Consumed([op]) == InLen(op) && Produced([op]) == OutLen(op)
  {
    assert [op][1..] == [];
  }

  // ----- Validate

  datatype Fault =
    | NoFault
    | BadOp(op: Op)
    | WrongOldLen(consumed: int)
    | WrongNewLen(produced: int)

  lemma PositiveSnoc(ops: seq<Op>, i: nat)
    requires i < |ops| && Positive(ops[..i])
    ensures Positive(ops[..i + 1]) <==> PositiveOp(ops[i])
  {
    assert ops[..i + 1] == ops[..i] + [ops[i]];
    assert ops[..i + 1][i] == ops[i];
  }

  /** Accepts exactly the valid changesets; otherwise reports the first offending op, and
      a wrong length only when every op is fine. */
  method Validate(c: Changeset) returns (f: Fault)
    ensures f == NoFault <==> Valid(c)
    ensures f.BadOp? <==> !Positive(c.ops)
    ensures f.BadOp? ==> exists i :: 0 <= i < |c.ops| && c.ops[i] == f.op && !PositiveOp(f.op) && Positive(c.ops[..i])
    ensures f.WrongOldLen? <==> Positive(c.ops) && Consumed(c.ops) != c.oldLen
    ensures f.WrongOldLen? ==> f.consumed == Consumed(c.ops)
    ensures f.WrongNewLen? ==> f.produced == Produced(c.ops) != c.newLen
  {
    var sourceConsumed, newLen := 0, 0;
    for i := 0 to |c.ops|
      invariant Positive(c.ops[..i])
      invariant sourceConsumed + Consumed(c.ops[i..]) == Consumed(c.ops)
      invariant newLen + Produced(c.ops[i..]) == Produced(c.ops)
    {
      var op := c.ops[i];
      assert c.ops[i..][0] == op && c.ops[i..][1..] == c.ops[i + 1..];
      PositiveSnoc(c.ops, i);
      match op {
        case Retain(n) =>
          if n <= 0 { return BadOp(op); }
          sourceConsumed := sourceConsumed + n;
          newLen := newLen + n;
        case Insert(s) =>
          if |s| == 0 { return BadOp(op); }
          newLen := newLen + |s|;
        case Delete(n) =>
          if n <= 0 { return BadOp(op); }
          sourceConsumed := sourceConsumed + n;
        case Unknown(_) =>
          return BadOp(op);
      }
    }
    assert c.ops[..|c.ops|] == c.ops;
    if sourceConsumed != c.oldLen { return WrongOldLen(sourceConsumed); }
    if newLen != c.newLen { return WrongNewLen(newLen); }
    return NoFault;
  }

  // ----- Constructors

  function Identity(n: int): Changeset {
    if n == 0 then Changeset(0, 0, []) else Changeset(n, n, [Retain(n)])
  }

  /** The Go test; the JavaScript one skips the look at `ops` when `oldLen` is 0, which
      agrees on every valid changeset (`IsIdentityPorts`). */
  predicate IsIdentity(c: Changeset) {
    && c.oldLen == c.newLen
    && ((c.oldLen == 0 && c.ops == []) || c.ops == [Retain(c.oldLen)])
  }

  predicate IsIdentityJs(c: Changeset) {
    && c.oldLen == c.newLen
    && (c.oldLen == 0 || c.ops == [Retain(c.oldLen)])
  }

  function TextToChangeset(t: Text): Changeset {
    if |t| == 0 then Changeset(0, 0, []) else Changeset(0, |t|, [Insert(t)])
  }

  lemma IsIdentityPorts(c: Changeset)
    requires Valid(c)
    ensures IsIdentity(c) == IsIdentityJs(c) == (c == Identity(c.oldLen))
  {
    if c.oldLen == c.newLen == 0 && c.ops != [] {
      assert InLen(c.ops[0]) > 0 || OutLen(c.ops[0]) > 0;
      assert Positive(c.ops[1..]);
    }
  }

  method MakeInsert(oldLen: int, pos: int, text: Text) returns (c: Changeset)
    ensures c == InsertAt(oldLen, pos, text)
  {
    var ops: seq<Op> := [];
    if pos > 0 {
      ops := ops + [Retain(pos)];
    }
    ops := ops + [Insert(text)];
    var tail := oldLen - pos;
    if tail > 0 {
      ops := ops + [Retain(tail)];
    }
    c := Changeset(oldLen, oldLen + |text|, ops);
  }

  method MakeDelete(oldLen: int, pos: int, count: int) returns (c: Changeset)
    ensures c == DeleteAt(oldLen, pos, count)
  {
    var ops: seq<Op> := [];
    if pos > 0 {
      ops := ops + [Retain(pos)];
    }
    ops := ops + [Delete(count)];
    var tail := oldLen - pos - count;
    if tail > 0 {
      ops := ops + [Retain(tail)];
    }
    c := Changeset(oldLen, oldLen - count, ops);
  }

  function RetainIf(n: int): seq<Op> {
    if n > 0 then [Retain(n)] else []
  }

  function InsertAt(oldLen: int, pos: int, text: Text): Changeset {
    Changeset(oldLen, oldLen + |text|, RetainIf(pos) + [Insert(text)] + RetainIf(oldLen - pos))
  }

  function DeleteAt(oldLen: int, pos: int, count: int): Changeset {
    Changeset(oldLen, oldLen - count, RetainIf(pos) + [Delete(count)] + RetainIf(oldLen - pos - count))
  }
}
