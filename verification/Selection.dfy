/** Carrying a cursor through a change of the text (web/client.js:642-658). */
module Selection {
  import opened Texts
  import opened Changesets
  import opened Application
  import opened Merge

  /** Where a cursor `p` units ahead of the current source position lands, counted from the
      current position of the result. */
  function Landing(ops: seq<Op>, p: nat): (r: nat)
    requires Positive(ops)
    decreases |ops|
  {
    if ops == [] then p
    else match ops[0]
      case Retain(n) => if n > p then p else n + Landing(ops[1..], p - n)
      case Insert(s) => |s| + Landing(ops[1..], p)
      case Delete(n) => if n > p then 0 else Landing(ops[1..], p - n)
  }

  /** How far the loop moves a cursor `ahead` units in front of the source position. */
  function Drift(ops: seq<Op>, ahead: int): int {
    if ops == [] then 0
    else
      var left := ahead - InLen(ops[0]);
      OpDrift(ops[0], ahead) + (if left < 0 then 0 else Drift(ops[1..], left))
  }

  function OpDrift(op: Op, ahead: int): int {
    match op
    case Insert(s) => if ahead >= 0 then |s| else 0
    case Delete(n) => -Min(n, Max(0, ahead))
    case _ => 0
  }

  /** On ops of any kind and length; on ops that passed the per-op checks, a cursor in the text
      ends at its landing place. */
  method AdjustCursor(pos: int, cs: Changeset) returns (r: nat)
    ensures r == Max(0, pos + Drift(cs.ops, pos))
    ensures Positive(cs.ops) && pos >= 0 ==> r == Landing(cs.ops, pos)
  {
    if Positive(cs.ops) && pos >= 0 {
      DriftLands(cs.ops, pos);
    }
    var srcPos, newPos := 0, pos;
    for i := 0 to |cs.ops|
      invariant newPos + Drift(cs.ops[i..], pos - srcPos) == pos + Drift(cs.ops, pos)
    {
      assert cs.ops[i..][0] == cs.ops[i] && cs.ops[i..][1..] == cs.ops[i + 1..];
      match cs.ops[i] {
        case Retain(n) =>
          srcPos := srcPos + n;
        case Insert(s) =>
          if srcPos <= pos {
            newPos := newPos + |s|;
          }
        case Delete(n) =>
          var overlap := Min(n, Max(0, pos - srcPos));
          newPos := newPos - overlap;
          srcPos := srcPos + n;
        case Unknown(_) =>
      }
      if srcPos > pos {
        return Max(0, newPos);
      }
    }
    return Max(0, newPos);
  }

  /** An op of length zero, or of unknown type, moves no cursor. */
  lemma {:induction false} DriftSkips(p: seq<Op>, op: Op, q: seq<Op>, ahead: nat)
    requires InLen(op) == OutLen(op) == 0
    ensures Drift(p + [op] + q, ahead) == Drift(p + q, ahead)
    decreases |p|
  {
    if p == [] {
      assert [] + [op] + q == [op] + q && [] + q == q && ([op] + q)[1..] == q;
    } else {
      Assoc(p, [op], q);
      Uncons(p, [op] + q);
      Uncons(p, q);
      var left := ahead - InLen(p[0]);
      if left >= 0 {
        DriftSkips(p[1..], op, q, left);
        Assoc(p[1..], [op], q);
      }
    }
  }

  lemma {:induction false} DriftLands(ops: seq<Op>, p: nat)
    requires Positive(ops)
    ensures p + Drift(ops, p) == Landing(ops, p)
    decreases |ops|
  {
    if ops != [] && p >= InLen(ops[0]) {
      DriftLands(ops[1..], p - InLen(ops[0]));
    }
  }

  /** A cursor inside the old text lands inside the new one. */
  lemma {:induction false} LandsInRange(ops: seq<Op>, p: nat)
    requires Positive(ops) && p <= Consumed(ops)
    ensures Landing(ops, p) <= Produced(ops)
    decreases |ops|
  {
    if ops != [] && p >= InLen(ops[0]) {
      LandsInRange(ops[1..], p - InLen(ops[0]));
    }
  }

  /** Cursors keep their order, so a selection stays a selection. */
  lemma {:induction false} LandsInOrder(ops: seq<Op>, p: nat, q: nat)
    requires Positive(ops) && p <= q
    ensures Landing(ops, p) <= Landing(ops, q)
    decreases |ops|
  {
    if ops != [] {
      var n := InLen(ops[0]);
      if p >= n {
        LandsInOrder(ops[1..], p - n, q - n);
      }
    }
  }

  // ----- What the landing place is

  /** Source unit `i`, if it is retained. */
  function UnitAt(doc: Text, ops: seq<Op>, i: nat): Text
    requires i < |doc|
  {
    if KeptAt(ops, i) then [doc[i]] else []
  }

  /** What a changeset writes up to source position `p`, gap by gap: the texts inserted at
      every gap up to and including `p`, and the retained units before `p`. */
  function Written(doc: Text, ops: seq<Op>, p: nat): Text
    requires p <= |doc|
  {
    if p == 0 then Cat(GapAt(ops, 0))
    else (Written(doc, ops, p - 1) + UnitAt(doc, ops, p - 1)) + Cat(GapAt(ops, p))
  }

  lemma {:induction false} WrittenInsert(doc: Text, ops: seq<Op>, p: nat)
    requires p <= |doc| && ops != [] && ops[0].Insert?
    ensures Written(doc, ops, p) == ops[0].chars + Written(doc, ops[1..], p)
  {
    var s := ops[0].chars;
    if p == 0 {
      assert GapAt(ops, 0) == [s] + GapAt(ops[1..], 0);
    } else {
      WrittenInsert(doc, ops, p - 1);
      assert UnitAt(doc, ops, p - 1) == UnitAt(doc, ops[1..], p - 1) && GapAt(ops, p) == GapAt(ops[1..], p);
      WrittenLast(doc, ops, p);
      WrittenLast(doc, ops[1..], p);
      Behind(s, Written(doc, ops[1..], p - 1), UnitAt(doc, ops, p - 1), Cat(GapAt(ops, p)),
        Written(doc, ops, p - 1), Written(doc, ops, p), Written(doc, ops[1..], p));
    }
  }

  /** `all` is `rest` with `s` in front, if that is so one position earlier. */
  lemma Behind(s: Text, t: Text, u: Text, v: Text, st: Text, all: Text, rest: Text)
    requires st == s + t && all == (st + u) + v && rest == (t + u) + v
    ensures all == s + rest
  {
    assert ((s + t) + u) + v == s + ((t + u) + v);
  }

  lemma {:induction false} WrittenInside(doc: Text, ops: seq<Op>, p: nat)
    requires Positive(ops) && ops != [] && !ops[0].Insert? && p < InLen(ops[0]) && p <= |doc|
    ensures Written(doc, ops, p) == if ops[0].Retain? then doc[..p] else []
  {
    if p > 0 {
      WrittenInside(doc, ops, p - 1);
      assert GapAt(ops, p) == [] && KeptAt(ops, p - 1) == ops[0].Retain?;
      SnocSlice(doc, 0, p - 1);
    }
  }

  lemma GapPast(doc: Text, ops: seq<Op>, p: nat)
    requires Positive(ops) && ops != [] && !ops[0].Insert? && InLen(ops[0]) <= p <= |doc|
    ensures GapAt(ops, p) == GapAt(ops[1..], p - InLen(ops[0]))
    ensures p < |doc| ==> UnitAt(doc, ops, p) == UnitAt(doc[InLen(ops[0])..], ops[1..], p - InLen(ops[0]))
  {}

  lemma WrittenBlock(doc: Text, ops: seq<Op>, n: nat)
    requires Positive(ops) && ops != [] && !ops[0].Insert? && n == InLen(ops[0]) <= |doc|
    ensures Written(doc, ops, n - 1) + UnitAt(doc, ops, n - 1) == Out(doc[..n], ops[0])
  {
    WrittenInside(doc, ops, n - 1);
    assert KeptAt(ops, n - 1) == ops[0].Retain?;
    if ops[0].Retain? {
      SnocSlice(doc, 0, n - 1);
    }
  }

  /** What is written up to the end of a first op that reads. */
  lemma WrittenFirst(doc: Text, ops: seq<Op>, n: nat)
    requires Positive(ops) && ops != [] && !ops[0].Insert? && n == InLen(ops[0]) <= |doc|
    ensures Written(doc, ops, n) == Out(doc[..n], ops[0]) + Cat(GapAt(ops[1..], 0))
  {
    WrittenBlock(doc, ops, n);
    WrittenLast(doc, ops, n);
    GapPast(doc, ops, n);
  }

  /** Up to `p`, what is written is what the first op writes and then what the others do. */
  ghost predicate WrittenBy(doc: Text, ops: seq<Op>, n: nat, p: nat) {
    && ops != [] && n <= p <= |doc|
    && Written(doc, ops, p) == Out(doc[..n], ops[0]) + Written(doc[n..], ops[1..], p - n)
  }

  lemma {:induction false} WrittenPast(doc: Text, ops: seq<Op>, n: nat, p: nat)
    requires Positive(ops) && ops != [] && !ops[0].Insert? && n == InLen(ops[0]) <= p <= |doc|
    ensures WrittenBy(doc, ops, n, p)
  {
    if p == n {
      WrittenFirst(doc, ops, n);
    } else {
      WrittenPast(doc, ops, n, p - 1);
      WrittenOneMore(doc, ops, n, p);
    }
  }

  lemma WrittenOneMore(doc: Text, ops: seq<Op>, n: nat, p: nat)
    requires Positive(ops) && ops != [] && !ops[0].Insert? && n == InLen(ops[0]) < p <= |doc|
    requires WrittenBy(doc, ops, n, p - 1)
    ensures WrittenBy(doc, ops, n, p)
  {
    var head, q := Out(doc[..n], ops[0]), p - n;
    GapPast(doc, ops, p);
    GapPast(doc, ops, p - 1);
    WrittenLast(doc, ops, p);
    WrittenLast(doc[n..], ops[1..], q);
    Behind(head, Written(doc[n..], ops[1..], q - 1), UnitAt(doc, ops, p - 1), Cat(GapAt(ops, p)),
      Written(doc, ops, p - 1), Written(doc, ops, p), Written(doc[n..], ops[1..], q));
  }

  lemma WrittenLast(doc: Text, ops: seq<Op>, p: nat)
    requires 0 < p <= |doc|
    ensures Written(doc, ops, p) == (Written(doc, ops, p - 1) + UnitAt(doc, ops, p - 1)) + Cat(GapAt(ops, p))
  {}

  lemma WrittenStep(doc: Text, ops: seq<Op>, n: nat, p: nat)
    requires Positive(ops) && ops != [] && n == InLen(ops[0]) <= p <= |doc|
    ensures Written(doc, ops, p) == Out(doc[..n], ops[0]) + Written(doc[n..], ops[1..], p - n)
  {
    if ops[0].Insert? {
      WrittenInsert(doc, ops, p);
      Units(doc);
    } else {
      WrittenPast(doc, ops, n, p);
    }
  }

  lemma LandsInside(doc: Text, ops: seq<Op>, n: nat, p: nat)
    requires Positive(ops) && ops != [] && Consumed(ops) == |doc| && p < n == InLen(ops[0])
    ensures LandsRight(doc, ops, p)
  {
    var tail := Run(doc[n..], ops[1..]);
    WrittenInside(doc, ops, p);
    if ops[0].Retain? {
      assert Run(doc, ops) == doc[..n] + tail;
      PrefixInside(doc[..n], tail, p);
      assert doc[..n][..p] == doc[..p];
    }
  }

  /** The new text up to where `p` lands is what was written up to `p`. */
  ghost predicate LandsRight(doc: Text, ops: seq<Op>, p: nat) {
    && Positive(ops) && Consumed(ops) == |doc| && p <= |doc|
    && Landing(ops, p) <= |Run(doc, ops)| && Run(doc, ops)[..Landing(ops, p)] == Written(doc, ops, p)
  }

  lemma {:induction false} LandsRightEverywhere(doc: Text, ops: seq<Op>, p: nat)
    requires Positive(ops) && Consumed(ops) == |doc| && p <= |doc|
    ensures LandsRight(doc, ops, p)
    decreases |ops|
  {
    if ops == [] {
      LandsAtStart(doc, ops, p);
    } else if p < InLen(ops[0]) {
      LandsInside(doc, ops, InLen(ops[0]), p);
    } else {
      var n, rest := InLen(ops[0]), ops[1..];
      var doc' := doc[n..];
      assert Consumed(rest) == |doc'|;
      LandsRightEverywhere(doc', rest, p - n);
      LandsPast(doc, ops, n, p);
    }
  }

  lemma LandsAtStart(doc: Text, ops: seq<Op>, p: nat)
    requires ops == [] && p <= |doc| == 0
    ensures LandsRight(doc, ops, p)
  {}

  lemma LandsPast(doc: Text, ops: seq<Op>, n: nat, p: nat)
    requires Positive(ops) && ops != [] && Consumed(ops) == |doc| && n == InLen(ops[0]) <= p <= |doc|
    requires LandsRight(doc[n..], ops[1..], p - n)
    ensures LandsRight(doc, ops, p)
  {
    var head, tail, k := Out(doc[..n], ops[0]), Run(doc[n..], ops[1..]), Landing(ops[1..], p - n);
    LandingPast(doc, ops, p);
    assert Run(doc, ops) == head + tail && Landing(ops, p) == |head| + k;
    WrittenStep(doc, ops, n, p);
    PrefixSum(head, tail, k);
  }

  /** A cursor lands right behind what was written up to its position: the new text up to the
      cursor is exactly that. */
  lemma LandsBehindWritten(doc: Text, ops: seq<Op>, p: nat)
    requires Positive(ops) && Consumed(ops) == |doc| && p <= |doc|
    ensures Landing(ops, p) <= |Run(doc, ops)| && Run(doc, ops)[..Landing(ops, p)] == Written(doc, ops, p)
  {
    LandsRightEverywhere(doc, ops, p);
  }

  lemma LandingPast(doc: Text, ops: seq<Op>, p: nat)
    requires Positive(ops) && ops != [] && Consumed(ops) == |doc| && p <= |doc|
    ensures var n := InLen(ops[0]);
      && n <= |doc|
      && (p >= n ==> Landing(ops, p) == |Out(doc[..n], ops[0])| + Landing(ops[1..], p - n))
      && (p < n ==> Landing(ops, p) == if ops[0].Retain? then p else 0)
  {}

  lemma PrefixInside(s: Text, t: Text, k: nat)
    requires k <= |s|
    ensures (s + t)[..k] == s[..k] && s[..k] == s[0..k]
  {}

  lemma PrefixSum(s: Text, t: Text, k: nat)
    requires k <= |t|
    ensures (s + t)[..|s| + k] == s + t[..k]
  {}

  /** A cursor in front of a retained unit lands in front of that unit, and one behind it
      lands behind it and what is inserted there. */
  lemma LandsOnSameUnit(doc: Text, ops: seq<Op>, p: nat)
    requires Positive(ops) && Consumed(ops) == |doc| && p < |doc| && KeptAt(ops, p)
    ensures Landing(ops, p) < |Run(doc, ops)| && Run(doc, ops)[Landing(ops, p)] == doc[p]
    ensures Landing(ops, p + 1) == Landing(ops, p) + 1 + |Cat(GapAt(ops, p + 1))| <= |Run(doc, ops)|
  {
    LandsBehindWritten(doc, ops, p);
    LandsBehindWritten(doc, ops, p + 1);
    WrittenLast(doc, ops, p + 1);
    NextUnit(Run(doc, ops), Landing(ops, p), Landing(ops, p + 1), Written(doc, ops, p), doc[p], Cat(GapAt(ops, p + 1)));
  }

  lemma NextUnit(t: Text, i: nat, j: nat, front: Text, x: nat, gap: Text)
    requires i <= |t| && j <= |t| && t[..i] == front && t[..j] == (front + [x]) + gap
    ensures i < |t| && t[i] == x && j == i + 1 + |gap|
  {
    assert i == |front| && t[..j][i] == ((front + [x]) + gap)[|front|];
  }
}
