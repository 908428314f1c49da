/** Applying a changeset to a text (internal/ot/apply.go, web/client.js:44-61): the meaning
    every other claim is stated against. */
module Application {
  import opened Texts
  import opened Changesets

  /** What one op writes when it meets exactly the source units it covers. */
  function Out(source: Text, op: Op): Text {
    match op
    case Retain(_) => source
    case Insert(s) => s
    case Delete(_) => []
    case Unknown(_) => []
  }

  /** The meaning of a list of ops on a text of exactly the length it consumes. */
  function Run(text: Text, ops: seq<Op>): Text
    requires Positive(ops) && Consumed(ops) == |text|
    decreases |ops|
  {
    if ops == [] then []
    else
      var n := InLen(ops[0]);
      Out(text[..n], ops[0]) + Run(text[n..], ops[1..])
  }

  /** Two lists of ops for documents of one length that rewrite every such document alike. */
  ghost predicate SameMeaning(p: seq<Op>, q: seq<Op>)
    requires Positive(p) && Positive(q)
  {
    && Consumed(p) == Consumed(q)
    && forall t: Text :: |t| == Consumed(p) ==> Run(t, p) == Run(t, q)
  }

  lemma SameMeaningProduced(p: seq<Op>, q: seq<Op>)
    requires Positive(p) && Positive(q) && SameMeaning(p, q)
    ensures Produced(p) == Produced(q)
  {
    var t: Text := seq(Consumed(p), _ => 0);
    RunLength(t, p);
    RunLength(t, q);
    assert Run(t, p) == Run(t, q);
  }

  lemma {:induction false} RunLength(text: Text, ops: seq<Op>)
    requires Positive(ops) && Consumed(ops) == |text|
    ensures |Run(text, ops)| == Produced(ops)
    decreases |ops|
  {
    if ops != [] {
      RunLength(text[InLen(ops[0])..], ops[1..]);
    }
  }

  lemma RunCons(s: Text, t: Text, op: Op, q: seq<Op>)
    requires PositiveOp(op) && Positive(q) && InLen(op) == |s| && Consumed(q) == |t|
    ensures Positive([op] + q) && Consumed([op] + q) == |s + t|
    ensures Run(s + t, [op] + q) == Out(s, op) + Run(t, q)
  {
    assert ([op] + q)[1..] == q;
    assert (s + t)[|s|..] == t && (s + t)[..|s|] == s;
  }

  lemma RunOne(s: Text, op: Op)
    requires PositiveOp(op) && InLen(op) == |s|
    ensures Consumed([op]) == |s| && Run(s, [op]) == Out(s, op)
  {
    Units(s);
    Units([op]);
    RunCons(s, [], op, []);
    Units(Out(s, op));
  }

  lemma {:induction false} RunConcat(s: Text, t: Text, p: seq<Op>, q: seq<Op>)
    requires Positive(p) && Positive(q) && Consumed(p) == |s| && Consumed(q) == |t|
    ensures Positive(p + q) && Consumed(p + q) == |s + t|
    ensures Run(s + t, p + q) == Run(s, p) + Run(t, q)
    decreases |p|
  {
    LengthsConcat(p, q);
    if p == [] {
      Units(q);
      Units(t);
    } else {
      var n := InLen(p[0]);
      Uncons(p, q);
      SplitSum(s, t, n);
      RunConcat(s[n..], t, p[1..], q);
      RunCons(s[..n], s[n..] + t, p[0], p[1..] + q);
      Assoc(Out(s[..n], p[0]), Run(s[n..], p[1..]), Run(t, q));
    }
  }

  /** The same, for a text given whole. */
  lemma RunSplit(t: Text, p: seq<Op>, q: seq<Op>)
    requires Positive(p) && Positive(q) && |t| == Consumed(p) + Consumed(q)
    ensures Positive(p + q) && Consumed(p + q) == |t|
    ensures Run(t, p + q) == Run(t[..Consumed(p)], p) + Run(t[Consumed(p)..], q)
  {
    Halves(t, Consumed(p));
    RunConcat(t[..Consumed(p)], t[Consumed(p)..], p, q);
  }

  // ----- ApplyChangeset

  /** `Panicked` is a Go runtime panic: growing the builder by a negative `newLen`, or slicing
      the text out of bounds. */
  datatype Outcome =
    | Done(text: Text)
    | WrongLength
    | RetainPastEnd
    | DeletePastEnd
    | UnknownType
    | Unconsumed
    | Panicked

  function Prepend(s: Text, o: Outcome): Outcome {
    if o.Done? then Done(s + o.text) else o
  }

  /** What the loop does from source position `pos` on. */
  function Scan(text: Text, pos: int, ops: seq<Op>): Outcome
    decreases |ops|
  {
    if ops == [] then
      if pos == |text| then Done([]) else Unconsumed
    else match ops[0]
      case Retain(n) =>
        if pos + n > |text| then RetainPastEnd
        else if n < 0 || pos < 0 then Panicked
        else Prepend(text[pos..pos + n], Scan(text, pos + n, ops[1..]))
      case Insert(s) => Prepend(s, Scan(text, pos, ops[1..]))
      case Delete(n) =>
        if pos + n > |text| then DeletePastEnd else Scan(text, pos + n, ops[1..])
      case Unknown(_) => UnknownType
  }

  function Apply(text: Text, c: Changeset): Outcome {
    if c.oldLen != |text| then WrongLength
    else if c.newLen < 0 then Panicked
    else Scan(text, 0, c.ops)
  }

  method ApplyChangeset(text: Text, c: Changeset) returns (o: Outcome)
    ensures o == Apply(text, c)
  {
    if c.oldLen != |text| {
      return WrongLength;
    }
    if c.newLen < 0 {
      return Panicked;
    }
    var result: Text, srcPos := [], 0;
    for i := 0 to |c.ops|
      invariant Prepend(result, Scan(text, srcPos, c.ops[i..])) == Scan(text, 0, c.ops)
    {
      assert c.ops[i..][0] == c.ops[i] && c.ops[i..][1..] == c.ops[i + 1..];
      match c.ops[i] {
        case Retain(n) =>
          if srcPos + n > |text| { return RetainPastEnd; }
          if n < 0 || srcPos < 0 { return Panicked; }
          ghost var rest := Scan(text, srcPos + n, c.ops[i + 1..]);
          ghost var piece := text[srcPos..srcPos + n];
          assert rest.Done? ==> (result + piece) + rest.text == result + (piece + rest.text);
          result := result + text[srcPos..srcPos + n];
          srcPos := srcPos + n;
        case Insert(s) =>
          ghost var rest := Scan(text, srcPos, c.ops[i + 1..]);
          assert rest.Done? ==> (result + s) + rest.text == result + (s + rest.text);
          result := result + s;
        case Delete(n) =>
          if srcPos + n > |text| { return DeletePastEnd; }
          srcPos := srcPos + n;
        case Unknown(_) =>
          return UnknownType;
      }
    }
    if srcPos != |text| {
      return Unconsumed;
    }
    assert Scan(text, srcPos, c.ops[|c.ops|..]) == Done([]);
    assert result + [] == result;
    return Done(result);
  }

  lemma {:induction false} ScanRuns(text: Text, pos: nat, ops: seq<Op>)
    requires Positive(ops) && pos <= |text|
    ensures Scan(text, pos, ops).Done? <==> Consumed(ops) == |text| - pos
    ensures Consumed(ops) == |text| - pos ==> Scan(text, pos, ops).text == Run(text[pos..], ops)
    ensures !Scan(text, pos, ops).Panicked?
    decreases |ops|
  {
    if ops != [] {
      var n := InLen(ops[0]);
      if pos + n <= |text| {
        DropDrop(text, pos, n);
        ScanRuns(text, pos + n, ops[1..]);
      }
    }
  }

  /** On ops that passed the per-op checks, application succeeds exactly when `newLen` is not
      negative and both lengths fit, and then it yields the meaning of the ops. A panic is left
      only to a negative `newLen`. */
  lemma ApplyExact(text: Text, c: Changeset)
    requires Positive(c.ops)
    ensures Apply(text, c).Done? <==> c.newLen >= 0 && c.oldLen == |text| == Consumed(c.ops)
    ensures Apply(text, c).Done? ==> Apply(text, c).text == Run(text, c.ops)
    ensures Apply(text, c).Panicked? <==> c.oldLen == |text| && c.newLen < 0
  {
    ScanRuns(text, 0, c.ops);
    Units(text);
  }

  /** An op the loop gets past at source position `at` of a text of `n` units. */
  predicate Passes(n: nat, at: int, op: Op) {
    && !op.Unknown?
    && (op.Retain? || op.Delete? ==> at + op.len <= n)
    && (op.Retain? ==> op.len >= 0 && at >= 0)
  }

  /** A retain that passes the range check and then slices out of bounds. */
  predicate Trips(n: nat, at: int, op: Op) {
    op.Retain? && at + op.len <= n && (op.len < 0 || at < 0)
  }

  /** The loop, standing before op `j`, gets past it. */
  ghost predicate PassesAt(n: nat, pos: int, ops: seq<Op>, j: nat)
    requires j < |ops|
  {
    Passes(n, pos + Consumed(ops[..j]), ops[j])
  }

  /** The loop stands before op `k`, having got past all ops before it. */
  ghost predicate GetsTo(n: nat, pos: int, ops: seq<Op>, k: nat)
    requires k <= |ops|
  {
    forall j :: 0 <= j < k ==> PassesAt(n, pos, ops, j)
  }

  lemma ConsumedNext(ops: seq<Op>, k: nat)
    requires k < |ops|
    ensures Consumed(ops[..k + 1]) == InLen(ops[0]) + Consumed(ops[1..][..k])
  {
    assert ops[..k + 1][1..] == ops[1..][..k];
  }

  lemma PassesAtNext(n: nat, pos: int, ops: seq<Op>, j: nat)
    requires j + 1 < |ops|
    ensures PassesAt(n, pos, ops, j + 1) <==> PassesAt(n, pos + InLen(ops[0]), ops[1..], j)
  {
    ConsumedNext(ops, j);
  }

  lemma PassesAtFirst(n: nat, pos: int, ops: seq<Op>)
    requires ops != []
    ensures PassesAt(n, pos, ops, 0) <==> Passes(n, pos, ops[0])
  {
    assert ops[..0] == [];
  }

  lemma GetsToNext(n: nat, pos: int, ops: seq<Op>, k: nat)
    requires k < |ops|
    ensures Consumed(ops[..k + 1]) == InLen(ops[0]) + Consumed(ops[1..][..k])
    ensures GetsTo(n, pos, ops, k + 1) <==> Passes(n, pos, ops[0]) && GetsTo(n, pos + InLen(ops[0]), ops[1..], k)
  {
    ConsumedNext(ops, k);
    PassesAtFirst(n, pos, ops);
    var next, rest := pos + InLen(ops[0]), ops[1..];
    forall j | 0 <= j < k
      ensures PassesAt(n, next, rest, j) <==> PassesAt(n, pos, ops, j + 1)
    {
      PassesAtNext(n, pos, ops, j);
    }
    assert forall j :: 0 < j <= k ==> PassesAt(n, pos, ops, j) == PassesAt(n, next, rest, j - 1);
  }

  /** One op of the loop. */
  lemma ScanCons(text: Text, pos: int, ops: seq<Op>)
    requires ops != []
    ensures var rest := Scan(text, pos + InLen(ops[0]), ops[1..]);
      && (Scan(text, pos, ops).Done? <==> Passes(|text|, pos, ops[0]) && rest.Done?)
      && (Scan(text, pos, ops).Panicked? <==>
            Trips(|text|, pos, ops[0]) || (Passes(|text|, pos, ops[0]) && rest.Panicked?))
  {}

  lemma {:induction false} ScanDone(text: Text, pos: int, ops: seq<Op>)
    ensures Scan(text, pos, ops).Done? <==> GetsTo(|text|, pos, ops, |ops|) && pos + Consumed(ops) == |text|
    decreases |ops|
  {
    if ops != [] {
      var n, next := |text|, pos + InLen(ops[0]);
      ScanDone(text, next, ops[1..]);
      ScanCons(text, pos, ops);
      GetsToAll(n, pos, ops);
    }
  }

  lemma GetsToAll(n: nat, pos: int, ops: seq<Op>)
    requires ops != []
    ensures Consumed(ops) == InLen(ops[0]) + Consumed(ops[1..])
    ensures GetsTo(n, pos, ops, |ops|) <==>
      Passes(n, pos, ops[0]) && GetsTo(n, pos + InLen(ops[0]), ops[1..], |ops[1..]|)
  {
    GetsToNext(n, pos, ops, |ops| - 1);
  }

  /** The loop panics exactly when it gets to a retain that trips. */
  ghost predicate TripsAt(n: nat, pos: int, ops: seq<Op>, k: nat)
    requires k < |ops|
  {
    GetsTo(n, pos, ops, k) && Trips(n, pos + Consumed(ops[..k]), ops[k])
  }

  lemma TripsNext(n: nat, pos: int, ops: seq<Op>, k: nat)
    requires k < |ops| - 1
    ensures TripsAt(n, pos, ops, k + 1) <==> Passes(n, pos, ops[0]) && TripsAt(n, pos + InLen(ops[0]), ops[1..], k)
  {
    GetsToNext(n, pos, ops, k);
  }

  lemma TripsFirst(n: nat, pos: int, ops: seq<Op>)
    requires ops != []
    ensures TripsAt(n, pos, ops, 0) <==> Trips(n, pos, ops[0])
  {
    assert ops[..0] == [];
  }

  lemma {:induction false} ScanPanics(text: Text, pos: int, ops: seq<Op>)
    ensures Scan(text, pos, ops).Panicked? <==> exists k :: 0 <= k < |ops| && TripsAt(|text|, pos, ops, k)
    decreases |ops|
  {
    if ops != [] {
      var n, next := |text|, pos + InLen(ops[0]);
      ScanPanics(text, next, ops[1..]);
      ScanCons(text, pos, ops);
      TripsFirst(n, pos, ops);
      if k :| 0 <= k < |ops| - 1 && TripsAt(n, next, ops[1..], k) {
        TripsNext(n, pos, ops, k);
      }
      if k :| 0 < k < |ops| && TripsAt(n, pos, ops, k) {
        TripsNext(n, pos, ops, k - 1);
      }
    }
  }

  /** Exactly when `ApplyChangeset` succeeds and when it panics, for every text and every
      changeset, well-formed or not: success needs a `newLen` that is not negative, a loop that
      gets past every op and a source consumed in full; a panic comes from a negative `newLen`
      or from the first retain that slices out of bounds. */
  lemma ApplyOutcomes(text: Text, c: Changeset)
    ensures Apply(text, c).Done? <==>
      && c.oldLen == |text| == Consumed(c.ops) && c.newLen >= 0
      && GetsTo(|text|, 0, c.ops, |c.ops|)
    ensures Apply(text, c).Panicked? <==>
      && c.oldLen == |text|
      && (c.newLen < 0 || exists k :: 0 <= k < |c.ops| && TripsAt(|text|, 0, c.ops, k))
  {
    ScanDone(text, 0, c.ops);
    ScanPanics(text, 0, c.ops);
  }

  /** The first op the loop does not get past. */
  ghost predicate StopsAt(n: nat, pos: int, ops: seq<Op>, k: nat) {
    k < |ops| && GetsTo(n, pos, ops, k) && !PassesAt(n, pos, ops, k)
  }

  /** What is reported of an op that does not pass at `at`. */
  function Refusal(n: nat, at: int, op: Op): Outcome {
    if op.Unknown? then UnknownType
    else if op.Delete? then DeletePastEnd
    else if at + InLen(op) > n then RetainPastEnd
    else Panicked
  }

  lemma StopsNext(n: nat, pos: int, ops: seq<Op>, k: nat)
    requires StopsAt(n, pos, ops, k + 1)
    ensures Passes(n, pos, ops[0]) && StopsAt(n, pos + InLen(ops[0]), ops[1..], k)
    ensures Consumed(ops[..k + 1]) == InLen(ops[0]) + Consumed(ops[1..][..k])
  {
    PassesAtFirst(n, pos, ops);
    GetsToNext(n, pos, ops, k);
    PassesAtNext(n, pos, ops, k);
  }

  lemma {:induction false} ScanStops(text: Text, pos: int, ops: seq<Op>, k: nat)
    requires StopsAt(|text|, pos, ops, k)
    ensures Scan(text, pos, ops) == Refusal(|text|, pos + Consumed(ops[..k]), ops[k])
    decreases |ops|
  {
    if k == 0 {
      ScanStopsFirst(text, pos, ops);
    } else {
      StopsNext(|text|, pos, ops, k - 1);
      ScanStops(text, pos + InLen(ops[0]), ops[1..], k - 1);
      ScanRefuses(text, pos, ops);
    }
  }

  lemma ScanStopsFirst(text: Text, pos: int, ops: seq<Op>)
    requires StopsAt(|text|, pos, ops, 0)
    ensures Scan(text, pos, ops) == Refusal(|text|, pos + Consumed(ops[..0]), ops[0])
  {
    PassesAtFirst(|text|, pos, ops);
    assert ops[..0] == [];
  }

  lemma ScanRefuses(text: Text, pos: int, ops: seq<Op>)
    requires ops != [] && Passes(|text|, pos, ops[0]) && !Scan(text, pos + InLen(ops[0]), ops[1..]).Done?
    ensures Scan(text, pos, ops) == Scan(text, pos + InLen(ops[0]), ops[1..])
  {}

  lemma {:induction false} ScanEnds(text: Text, pos: int, ops: seq<Op>)
    requires GetsTo(|text|, pos, ops, |ops|)
    ensures Scan(text, pos, ops).Done? || Scan(text, pos, ops) == Unconsumed
    decreases |ops|
  {
    if ops != [] {
      GetsToAll(|text|, pos, ops);
      ScanEnds(text, pos + InLen(ops[0]), ops[1..]);
    }
  }

  lemma {:induction false} FirstStop(n: nat, pos: int, ops: seq<Op>, k: nat) returns (i: nat)
    requires k <= |ops| && GetsTo(n, pos, ops, k) && !GetsTo(n, pos, ops, |ops|)
    ensures StopsAt(n, pos, ops, i)
    decreases |ops| - k
  {
    if PassesAt(n, pos, ops, k) {
      i := FirstStop(n, pos, ops, k + 1);
    } else {
      i := k;
    }
  }

  /** What `ApplyChangeset` reports, for every text and every changeset: the wrong length before
      anything else, then the panic of a negative `newLen`, then what is wrong with the first op
      the loop does not get past, and an unconsumed source only when it gets past all of them. */
  lemma ApplyReports(text: Text, c: Changeset)
    ensures Apply(text, c) == WrongLength <==> c.oldLen != |text|
    ensures c.oldLen == |text| && c.newLen < 0 ==> Apply(text, c) == Panicked
    ensures c.oldLen == |text| && c.newLen >= 0 ==>
      && (forall k: nat :: StopsAt(|text|, 0, c.ops, k) ==>
            Apply(text, c) == Refusal(|text|, Consumed(c.ops[..k]), c.ops[k]))
      && ((exists k: nat :: StopsAt(|text|, 0, c.ops, k)) || GetsTo(|text|, 0, c.ops, |c.ops|))
      && (Apply(text, c) == Unconsumed <==> GetsTo(|text|, 0, c.ops, |c.ops|) && Consumed(c.ops) != |text|)
  {
    if c.oldLen == |text| && c.newLen >= 0 {
      forall k: nat | StopsAt(|text|, 0, c.ops, k)
        ensures Apply(text, c) == Refusal(|text|, Consumed(c.ops[..k]), c.ops[k])
      {
        ScanStops(text, 0, c.ops, k);
      }
      ScanDone(text, 0, c.ops);
      if GetsTo(|text|, 0, c.ops, |c.ops|) {
        ScanEnds(text, 0, c.ops);
      } else {
        var k := FirstStop(|text|, 0, c.ops, 0);
      }
    }
    ScanNeverLength(text, 0, c.ops);
  }

  lemma {:induction false} ScanNeverLength(text: Text, pos: int, ops: seq<Op>)
    ensures Scan(text, pos, ops) != WrongLength
    decreases |ops|
  {
    if ops != [] {
      ScanNeverLength(text, pos + InLen(ops[0]), ops[1..]);
    }
  }

  /** What an op writes when the source position is `at`. */
  function Wrote(text: Text, at: int, op: Op): Text {
    if op.Insert? then op.chars
    else if op.Retain? && 0 <= at <= at + op.len <= |text| then text[at..at + op.len]
    else []
  }

  /** The source position the loop, starting at `pos`, has reached before op `j`. */
  function Before(pos: int, ops: seq<Op>, j: nat): int
    requires j <= |ops|
  {
    pos + Consumed(ops[..j])
  }

  lemma BeforeNext(pos: int, ops: seq<Op>, j: nat)
    requires j < |ops|
    ensures Before(pos, ops, j + 1) == Before(pos + InLen(ops[0]), ops[1..], j) && Before(pos, ops, 0) == pos
  {
    ConsumedNext(ops, j);
    assert ops[..0] == [];
  }

  /** The pieces are what `wrote` makes of each op at the position the ops before it lead to. */
  ghost predicate WritesBy(wrote: (int, Op) -> Text, pos: int, ops: seq<Op>, pieces: seq<Text>) {
    && |pieces| == |ops|
    && forall j :: 0 <= j < |ops| ==> pieces[j] == wrote(Before(pos, ops, j), ops[j])
  }

  lemma WritesCons(wrote: (int, Op) -> Text, pos: int, ops: seq<Op>, pieces: seq<Text>)
    requires ops != [] && WritesBy(wrote, pos + InLen(ops[0]), ops[1..], pieces)
    ensures WritesBy(wrote, pos, ops, [wrote(pos, ops[0])] + pieces)
  {
    var all := [wrote(pos, ops[0])] + pieces;
    BeforeNext(pos, ops, 0);
    forall j | 0 < j < |ops|
      ensures all[j] == wrote(Before(pos, ops, j), ops[j])
    {
      BeforeNext(pos, ops, j - 1);
      assert all[j] == pieces[j - 1] && ops[j] == ops[1..][j - 1];
    }
  }

  lemma {:induction false} ScanWrites(text: Text, pos: int, ops: seq<Op>) returns (pieces: seq<Text>)
    requires Scan(text, pos, ops).Done?
    ensures WritesBy((at, op) => Wrote(text, at, op), pos, ops, pieces) && Scan(text, pos, ops).text == Cat(pieces)
    decreases |ops|
  {
    pieces := [];
    if ops != [] {
      ScanOne(text, pos, ops);
      var rest := ScanWrites(text, pos + InLen(ops[0]), ops[1..]);
      WritesCons((at, op) => Wrote(text, at, op), pos, ops, rest);
      CatCons(Wrote(text, pos, ops[0]), rest);
      pieces := [Wrote(text, pos, ops[0])] + rest;
    }
  }

  lemma ScanOne(text: Text, pos: int, ops: seq<Op>)
    requires ops != [] && Scan(text, pos, ops).Done?
    ensures Scan(text, pos + InLen(ops[0]), ops[1..]).Done?
    ensures Scan(text, pos, ops).text
      == Wrote(text, pos, ops[0]) + Scan(text, pos + InLen(ops[0]), ops[1..]).text
  {
    var rest := Scan(text, pos + InLen(ops[0]), ops[1..]);
    if rest.Done? {
      Units(rest.text);
    }
  }

  /** Whatever succeeds writes, op by op, the text of each insert and the stretch of the source
      each retain stands at; zero and negative lengths included. */
  lemma ApplyWrites(text: Text, c: Changeset)
    requires Apply(text, c).Done?
    ensures exists pieces ::
      WritesBy((at, op) => Wrote(text, at, op), 0, c.ops, pieces) && Apply(text, c).text == Cat(pieces)
  {
    var pieces := ScanWrites(text, 0, c.ops);
  }

  /** Both panics are reachable: by a negative `newLen` on ops that fit, and by a retain of
      negative length. */
  lemma ApplyCanPanic(u: nat)
    ensures Apply([u], Changeset(1, -1, [Retain(1)])) == Panicked
    ensures Apply([u], Changeset(1, 1, [Retain(-1), Retain(2)])) == Panicked
  {}

  // ----- The browser's applyChangeset

  /** A `slice` index: negative ones count from the end, and both ends are clipped. */
  function Clip(text: Text, pos: int): (r: nat)
    ensures r <= |text|
    ensures 0 <= pos <= |text| ==> r == pos
  {
    if pos < 0 then Max(|text| + pos, 0) else Min(pos, |text|)
  }

  function Slice(text: Text, from: int, to: int): Text {
    if Clip(text, from) < Clip(text, to) then text[Clip(text, from)..Clip(text, to)] else []
  }

  /** The JavaScript loop has no checks: `slice` clips, and unknown ops are skipped. */
  function ScanJs(text: Text, pos: int, ops: seq<Op>): Text
    decreases |ops|
  {
    if ops == [] then []
    else
      var n := InLen(ops[0]);
      Out(Slice(text, pos, pos + n), ops[0]) + ScanJs(text, pos + n, ops[1..])
  }

  /** What `slice` means: between indexes in the text the stretch between them, a negative index
      counted from the end, an index beyond either end taken for that end, and nothing when the
      indexes are not in order. */
  lemma SliceExact(text: Text, from: int, to: int)
    ensures 0 <= from <= to <= |text| ==> Slice(text, from, to) == text[from..to]
    ensures -|text| <= from < 0 ==> Slice(text, from, to) == Slice(text, |text| + from, to)
    ensures -|text| <= to < 0 ==> Slice(text, from, to) == Slice(text, from, |text| + to)
    ensures from < -|text| ==> Slice(text, from, to) == Slice(text, 0, to)
    ensures to < -|text| ==> Slice(text, from, to) == []
    ensures from > |text| ==> Slice(text, from, to) == []
    ensures to > |text| ==> Slice(text, from, to) == Slice(text, from, |text|)
    ensures 0 <= to <= from ==> Slice(text, from, to) == []
  {}

  /** What an op writes in the browser when the source position is `at`. */
  function WroteJs(text: Text, at: int, op: Op): Text {
    match op
    case Retain(n) => Slice(text, at, at + n)
    case Insert(s) => s
    case _ => []
  }

  lemma ScanJsHead(text: Text, pos: int, ops: seq<Op>)
    requires ops != []
    ensures ScanJs(text, pos, ops) == WroteJs(text, pos, ops[0]) + ScanJs(text, pos + InLen(ops[0]), ops[1..])
  {}

  /** The same for the browser, whose loop never fails: ops of any kind and length. */
  lemma {:induction false} ScanJsWrites(text: Text, pos: int, ops: seq<Op>) returns (pieces: seq<Text>)
    ensures WritesBy((at, op) => WroteJs(text, at, op), pos, ops, pieces) && ScanJs(text, pos, ops) == Cat(pieces)
    decreases |ops|
  {
    pieces := [];
    if ops != [] {
      var first := WroteJs(text, pos, ops[0]);
      var rest := ScanJsWrites(text, pos + InLen(ops[0]), ops[1..]);
      ScanJsHead(text, pos, ops);
      WritesCons((at, op) => WroteJs(text, at, op), pos, ops, rest);
      CatCons(first, rest);
      pieces := [first] + rest;
    }
  }

  /** What was written and what the ops left will write make up `goal`. */
  ghost predicate WritingJs(text: Text, left: seq<Op>, result: Text, pos: int, goal: Text) {
    result + ScanJs(text, pos, left) == goal
  }

  lemma WritingJsStep(text: Text, left: seq<Op>, op: Op, rest: seq<Op>, result: Text, pos: int,
                      chunk: Text, result': Text, pos': int, goal: Text)
    requires WritingJs(text, left, result, pos, goal) && left != [] && left[0] == op && left[1..] == rest
    requires pos' == pos + InLen(op) && result' == result + chunk
    requires chunk == if op.Retain? then Slice(text, pos, pos') else if op.Insert? then op.chars else []
    ensures WritingJs(text, rest, result', pos', goal)
  {
    Shifted(result, chunk, ScanJs(text, pos', rest), result', ScanJs(text, pos, left));
  }

  lemma WritingJsEnds(text: Text, result: Text, pos: int, goal: Text)
    requires WritingJs(text, [], result, pos, goal)
    ensures result == goal
  {
    Units(result);
  }

  /** `None` is the thrown length error. */
  function ApplyJs(text: Text, c: Changeset): Option<Text> {
    if c.oldLen != |text| then None else Some(ScanJs(text, 0, c.ops))
  }

  method ApplyChangesetJs(text: Text, c: Changeset) returns (r: Option<Text>)
    ensures r == ApplyJs(text, c)
  {
    if c.oldLen != |text| {
      return None;
    }
    var result: Text, pos := [], 0;
    ghost var goal := ScanJs(text, 0, c.ops);
    Units(goal);
    Units(c.ops);
    for i := 0 to |c.ops|
      invariant WritingJs(text, c.ops[i..], result, pos, goal)
    {
      var op := c.ops[i];
      ghost var result', pos', chunk: Text := result, pos, [];
      Units(result);
      if op.Retain? {
        result := result + Slice(text, pos, pos + op.len);
        pos := pos + op.len;
        chunk := Slice(text, pos', pos);
      } else if op.Insert? {
        chunk := op.chars;
        result := result + op.chars;
      } else if op.Delete? {
        pos := pos + op.len;
      }
      DropOne(c.ops, i);
      WritingJsStep(text, c.ops[i..], op, c.ops[i + 1..], result', pos', chunk, result, pos, goal);
    }
    WritingJsEnds(text, result, pos, goal);
    return Some(result);
  }

  lemma ScanInside(text: Text, pos: nat, ops: seq<Op>, rest: Text)
    requires Positive(ops) && ops != [] && pos + InLen(ops[0]) <= |text|
    requires Scan(text, pos + InLen(ops[0]), ops[1..]) == Done(rest)
    ensures Scan(text, pos, ops) == Done(Out(text[pos..pos + InLen(ops[0])], ops[0]) + rest)
  {
    Units(rest);
  }

  lemma ScanJsInside(text: Text, pos: nat, ops: seq<Op>, rest: Text)
    requires Positive(ops) && ops != [] && pos + InLen(ops[0]) <= |text|
    requires ScanJs(text, pos + InLen(ops[0]), ops[1..]) == rest
    ensures ScanJs(text, pos, ops) == Out(text[pos..pos + InLen(ops[0])], ops[0]) + rest
  {
    assert Slice(text, pos, pos + InLen(ops[0])) == text[pos..pos + InLen(ops[0])];
  }

  /** Where the ops fit the text the two loops write the same. */
  lemma {:induction false} ScanJsIsScan(text: Text, pos: nat, ops: seq<Op>)
    requires Positive(ops) && pos + Consumed(ops) == |text|
    ensures Scan(text, pos, ops) == Done(ScanJs(text, pos, ops))
    decreases |ops|
  {
    if ops != [] {
      var next := pos + InLen(ops[0]);
      var rest := ScanJs(text, next, ops[1..]);
      ScanJsIsScan(text, next, ops[1..]);
      ScanInside(text, pos, ops, rest);
      ScanJsInside(text, pos, ops, rest);
    }
  }

  /** On a valid changeset the two ports agree, on success and on the length error. */
  lemma PortsAgree(text: Text, c: Changeset)
    requires Valid(c)
    ensures |text| == c.oldLen ==>
      ApplyJs(text, c) == Some(Run(text, c.ops)) && Apply(text, c) == Done(Run(text, c.ops))
    ensures |text| != c.oldLen ==> ApplyJs(text, c) == None && Apply(text, c) == WrongLength
  {
    ApplyExact(text, c);
    if |text| == c.oldLen {
      ScanJsIsScan(text, 0, c.ops);
    }
  }

  // ----- The constructors, through their meaning

  /** Retain what precedes `pos`, apply one op to `mid` units, retain the rest. */
  lemma AroundRuns(pos: int, op: Op, tail: int)
    ensures var ops := RetainIf(pos) + [op] + RetainIf(tail);
      && (Positive(ops) <==> PositiveOp(op))
      && Consumed(ops) == Max(pos, 0) + InLen(op) + Max(tail, 0)
      && Produced(ops) == Max(pos, 0) + OutLen(op) + Max(tail, 0)
  {
    var before, after := RetainIf(pos), RetainIf(tail);
    LengthsConcat(before, [op]);
    LengthsConcat(before + [op], after);
    assert (before + [op] + after)[|before|] == op;
    LengthsSingle(op);
    RetainIfLengths(pos);
    RetainIfLengths(tail);
  }

  lemma RetainIfLengths(n: int)
    ensures Consumed(RetainIf(n)) == Produced(RetainIf(n)) == Max(n, 0)
  {
    LengthsSingle(Retain(n));
  }

  lemma RetainIfRuns(t: Text)
    ensures Positive(RetainIf(|t|)) && Consumed(RetainIf(|t|)) == |t|
    ensures Run(t, RetainIf(|t|)) == t
  {
    if t != [] {
      RunOne(t, Retain(|t|));
    }
  }

  lemma AroundText(l: Text, mid: Text, r: Text, op: Op)
    requires PositiveOp(op) && InLen(op) == |mid|
    ensures var ops := RetainIf(|l|) + [op] + RetainIf(|r|);
      && Positive(ops) && Consumed(ops) == |l + mid + r|
      && Run(l + mid + r, ops) == l + Out(mid, op) + r
  {
    RetainIfRuns(l);
    RetainIfRuns(r);
    RunOne(mid, op);
    RunConcat(l, mid, RetainIf(|l|), [op]);
    RunConcat(l + mid, r, RetainIf(|l|) + [op], RetainIf(|r|));
  }

  /** `MakeInsert` yields a valid changeset exactly for a non-empty text at a position inside
      the document, and it then inserts that text there. */
  lemma InsertAtExact(oldLen: int, pos: int, s: Text)
    ensures Valid(InsertAt(oldLen, pos, s)) <==> s != [] && 0 <= pos <= oldLen
    ensures Valid(InsertAt(oldLen, pos, s)) ==> forall doc: Text :: |doc| == oldLen ==>
      Run(doc, InsertAt(oldLen, pos, s).ops) == doc[..pos] + s + doc[pos..]
  {
    AroundRuns(pos, Insert(s), oldLen - pos);
    if s != [] && 0 <= pos <= oldLen {
      forall doc: Text | |doc| == oldLen
        ensures Run(doc, InsertAt(oldLen, pos, s).ops) == doc[..pos] + s + doc[pos..]
      {
        InsertAtRuns(doc, pos, s);
      }
    }
  }

  lemma InsertAtRuns(doc: Text, pos: nat, s: Text)
    requires pos <= |doc| && s != []
    ensures Valid(InsertAt(|doc|, pos, s)) && Run(doc, InsertAt(|doc|, pos, s).ops) == doc[..pos] + s + doc[pos..]
  {
    AroundRuns(pos, Insert(s), |doc| - pos);
    Units(doc[..pos]);
    Halves(doc, pos);
    AroundText(doc[..pos], [], doc[pos..], Insert(s));
  }

  lemma DeleteAtRuns(doc: Text, pos: nat, count: nat)
    requires 0 < count && pos + count <= |doc|
    ensures Valid(DeleteAt(|doc|, pos, count))
    ensures Run(doc, DeleteAt(|doc|, pos, count).ops) == doc[..pos] + doc[pos + count..]
  {
    AroundRuns(pos, Delete(count), |doc| - pos - count);
    var l, mid, r := doc[..pos], doc[pos..pos + count], doc[pos + count..];
    AroundText(l, mid, r, Delete(count));
    Units(l);
    SliceSum(doc, pos, pos + count);
    Halves(doc, pos + count);
  }

  /** `MakeDelete` yields a valid changeset exactly for a non-empty range inside the
      document, and it then removes that range. */
  lemma DeleteAtExact(oldLen: int, pos: int, count: int)
    ensures Valid(DeleteAt(oldLen, pos, count)) <==> count > 0 && 0 <= pos && pos + count <= oldLen
    ensures Valid(DeleteAt(oldLen, pos, count)) ==> forall doc: Text :: |doc| == oldLen ==>
      Run(doc, DeleteAt(oldLen, pos, count).ops) == doc[..pos] + doc[pos + count..]
  {
    AroundRuns(pos, Delete(count), oldLen - pos - count);
    if count > 0 && 0 <= pos && pos + count <= oldLen {
      forall doc: Text | |doc| == oldLen
        ensures Run(doc, DeleteAt(oldLen, pos, count).ops) == doc[..pos] + doc[pos + count..]
      {
        DeleteAtRuns(doc, pos, count);
      }
    }
  }
}
