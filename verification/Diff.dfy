/** The longest-common-subsequence diff (internal/ot/diff.go, web/client.js:238-280). */
module Diff {
  import opened Texts
  import opened Changesets
  import opened Application
  import opened Cursors
  import opened NormalForms
  import opened Utf8

  /** What the diff compares, and how many code units that takes: the server compares runes
      and counts UTF-8 bytes, the browser compares and counts UTF-16 units. */
  datatype Coding = Runes | CodeUnits

  function Enc(coding: Coding, sym: nat): (t: Text)
    ensures t != []
  {
    match coding
    case Runes => Encode(sym)
    case CodeUnits => [sym]
  }

  function EncAll(coding: Coding, syms: seq<nat>): Text {
    if syms == [] then [] else Enc(coding, syms[0]) + EncAll(coding, syms[1..])
  }

  datatype Kind = Keep | Ins | Del

  datatype Seg = Seg(kind: Kind, sym: nat)

  // ----- The longest common subsequence

  function Front<T>(s: seq<T>): seq<T>
    requires s != []
  {
    s[..|s| - 1]
  }

  function Last<T>(s: seq<T>): T
    requires s != []
  {
    s[|s| - 1]
  }

  /** The recurrence the table is filled by. */
  function Lcs(o: seq<nat>, w: seq<nat>): nat
    decreases |o| + |w|
  {
    if o == [] || w == [] then 0
    else if Last(o) == Last(w) then Lcs(Front(o), Front(w)) + 1
    else Max(Lcs(Front(o), w), Lcs(o, Front(w)))
  }

  /** The edit script the backtracking reads off the table, in document order. */
  function Script(o: seq<nat>, w: seq<nat>): seq<Seg>
    decreases |o| + |w|
  {
    if o == [] && w == [] then []
    else if o != [] && w != [] && Last(o) == Last(w) then
      Script(Front(o), Front(w)) + [Seg(Keep, Last(o))]
    else if w != [] && (o == [] || Lcs(o, Front(w)) >= Lcs(Front(o), w)) then
      Script(o, Front(w)) + [Seg(Ins, Last(w))]
    else
      Script(Front(o), w) + [Seg(Del, Last(o))]
  }

  function SegOp(coding: Coding, seg: Seg): Op {
    match seg.kind
    case Keep => Retain(|Enc(coding, seg.sym)|)
    case Ins => Insert(Enc(coding, seg.sym))
    case Del => Delete(|Enc(coding, seg.sym)|)
  }

  function SegOps(coding: Coding, segs: seq<Seg>): (ops: seq<Op>)
    ensures Positive(ops)
  {
    if segs == [] then [] else [SegOp(coding, segs[0])] + SegOps(coding, segs[1..])
  }

  /** The merged ops of the diff of two lists of symbols. */
  function DiffOps(coding: Coding, o: seq<nat>, w: seq<nat>): seq<Op> {
    Merged(SegOps(coding, Script(o, w)))
  }

  // ----- The imperative diff

  /** The table of internal/ot/diff.go:18-35: entry i, j is the recurrence on the two
      prefixes. */
  method LcsTable(o: seq<nat>, w: seq<nat>) returns (dp: array2<int>)
    ensures fresh(dp) && dp.Length0 == |o| + 1 && dp.Length1 == |w| + 1
    ensures forall i, j :: 0 <= i <= |o| && 0 <= j <= |w| ==> dp[i, j] == Lcs(o[..i], w[..j])
  {
    dp := new int[|o| + 1, |w| + 1]((_, _) => 0);
    for i := 1 to |o| + 1
      invariant forall k, j :: 0 <= k < i && 0 <= j <= |w| ==> dp[k, j] == Lcs(o[..k], w[..j])
      invariant forall k, j :: i <= k <= |o| && 0 <= j <= |w| ==> dp[k, j] == 0
    {
      for j := 1 to |w| + 1
        invariant forall k, l :: 0 <= k < i && 0 <= l <= |w| ==> dp[k, l] == Lcs(o[..k], w[..l])
        invariant forall l :: 0 <= l < j ==> dp[i, l] == Lcs(o[..i], w[..l])
        invariant forall k, l :: i < k <= |o| && 0 <= l <= |w| ==> dp[k, l] == 0
      {
        PrefixStep(o, w, i, j);
        if o[i - 1] == w[j - 1] {
          dp[i, j] := dp[i - 1, j - 1] + 1;
        } else if dp[i - 1, j] > dp[i, j - 1] {
          dp[i, j] := dp[i - 1, j];
        } else {
          dp[i, j] := dp[i, j - 1];
        }
      }
    }
  }

  lemma PrefixStep(o: seq<nat>, w: seq<nat>, i: nat, j: nat)
    requires 0 < i <= |o| && 0 < j <= |w|
    ensures Lcs(o[..i], w[..j]) ==
      if o[i - 1] == w[j - 1] then Lcs(o[..i - 1], w[..j - 1]) + 1
      else Max(Lcs(o[..i - 1], w[..j]), Lcs(o[..i], w[..j - 1]))
  {
    assert Front(o[..i]) == o[..i - 1] && Front(w[..j]) == w[..j - 1];
  }

  function Backwards<T>(s: seq<T>): seq<T> {
    if s == [] then [] else [Last(s)] + Backwards(Front(s))
  }

  lemma {:induction false} BackwardsAt<T>(s: seq<T>, k: nat)
    requires k < |s|
    ensures |Backwards(s)| == |s| && Backwards(s)[k] == s[|s| - 1 - k]
  {
    if k > 0 {
      BackwardsAt(Front(s), k - 1);
    } else if |s| > 1 {
      BackwardsAt(Front(s), 0);
    }
  }

  /** The two-index swap loop of internal/ot/diff.go:62-64. */
  method ReverseSegs<T>(segs: array<T>)
    modifies segs
    ensures segs[..] == Backwards(old(segs[..]))
  {
    ghost var was := segs[..];
    var l, r := 0, segs.Length - 1;
    while l < r
      invariant 0 <= l <= segs.Length && r == segs.Length - 1 - l && l <= r + 1
      invariant forall k :: 0 <= k < l ==> segs[k] == was[segs.Length - 1 - k] && segs[segs.Length - 1 - k] == was[k]
      invariant forall k :: l <= k <= r ==> segs[k] == was[k]
    {
      segs[l], segs[r] := segs[r], segs[l];
      l, r := l + 1, r - 1;
    }
    assert was == [] ==> Backwards(was) == [];
    forall k | 0 <= k < |was|
      ensures |Backwards(was)| == |was| && segs[..][k] == Backwards(was)[k]
    {
      BackwardsAt(was, k);
    }
  }

  /** One step back from the corner of two prefixes. */
  lemma StepBack(o: seq<nat>, w: seq<nat>, i: nat, j: nat, i': nat, j': nat, seg: Seg)
    requires i <= |o| && j <= |w| && (i > 0 || j > 0)
    requires
      if i > 0 && j > 0 && o[i - 1] == w[j - 1] then
        i' == i - 1 && j' == j - 1 && seg == Seg(Keep, o[i - 1])
      else if j > 0 && (i == 0 || Lcs(o[..i], w[..j - 1]) >= Lcs(o[..i - 1], w[..j])) then
        i' == i && j' == j - 1 && seg == Seg(Ins, w[j - 1])
      else i' == i - 1 && j' == j && seg == Seg(Del, o[i - 1])
    ensures Script(o[..i], w[..j]) == Script(o[..i'], w[..j']) + [seg]
  {
    assert i > 0 ==> Front(o[..i]) == o[..i - 1] && Last(o[..i]) == o[i - 1];
    assert j > 0 ==> Front(w[..j]) == w[..j - 1] && Last(w[..j]) == w[j - 1];
  }

  /** Walks the table back from the far corner; the segments come out last first. */
  method Backtrack(o: seq<nat>, w: seq<nat>, dp: array2<int>) returns (segs: seq<Seg>)
    requires dp.Length0 == |o| + 1 && dp.Length1 == |w| + 1
    requires forall i, j :: 0 <= i <= |o| && 0 <= j <= |w| ==> dp[i, j] == Lcs(o[..i], w[..j])
    ensures Backwards(segs) == Script(o, w)
  {
    segs := [];
    var i, j := |o|, |w|;
    Units(o);
    Units(w);
    Units(Script(o, w));
    while i > 0 || j > 0
      invariant 0 <= i <= |o| && 0 <= j <= |w|
      invariant Script(o[..i], w[..j]) + Backwards(segs) == Script(o, w)
      decreases i + j
    {
      ghost var i', j' := i, j;
      var seg;
      if i > 0 && j > 0 && o[i - 1] == w[j - 1] {
        seg := Seg(Keep, o[i - 1]);
        i, j := i - 1, j - 1;
      } else if j > 0 && (i == 0 || dp[i, j - 1] >= dp[i - 1, j]) {
        seg := Seg(Ins, w[j - 1]);
        j := j - 1;
      } else {
        seg := Seg(Del, o[i - 1]);
        i := i - 1;
      }
      StepBack(o, w, i', j', i, j, seg);
      PushBack(Script(o[..i], w[..j]), segs, seg);
      segs := segs + [seg];
    }
    assert o[..0] == [] && w[..0] == [];
  }

  lemma PushBack<T>(front: seq<T>, s: seq<T>, x: T)
    ensures front + Backwards(s + [x]) == (front + [x]) + Backwards(s)
  {
    assert Last(s + [x]) == x && Front(s + [x]) == s;
    Assoc(front, [x], Backwards(s));
  }

  /** Table, backtracking, reversal and merging; `oldLen` and `newLen` are preset. */
  method DiffSymbols(coding: Coding, o: seq<nat>, w: seq<nat>, oldLen: nat, newLen: nat) returns (c: Changeset)
    ensures c == Changeset(oldLen, newLen, DiffOps(coding, o, w))
  {
    var dp := LcsTable(o, w);
    var back := Backtrack(o, w, dp);
    var segs := new Seg[|back|](i requires 0 <= i < |back| => back[i]);
    assert segs[..] == back;
    ReverseSegs(segs);
    var ops := MergeSegs(coding, segs[..]);
    c := Changeset(oldLen, newLen, ops);
  }

  method MergeSegs(coding: Coding, segs: seq<Seg>) returns (ops: seq<Op>)
    ensures ops == Merged(SegOps(coding, segs))
  {
    var result := new OpBuilder();
    ghost var goal := Merged(SegOps(coding, segs));
    for i := 0 to |segs|
      invariant fresh(result) && result.Valid()
      invariant AddAll(result.ops, SegOps(coding, segs[i..])) == goal
    {
      assert segs[i..][0] == segs[i] && segs[i..][1..] == segs[i + 1..];
      AddAllCons(result.ops, SegOp(coding, segs[i]), SegOps(coding, segs[i + 1..]));
      result.Add(SegOp(coding, segs[i]));
    }
    ops := result.ops;
  }

  /** The server's diff: lengths in bytes, comparison by runes. */
  method DiffToChangeset(oldText: seq<Byte>, newText: seq<Byte>) returns (c: Changeset)
    ensures c == ServerDiff(oldText, newText)
  {
    c := DiffSymbols(Runes, Decode(oldText), Decode(newText), |oldText|, |newText|);
  }

  /** The browser's diff. */
  method DiffToChangesetJs(oldText: Text, newText: Text) returns (c: Changeset)
    ensures c == BrowserDiff(oldText, newText)
  {
    c := DiffSymbols(CodeUnits, oldText, newText, |oldText|, |newText|);
  }

  function ServerDiff(oldText: seq<Byte>, newText: seq<Byte>): Changeset {
    Changeset(|oldText|, |newText|, DiffOps(Runes, Decode(oldText), Decode(newText)))
  }

  function BrowserDiff(oldText: Text, newText: Text): Changeset {
    Changeset(|oldText|, |newText|, DiffOps(CodeUnits, oldText, newText))
  }

  // ----- Round trip

  lemma {:induction false} SegOpsConcat(coding: Coding, p: seq<Seg>, q: seq<Seg>)
    ensures SegOps(coding, p + q) == SegOps(coding, p) + SegOps(coding, q)
  {
    if p == [] {
      Units(q);
    } else {
      Uncons(p, q);
      SegOpsConcat(coding, p[1..], q);
      Assoc([SegOp(coding, p[0])], SegOps(coding, p[1..]), SegOps(coding, q));
    }
  }

  lemma {:induction false} EncAllConcat(coding: Coding, p: seq<nat>, q: seq<nat>)
    ensures EncAll(coding, p + q) == EncAll(coding, p) + EncAll(coding, q)
  {
    if p == [] {
      Units(q);
    } else {
      Uncons(p, q);
      EncAllConcat(coding, p[1..], q);
      Assoc(Enc(coding, p[0]), EncAll(coding, p[1..]), EncAll(coding, q));
    }
  }

  lemma FrontLast<T>(s: seq<T>)
    requires s != []
    ensures s == Front(s) + [Last(s)]
  {}

  lemma EncAllOne(coding: Coding, sym: nat)
    ensures EncAll(coding, [sym]) == Enc(coding, sym)
  {
    Units(Enc(coding, sym));
    assert [sym][1..] == [];
  }

  lemma EncAllLast(coding: Coding, s: seq<nat>)
    requires s != []
    ensures EncAll(coding, s) == EncAll(coding, Front(s)) + Enc(coding, Last(s))
  {
    FrontLast(s);
    EncAllConcat(coding, Front(s), [Last(s)]);
    EncAllOne(coding, Last(s));
  }

  lemma SegOpsLast(coding: Coding, segs: seq<Seg>, seg: Seg)
    ensures SegOps(coding, segs + [seg]) == SegOps(coding, segs) + [SegOp(coding, seg)]
  {
    SegOpsConcat(coding, segs, [seg]);
    Units([SegOp(coding, seg)]);
  }

  /** The script, read as ops over code units, rewrites the old text to the new one. */
  lemma {:induction false} ScriptRuns(coding: Coding, o: seq<nat>, w: seq<nat>)
    ensures Consumed(SegOps(coding, Script(o, w))) == |EncAll(coding, o)|
    ensures Run(EncAll(coding, o), SegOps(coding, Script(o, w))) == EncAll(coding, w)
    decreases |o| + |w|
  {
    if o == [] && w == [] {
    } else if o != [] && w != [] && Last(o) == Last(w) {
      ScriptRuns(coding, Front(o), Front(w));
      ScriptStep(coding, o, w, Front(o), Front(w), Seg(Keep, Last(o)));
    } else if w != [] && (o == [] || Lcs(o, Front(w)) >= Lcs(Front(o), w)) {
      ScriptRuns(coding, o, Front(w));
      ScriptStep(coding, o, w, o, Front(w), Seg(Ins, Last(w)));
    } else {
      ScriptRuns(coding, Front(o), w);
      ScriptStep(coding, o, w, Front(o), w, Seg(Del, Last(o)));
    }
  }

  lemma ScriptStep(coding: Coding, o: seq<nat>, w: seq<nat>, o': seq<nat>, w': seq<nat>, seg: Seg)
    requires o' == (if seg.kind == Ins then o else if o == [] then [] else Front(o))
    requires seg.kind != Ins ==> o != [] && Last(o) == seg.sym
    requires w' == (if seg.kind == Del then w else if w == [] then [] else Front(w))
    requires seg.kind != Del ==> w != [] && Last(w) == seg.sym
    requires Consumed(SegOps(coding, Script(o', w'))) == |EncAll(coding, o')|
    requires Run(EncAll(coding, o'), SegOps(coding, Script(o', w'))) == EncAll(coding, w')
    ensures var ops := SegOps(coding, Script(o', w') + [seg]);
      Consumed(ops) == |EncAll(coding, o)| && Run(EncAll(coding, o), ops) == EncAll(coding, w)
  {
    var op := SegOp(coding, seg);
    var read := if seg.kind == Ins then [] else Enc(coding, seg.sym);
    SegOpsLast(coding, Script(o', w'), seg);
    RunOne(read, op);
    RunConcat(EncAll(coding, o'), read, SegOps(coding, Script(o', w')), [op]);
    Units(EncAll(coding, o'));
    Units(EncAll(coding, w'));
    if o != [] { EncAllLast(coding, o); }
    if w != [] { EncAllLast(coding, w); }
  }

  lemma DiffRuns(coding: Coding, o: seq<nat>, w: seq<nat>)
    ensures var ops := DiffOps(coding, o, w);
      && Canonical(ops) && Consumed(ops) == |EncAll(coding, o)| && Produced(ops) == |EncAll(coding, w)|
      && Run(EncAll(coding, o), ops) == EncAll(coding, w)
  {
    ScriptRuns(coding, o, w);
    MergedMeaning(SegOps(coding, Script(o, w)));
    RunLength(EncAll(coding, o), DiffOps(coding, o, w));
  }

  lemma {:induction false} EncAllUnits(s: seq<nat>)
    ensures EncAll(CodeUnits, s) == s
  {
    if s != [] {
      EncAllUnits(s[1..]);
      assert s == [s[0]] + s[1..];
    }
  }

  lemma {:induction false} EncAllRunes(s: seq<nat>)
    ensures EncAll(Runes, s) == EncodeAll(s)
  {
    if s != [] { EncAllRunes(s[1..]); }
  }

  /** Browser diff: for all texts it is valid, in merged form, and turns the old text into
      the new one. */
  lemma BrowserRoundTrip(oldText: Text, newText: Text)
    ensures Normal(BrowserDiff(oldText, newText))
    ensures Run(oldText, BrowserDiff(oldText, newText).ops) == newText
  {
    EncAllUnits(oldText);
    EncAllUnits(newText);
    DiffRuns(CodeUnits, oldText, newText);
  }

  /** Server diff: it yields a changeset that `Validate` accepts exactly when both texts are
      well-formed UTF-8. It is then in merged form and turns the old bytes into the new ones. */
  lemma ServerRoundTrip(oldText: seq<Byte>, newText: seq<Byte>)
    ensures Valid(ServerDiff(oldText, newText)) <==> WellFormed(oldText) && WellFormed(newText)
    ensures Valid(ServerDiff(oldText, newText)) ==>
      && Normal(ServerDiff(oldText, newText))
      && Run(oldText, ServerDiff(oldText, newText).ops) == newText
  {
    DecodeExact(oldText);
    DecodeExact(newText);
    EncAllRunes(Decode(oldText));
    EncAllRunes(Decode(newText));
    DiffRuns(Runes, Decode(oldText), Decode(newText));
  }

  /** On ill-formed bytes the diff breaks: the lone byte 0x80 is retained as three. */
  lemma ServerDiffBreaks()
    ensures !Valid(ServerDiff([0x80], [0x80]))
  {
    assert FrontLen([0x80]) == 0;
    ServerRoundTrip([0x80], [0x80]);
  }

  /** The browser's diff is the identity changeset exactly when nothing was typed. */
  lemma BrowserDiffIdentity(oldText: Text, newText: Text)
    ensures IsIdentity(BrowserDiff(oldText, newText)) <==> oldText == newText
    ensures oldText == newText ==> BrowserDiff(oldText, newText) == Identity(|oldText|)
  {
    BrowserRoundTrip(oldText, newText);
    if IsIdentity(BrowserDiff(oldText, newText)) {
      IsIdentityExact(BrowserDiff(oldText, newText));
      assert Run(oldText, BrowserDiff(oldText, newText).ops) == oldText;
    }
    if oldText == newText {
      SameScript(oldText);
      AddAllRetains([], SegOps(CodeUnits, Script(oldText, oldText)));
      CanonicalRetains(BrowserDiff(oldText, oldText).ops);
    }
  }

  lemma {:induction false} SameScript(s: seq<nat>)
    ensures AllRetain(SegOps(CodeUnits, Script(s, s)))
    decreases |s|
  {
    if s != [] {
      SameScript(Front(s));
      SegOpsLast(CodeUnits, Script(Front(s), Front(s)), Seg(Keep, Last(s)));
    }
  }

  // ----- Optimality

  /** `s` can be read off `t` by leaving symbols out. */
  predicate IsSubseq(s: seq<nat>, t: seq<nat>)
    decreases |t|
  {
    if s == [] then true
    else if t == [] then false
    else (Last(s) == Last(t) && IsSubseq(Front(s), Front(t))) || IsSubseq(s, Front(t))
  }

  lemma {:induction false} SubseqShrinks(s: seq<nat>, t: seq<nat>)
    requires s != [] && IsSubseq(s, t)
    ensures IsSubseq(Front(s), t)
    decreases |t|
  {
    if IsSubseq(s, Front(t)) {
      SubseqShrinks(s, Front(t));
    }
  }

  lemma SubseqDropsLast(s: seq<nat>, t: seq<nat>)
    requires s != [] && IsSubseq(s, t)
    ensures IsSubseq(Front(s), Front(t))
  {
    if IsSubseq(s, Front(t)) {
      SubseqShrinks(s, Front(t));
    }
  }

  /** No common subsequence is longer than the recurrence says. */
  lemma {:induction false} LcsBounds(s: seq<nat>, o: seq<nat>, w: seq<nat>)
    requires IsSubseq(s, o) && IsSubseq(s, w)
    ensures |s| <= Lcs(o, w)
    decreases |o| + |w|
  {
    if s != [] {
      if Last(o) == Last(w) {
        SubseqDropsLast(s, o);
        SubseqDropsLast(s, w);
        LcsBounds(Front(s), Front(o), Front(w));
      } else if IsSubseq(s, Front(o)) {
        LcsBounds(s, Front(o), w);
      } else {
        LcsBounds(s, o, Front(w));
      }
    }
  }

  lemma {:induction false} SubseqConcat(s: seq<nat>, t: seq<nat>, s': seq<nat>, t': seq<nat>)
    requires IsSubseq(s, t) && IsSubseq(s', t')
    ensures IsSubseq(s + s', t + t')
    decreases |t'|
  {
    if t' == [] {
      Units(s);
      Units(t);
    } else {
      FrontSum(t, t');
      if s' == [] {
        Units(s);
        SubseqConcat(s, t, [], Front(t'));
        if s != [] { assert IsSubseq(s + [], Front(t + t')); }
      } else {
        FrontSum(s, s');
        if Last(s') == Last(t') && IsSubseq(Front(s'), Front(t')) {
          SubseqConcat(s, t, Front(s'), Front(t'));
        } else {
          SubseqConcat(s, t, s', Front(t'));
        }
      }
    }
  }

  lemma FrontSum(s: seq<nat>, t: seq<nat>)
    requires t != []
    ensures Front(s + t) == s + Front(t) && Last(s + t) == Last(t)
  {}

  lemma {:induction false} SubseqItself(s: seq<nat>)
    ensures IsSubseq(s, s)
    decreases |s|
  {
    if s != [] { SubseqItself(Front(s)); }
  }

  /** The source units a list of ops retains, and how many they are. */
  function RetainedText(text: Text, ops: seq<Op>): Text
    requires Positive(ops) && Consumed(ops) == |text|
    decreases |ops|
  {
    if ops == [] then []
    else
      var n := InLen(ops[0]);
      (if ops[0].Retain? then text[..n] else []) + RetainedText(text[n..], ops[1..])
  }

  function Retained(ops: seq<Op>): int {
    if ops == [] then 0 else (if ops[0].Retain? then ops[0].len else 0) + Retained(ops[1..])
  }

  /** Units inserted plus units deleted. */
  function EditSize(ops: seq<Op>): int {
    if ops == [] then 0
    else InLen(ops[0]) + OutLen(ops[0]) - (if ops[0].Retain? then 2 * ops[0].len else 0) + EditSize(ops[1..])
  }

  lemma {:induction false} EditSizeIs(ops: seq<Op>)
    ensures EditSize(ops) == Consumed(ops) + Produced(ops) - 2 * Retained(ops)
  {
    if ops != [] { EditSizeIs(ops[1..]); }
  }

  /** What a changeset retains is common to the text before and the text after. */
  lemma {:induction false} RetainedIsCommon(text: Text, ops: seq<Op>)
    requires Positive(ops) && Consumed(ops) == |text|
    ensures |RetainedText(text, ops)| == Retained(ops)
    ensures IsSubseq(RetainedText(text, ops), text)
    ensures IsSubseq(RetainedText(text, ops), Run(text, ops))
    decreases |ops|
  {
    if ops != [] {
      var n := InLen(ops[0]);
      var kept := if ops[0].Retain? then text[..n] else [];
      var rest := RetainedText(text[n..], ops[1..]);
      RetainedIsCommon(text[n..], ops[1..]);
      SubseqItself(kept);
      Halves(text, n);
      SubseqConcat(kept, text[..n], rest, text[n..]);
      SubseqConcat(kept, Out(text[..n], ops[0]), rest, Run(text[n..], ops[1..]));
    }
  }

  function Keeps(segs: seq<Seg>): nat {
    if segs == [] then 0 else (if segs[0].kind == Keep then 1 else 0) + Keeps(segs[1..])
  }

  lemma {:induction false} KeepsLast(segs: seq<Seg>, seg: Seg)
    ensures Keeps(segs + [seg]) == Keeps(segs) + if seg.kind == Keep then 1 else 0
  {
    if segs != [] {
      Uncons(segs, [seg]);
      KeepsLast(segs[1..], seg);
    } else {
      Units([seg]);
    }
  }

  lemma {:induction false} ScriptKeeps(o: seq<nat>, w: seq<nat>)
    ensures Keeps(Script(o, w)) == Lcs(o, w)
    decreases |o| + |w|
  {
    if o == [] && w == [] {
    } else if o != [] && w != [] && Last(o) == Last(w) {
      ScriptKeeps(Front(o), Front(w));
      KeepsLast(Script(Front(o), Front(w)), Seg(Keep, Last(o)));
    } else if w != [] && (o == [] || Lcs(o, Front(w)) >= Lcs(Front(o), w)) {
      ScriptKeeps(o, Front(w));
      KeepsLast(Script(o, Front(w)), Seg(Ins, Last(w)));
    } else {
      ScriptKeeps(Front(o), w);
      KeepsLast(Script(Front(o), w), Seg(Del, Last(o)));
    }
  }

  lemma {:induction false} SegOpsRetained(segs: seq<Seg>)
    ensures Retained(SegOps(CodeUnits, segs)) == Keeps(segs)
  {
    if segs != [] {
      SegOpsRetained(segs[1..]);
      assert SegOps(CodeUnits, segs)[1..] == SegOps(CodeUnits, segs[1..]);
    }
  }

  lemma {:induction false} RetainedConcat(p: seq<Op>, q: seq<Op>)
    ensures Retained(p + q) == Retained(p) + Retained(q)
  {
    if p == [] {
      Units(q);
    } else {
      Uncons(p, q);
      RetainedConcat(p[1..], q);
    }
  }

  lemma {:induction false} AddAllRetained(ops: seq<Op>, raw: seq<Op>)
    ensures Retained(AddAll(ops, raw)) == Retained(ops) + Retained(raw)
    decreases |raw|
  {
    if raw != [] {
      AddOpRetained(ops, raw[0]);
      AddAllRetained(AddOp(ops, raw[0]), raw[1..]);
    }
  }

  lemma AddOpRetained(ops: seq<Op>, op: Op)
    ensures Retained(AddOp(ops, op)) == Retained(ops) + Retained([op])
  {
    RetainedConcat(ops, [op]);
    if ops != [] && SameKind(ops[|ops| - 1], op) {
      var front, last := ops[..|ops| - 1], ops[|ops| - 1];
      assert ops == front + [last];
      RetainedConcat(front, [last]);
      RetainedConcat(front, [Join(last, op)]);
    }
  }

  /** Optimality over symbols: of all changesets that turn `o` into `w`, the diff retains the
      most and so inserts and deletes the least. The maximum is the table's last entry. */
  lemma DiffOptimal(o: seq<nat>, w: seq<nat>, c: Changeset)
    requires Valid(c) && c.oldLen == |o| && Run(o, c.ops) == w
    ensures Retained(c.ops) <= Retained(BrowserDiff(o, w).ops) == Lcs(o, w)
    ensures EditSize(BrowserDiff(o, w).ops) <= EditSize(c.ops)
  {
    RetainedIsCommon(o, c.ops);
    LcsBounds(RetainedText(o, c.ops), o, w);
    ScriptKeeps(o, w);
    SegOpsRetained(Script(o, w));
    AddAllRetained([], SegOps(CodeUnits, Script(o, w)));
    BrowserRoundTrip(o, w);
    RunLength(o, c.ops);
    EditSizeIs(c.ops);
    EditSizeIs(BrowserDiff(o, w).ops);
  }

  /** The table's last entry is the true length: some common subsequence has it, none is
      longer. */
  lemma LcsIsLongest(o: seq<nat>, w: seq<nat>)
    ensures exists s :: IsSubseq(s, o) && IsSubseq(s, w) && |s| == Lcs(o, w)
    ensures forall s :: IsSubseq(s, o) && IsSubseq(s, w) ==> |s| <= Lcs(o, w)
  {
    var c := BrowserDiff(o, w);
    BrowserRoundTrip(o, w);
    DiffOptimal(o, w, c);
    RetainedIsCommon(o, c.ops);
    var s := RetainedText(o, c.ops);
    assert IsSubseq(s, o) && IsSubseq(s, w) && |s| == Lcs(o, w);
    forall s | IsSubseq(s, o) && IsSubseq(s, w)
      ensures |s| <= Lcs(o, w)
    {
      LcsBounds(s, o, w);
    }
  }
}
