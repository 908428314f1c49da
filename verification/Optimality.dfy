/** What the diff's promise of a minimal changeset (internal/ot/diff.go:11, web/client.js:238)
    is worth in the server: in whole runes always, in bytes exactly for ASCII. */
module Optimality {
  import opened Texts
  import opened Changesets
  import opened Application
  import opened Cursors
  import opened Merge
  import opened Selection
  import opened Views
  import opened Utf8
  import opened Diff

  // ----- What the server's diff retains

  /** The symbols a script keeps. */
  function KeptSyms(segs: seq<Seg>): seq<nat> {
    if segs == [] then []
    else (if segs[0].kind == Keep then [segs[0].sym] else []) + KeptSyms(segs[1..])
  }

  lemma {:induction false} KeptSymsLast(segs: seq<Seg>, seg: Seg)
    ensures KeptSyms(segs + [seg]) == KeptSyms(segs) + if seg.kind == Keep then [seg.sym] else []
  {
    if segs != [] {
      Uncons(segs, [seg]);
      KeptSymsLast(segs[1..], seg);
    } else {
      Units([seg]);
    }
  }

  lemma {:induction false} KeptSymsCount(segs: seq<Seg>)
    ensures |KeptSyms(segs)| == Keeps(segs)
  {
    if segs != [] {
      KeptSymsCount(segs[1..]);
    }
  }

  lemma SubseqSnoc(s: seq<nat>, t: seq<nat>, x: nat)
    requires IsSubseq(s, t)
    ensures IsSubseq(s, t + [x]) && IsSubseq(s + [x], t + [x])
  {
    assert Front(t + [x]) == t && Front(s + [x]) == s;
  }

  /** What the script keeps is common to both sides. */
  lemma {:induction false} KeptIsCommon(o: seq<nat>, w: seq<nat>)
    ensures IsSubseq(KeptSyms(Script(o, w)), o) && IsSubseq(KeptSyms(Script(o, w)), w)
    decreases |o| + |w|
  {
    assert o != [] ==> o == Front(o) + [Last(o)];
    assert w != [] ==> w == Front(w) + [Last(w)];
    if o == [] && w == [] {
    } else if o != [] && w != [] && Last(o) == Last(w) {
      KeptIsCommon(Front(o), Front(w));
      var kept := KeptSyms(Script(Front(o), Front(w)));
      KeptSymsLast(Script(Front(o), Front(w)), Seg(Keep, Last(o)));
      SubseqSnoc(kept, Front(o), Last(o));
      SubseqSnoc(kept, Front(w), Last(w));
    } else if w != [] && (o == [] || Lcs(o, Front(w)) >= Lcs(Front(o), w)) {
      KeptIsCommon(o, Front(w));
      KeptSymsLast(Script(o, Front(w)), Seg(Ins, Last(w)));
      Units(KeptSyms(Script(o, Front(w))));
      SubseqSnoc(KeptSyms(Script(o, Front(w))), Front(w), Last(w));
    } else {
      KeptIsCommon(Front(o), w);
      KeptSymsLast(Script(Front(o), w), Seg(Del, Last(o)));
      Units(KeptSyms(Script(Front(o), w)));
      SubseqSnoc(KeptSyms(Script(Front(o), w)), Front(o), Last(o));
    }
  }

  lemma {:induction false} KeptUnits(segs: seq<Seg>)
    ensures Retained(SegOps(Runes, segs)) == |EncodeAll(KeptSyms(segs))|
  {
    if segs != [] {
      KeptUnits(segs[1..]);
      assert SegOps(Runes, segs)[1..] == SegOps(Runes, segs[1..]);
      if segs[0].kind == Keep {
        assert KeptSyms(segs)[1..] == KeptSyms(segs[1..]);
      } else {
        Units(KeptSyms(segs[1..]));
      }
    }
  }

  /** The runes the server's diff keeps for two texts. */
  function ServerKeeps(oldText: seq<Byte>, newText: seq<Byte>): seq<nat> {
    KeptSyms(Script(Decode(oldText), Decode(newText)))
  }

  /** They are a longest common subsequence of the decoded texts, and their bytes are what the
      changeset retains. */
  lemma ServerRetains(oldText: seq<Byte>, newText: seq<Byte>)
    ensures var kept := ServerKeeps(oldText, newText);
      && IsSubseq(kept, Decode(oldText)) && IsSubseq(kept, Decode(newText))
      && |kept| == Lcs(Decode(oldText), Decode(newText))
      && Retained(ServerDiff(oldText, newText).ops) == |EncodeAll(kept)|
  {
    var o, w := Decode(oldText), Decode(newText);
    KeptIsCommon(o, w);
    KeptSymsCount(Script(o, w));
    ScriptKeeps(o, w);
    KeptUnits(Script(o, w));
    AddAllRetained([], SegOps(Runes, Script(o, w)));
  }

  // ----- Counted in bytes

  /** No changeset from the old bytes to the new ones retains more of them than the server's. */
  ghost predicate ByteOptimal(oldText: seq<Byte>, newText: seq<Byte>) {
    forall c: Changeset :: Valid(c) && c.oldLen == |oldText| && Run(oldText, c.ops) == newText ==>
      Retained(c.ops) <= Retained(ServerDiff(oldText, newText).ops)
  }

  /** The best that bytes allow is the table's last entry for the bytes. */
  lemma ByteOptimalIs(oldText: seq<Byte>, newText: seq<Byte>)
    ensures ByteOptimal(oldText, newText) <==> Lcs(oldText, newText) <= Retained(ServerDiff(oldText, newText).ops)
  {
    var best := BrowserDiff(oldText, newText);
    BrowserRoundTrip(oldText, newText);
    DiffOptimal(oldText, newText, best);
    forall c: Changeset | Valid(c) && c.oldLen == |oldText| && Run(oldText, c.ops) == newText
      ensures Retained(c.ops) <= Lcs(oldText, newText)
    {
      DiffOptimal(oldText, newText, c);
    }
  }

  predicate Ascii(t: seq<nat>) {
    forall i :: 0 <= i < |t| ==> t[i] < 0x80
  }

  lemma {:induction false} AsciiDecodes(t: seq<Byte>)
    requires Ascii(t)
    ensures WellFormed(t) && Decode(t) == t
  {
    if t != [] {
      AsciiDecodes(t[1..]);
    }
  }

  lemma {:induction false} AsciiScript(o: seq<nat>, w: seq<nat>)
    requires Ascii(o) && Ascii(w)
    ensures SegOps(Runes, Script(o, w)) == SegOps(CodeUnits, Script(o, w))
    decreases |o| + |w|
  {
    if o == [] && w == [] {
    } else if o != [] && w != [] && Last(o) == Last(w) {
      AsciiScript(Front(o), Front(w));
      AsciiSnoc(Script(Front(o), Front(w)), Seg(Keep, Last(o)));
    } else if w != [] && (o == [] || Lcs(o, Front(w)) >= Lcs(Front(o), w)) {
      AsciiScript(o, Front(w));
      AsciiSnoc(Script(o, Front(w)), Seg(Ins, Last(w)));
    } else {
      AsciiScript(Front(o), w);
      AsciiSnoc(Script(Front(o), w), Seg(Del, Last(o)));
    }
  }

  lemma AsciiSnoc(segs: seq<Seg>, seg: Seg)
    requires SegOps(Runes, segs) == SegOps(CodeUnits, segs) && seg.sym < 0x80
    ensures SegOps(Runes, segs + [seg]) == SegOps(CodeUnits, segs + [seg])
  {
    SegOpsLast(Runes, segs, seg);
    SegOpsLast(CodeUnits, segs, seg);
  }

  /** On ASCII texts the two ports compute one and the same changeset. */
  lemma PortsDiffAlike(oldText: seq<Byte>, newText: seq<Byte>)
    requires Ascii(oldText) && Ascii(newText)
    ensures ServerDiff(oldText, newText) == BrowserDiff(oldText, newText)
  {
    AsciiDecodes(oldText);
    AsciiDecodes(newText);
    AsciiScript(oldText, newText);
  }

  /** What can be read off a text in two parts is read off in two parts. */
  lemma {:induction false} SubseqSplit(s: seq<nat>, t: seq<nat>, t': seq<nat>) returns (k: nat)
    requires IsSubseq(s, t + t')
    ensures k <= |s| && IsSubseq(s[..k], t) && IsSubseq(s[k..], t')
    decreases |t'|
  {
    if t' == [] {
      Units(t);
      Units(s);
      k := |s|;
    } else {
      FrontSum(t, t');
      if IsSubseq(s, t + Front(t')) {
        k := SubseqSplit(s, t, Front(t'));
      } else {
        k := SubseqSplit(Front(s), t, Front(t'));
        assert Front(s)[..k] == s[..k] && Front(s[k..]) == Front(s)[k..];
      }
    }
  }

  lemma {:induction false} SubseqElements(s: seq<nat>, t: seq<nat>, i: nat)
    requires IsSubseq(s, t) && i < |s|
    ensures s[i] in t
    decreases |t|
  {
    if IsSubseq(s, Front(t)) {
      SubseqElements(s, Front(t), i);
    } else if i < |s| - 1 {
      SubseqElements(Front(s), Front(t), i);
    }
  }

  /** The bytes of a well-formed sequence of more than one are all above ASCII. */
  lemma FrontBytes(t: seq<Byte>)
    requires FrontLen(t) > 0
    ensures forall i :: 0 < i < FrontLen(t) ==> Tail(t[i])
    ensures FrontLen(t) == 1 ==> FrontRune(t) == t[0] < 0x80
    ensures FrontLen(t) > 1 ==> t[0] >= 0xC0
    ensures !Tail(t[0])
  {}

  /** ASCII bytes read off a text can be read off its runes. */
  lemma {:induction false} AsciiSubseqDecoded(s: seq<nat>, t: seq<Byte>)
    requires Ascii(s) && WellFormed(t) && IsSubseq(s, t)
    ensures IsSubseq(s, Decode(t))
    decreases |t|
  {
    if t != [] {
      var n := FrontLen(t);
      var rest := Decode(t[n..]);
      Halves(t, n);
      var k := SubseqSplit(s, t[..n], t[n..]);
      AsciiSubseqDecoded(s[k..], t[n..]);
      AsciiFront(s[..k], t);
      SubseqConcat(s[..k], [FrontRune(t)], s[k..], rest);
      Halves(s, k);
    }
  }

  lemma AsciiFront(s: seq<nat>, t: seq<Byte>)
    requires Ascii(s) && FrontLen(t) > 0 && IsSubseq(s, t[..FrontLen(t)])
    ensures IsSubseq(s, [FrontRune(t)])
  {
    FrontBytes(t);
    if FrontLen(t) == 1 {
      assert t[..1] == [FrontRune(t)];
    } else if s != [] {
      SubseqElements(s, t[..FrontLen(t)], 0);
      assert false;
    }
  }

  lemma {:induction false} EncodedLength(runes: seq<nat>)
    ensures |EncodeAll(runes)| >= |runes|
  {
    if runes != [] {
      EncodedLength(runes[1..]);
    }
  }

  /** With ASCII on one side, the server's diff is minimal in bytes. */
  lemma AsciiOptimal(oldText: seq<Byte>, newText: seq<Byte>)
    requires WellFormed(oldText) && WellFormed(newText) && (Ascii(oldText) || Ascii(newText))
    ensures ByteOptimal(oldText, newText)
  {
    LcsIsLongest(oldText, newText);
    var s :| IsSubseq(s, oldText) && IsSubseq(s, newText) && |s| == Lcs(oldText, newText);
    forall i | 0 <= i < |s|
      ensures s[i] < 0x80
    {
      SubseqElements(s, oldText, i);
      SubseqElements(s, newText, i);
    }
    AsciiSubseqDecoded(s, oldText);
    AsciiSubseqDecoded(s, newText);
    LcsBounds(s, Decode(oldText), Decode(newText));
    ServerRetains(oldText, newText);
    EncodedLength(ServerKeeps(oldText, newText));
    ByteOptimalIs(oldText, newText);
  }

  function Count(s: seq<nat>, x: nat): nat {
    if s == [] then 0 else Count(Front(s), x) + if Last(s) == x then 1 else 0
  }

  lemma {:induction false} EncodeSum(p: seq<nat>, q: seq<nat>)
    ensures EncodeAll(p + q) == EncodeAll(p) + EncodeAll(q)
  {
    if p == [] {
      Units(q);
    } else {
      Uncons(p, q);
      EncodeSum(p[1..], q);
      Assoc(Encode(p[0]), EncodeAll(p[1..]), EncodeAll(q));
    }
  }

  lemma EncodeLast(s: seq<nat>)
    requires s != []
    ensures EncodeAll(s) == EncodeAll(Front(s)) + Encode(Last(s))
  {
    EncAllLast(Runes, s);
    EncAllRunes(s);
    EncAllRunes(Front(s));
  }

  /** Leaving symbols out makes the encoding shorter, and by at least the bytes of any symbol
      that occurs less often than before. */
  lemma {:induction false} LeftOut(s: seq<nat>, t: seq<nat>, x: nat)
    requires IsSubseq(s, t)
    ensures Count(s, x) <= Count(t, x)
    ensures |EncodeAll(s)| + (if Count(s, x) < Count(t, x) then |Encode(x)| else 0) <= |EncodeAll(t)|
    decreases |t|
  {
    if t != [] && s != [] {
      EncodeLast(t);
      if IsSubseq(s, Front(t)) {
        LeftOut(s, Front(t), x);
      } else {
        EncodeLast(s);
        LeftOut(Front(s), Front(t), x);
      }
    } else if t != [] {
      EncodeLast(t);
      LeftOut([], Front(t), x);
    }
  }

  lemma {:induction false} CountSum(p: seq<nat>, q: seq<nat>, x: nat)
    ensures Count(p + q, x) == Count(p, x) + Count(q, x)
    decreases |q|
  {
    if q == [] {
      Units(p);
    } else {
      FrontSum(p, q);
      CountSum(p, Front(q), x);
    }
  }

  predicate AllScalar(runes: seq<nat>) {
    forall i :: 0 <= i < |runes| ==> Scalar(runes[i])
  }

  /** Another rune whose encoding starts with the same byte. */
  function Neighbour(r: nat): nat {
    if r % 2 == 0 then r + 1 else r - 1
  }

  lemma NeighbourStarts(r: nat)
    requires Scalar(r) && r >= 0x80
    ensures Scalar(Neighbour(r)) && Neighbour(r) != r
    ensures Encode(Neighbour(r))[0] == Encode(r)[0]
  {
    var r' := Neighbour(r);
    assert r' / 2 == r / 2;
    Quotients(r);
    Quotients(r');
  }

  lemma Quotients(r: nat)
    ensures r / 64 == r / 2 / 32 && r / 4096 == r / 2 / 2048 && r / 262144 == r / 2 / 131072
  {}

  /** One rune replaced by its neighbour: the server drops the whole of it, though a byte could
      stay. */
  lemma NeighbourBeatsServer(p: seq<nat>, r: nat, r': nat, q: seq<nat>, oldText: seq<Byte>, newText: seq<Byte>)
    requires AllScalar(p) && Scalar(r) && Scalar(r') && AllScalar(q)
    requires r' != r && Encode(r)[0] == Encode(r')[0]
    requires oldText == EncodeAll(p + [r] + q) && newText == EncodeAll(p + [r'] + q)
    ensures !ByteOptimal(oldText, newText)
  {
    ServerLosesRune(p, r, r', q, oldText, newText);
    SharedBytes(p, r, q, r');
    ByteOptimalIs(oldText, newText);
  }

  lemma ServerLosesRune(p: seq<nat>, r: nat, r': nat, q: seq<nat>, oldText: seq<Byte>, newText: seq<Byte>)
    requires AllScalar(p) && Scalar(r) && Scalar(r') && AllScalar(q) && r' != r
    requires oldText == EncodeAll(p + [r] + q) && newText == EncodeAll(p + [r'] + q)
    ensures Retained(ServerDiff(oldText, newText).ops) + |Encode(r)| <= |oldText|
  {
    var o, w, kept := p + [r] + q, p + [r'] + q, ServerKeeps(oldText, newText);
    EncodeRoundTrip(o);
    EncodeRoundTrip(w);
    ServerRetains(oldText, newText);
    ReplacedCount(p, r, q, r');
    RuneLost(kept, o, w, r);
  }

  lemma RuneLost(kept: seq<nat>, o: seq<nat>, w: seq<nat>, r: nat)
    requires IsSubseq(kept, o) && IsSubseq(kept, w) && Count(w, r) < Count(o, r)
    ensures |EncodeAll(kept)| + |Encode(r)| <= |EncodeAll(o)|
  {
    LeftOut(kept, w, r);
    LeftOut(kept, o, r);
  }

  lemma ReplacedCount(p: seq<nat>, r: nat, q: seq<nat>, r': nat)
    requires r != r'
    ensures Count(p + [r'] + q, r) < Count(p + [r] + q, r)
  {
    CountSum(p, [r], r);
    CountSum(p, [r'], r);
    CountSum(p + [r], q, r);
    CountSum(p + [r'], q, r);
    assert Front([r]) == [] && Front([r']) == [];
  }

  /** Everything around the replaced rune, and its first byte. */
  lemma SharedBytes(p: seq<nat>, r: nat, q: seq<nat>, r': nat)
    requires Encode(r)[0] == Encode(r')[0]
    ensures var oldText, newText := EncodeAll(p + [r] + q), EncodeAll(p + [r'] + q);
      Lcs(oldText, newText) >= |oldText| - |Encode(r)| + 1
  {
    var s := EncodeAll(p) + [Encode(r)[0]] + EncodeAll(q);
    SharedBytesOf(p, r, q, Encode(r)[0]);
    SharedBytesOf(p, r', q, Encode(r)[0]);
    LcsBounds(s, EncodeAll(p + [r] + q), EncodeAll(p + [r'] + q));
  }

  lemma SharedBytesOf(p: seq<nat>, r: nat, q: seq<nat>, lead: nat)
    requires Encode(r)[0] == lead
    ensures EncodeAll(p + [r] + q) == EncodeAll(p) + Encode(r) + EncodeAll(q)
    ensures IsSubseq(EncodeAll(p) + [lead] + EncodeAll(q), EncodeAll(p + [r] + q))
  {
    EncodeSum(p, [r]);
    EncodeSum(p + [r], q);
    Units(Encode(r));
    assert EncodeAll([r]) == Encode(r);
    SubseqItself(EncodeAll(p));
    SubseqItself(EncodeAll(q));
    FirstOf(Encode(r));
    SubseqConcat(EncodeAll(p), EncodeAll(p), [lead], Encode(r));
    SubseqConcat(EncodeAll(p) + [lead], EncodeAll(p) + Encode(r), EncodeAll(q), EncodeAll(q));
  }

  lemma {:induction false} FirstOf(t: seq<nat>)
    requires t != []
    ensures IsSubseq([t[0]], t)
    decreases |t|
  {
    if |t| > 1 {
      FirstOf(Front(t));
    }
  }

  lemma AtRune(text: seq<Byte>) returns (p: seq<nat>, r: nat, q: seq<nat>)
    requires WellFormed(text) && !Ascii(text)
    ensures AllScalar(p) && Scalar(r) && r >= 0x80 && AllScalar(q) && EncodeAll(p + [r] + q) == text
  {
    var o := Decode(text);
    DecodedScalars(text);
    DecodeExact(text);
    var i := AboveAscii(text);
    p, r, q := o[..i], o[i], o[i + 1..];
    Middle(o, i);
  }

  lemma OneRuneApart(text: seq<Byte>) returns (other: seq<Byte>)
    requires WellFormed(text) && !Ascii(text)
    ensures WellFormed(other) && !ByteOptimal(other, text) && !ByteOptimal(text, other)
  {
    var p, r, q := AtRune(text);
    var r' := Neighbour(r);
    NeighbourStarts(r);
    EncodeRoundTrip(p + [r'] + q);
    other := EncodeAll(p + [r'] + q);
    NeighbourBeatsServer(p, r, r', q, text, other);
    NeighbourBeatsServer(p, r', r, q, other, text);
  }

  /** The exact condition on one text: with it on either side, the server's diff is minimal in
      bytes whatever the other text is, exactly when it is ASCII. */
  lemma ByteOptimalExact(text: seq<Byte>)
    requires WellFormed(text)
    ensures (forall after: seq<Byte> :: WellFormed(after) ==> ByteOptimal(text, after)) <==> Ascii(text)
    ensures (forall before: seq<Byte> :: WellFormed(before) ==> ByteOptimal(before, text)) <==> Ascii(text)
  {
    if Ascii(text) {
      forall other: seq<Byte> | WellFormed(other)
        ensures ByteOptimal(text, other) && ByteOptimal(other, text)
      {
        AsciiOptimal(text, other);
        AsciiOptimal(other, text);
      }
    } else {
      var other := OneRuneApart(text);
    }
  }

  lemma {:induction false} DecodedScalars(t: seq<Byte>)
    requires WellFormed(t)
    ensures AllScalar(Decode(t))
    decreases |t|
  {
    if t != [] {
      FrontRoundTrip(t);
      DecodedScalars(t[FrontLen(t)..]);
    }
  }

  lemma {:induction false} AboveAscii(t: seq<Byte>) returns (i: nat)
    requires WellFormed(t) && !Ascii(t)
    ensures i < |Decode(t)| && Decode(t)[i] >= 0x80
    decreases |t|
  {
    if FrontLen(t) > 1 {
      FrontRoundTrip(t);
      i := 0;
    } else {
      assert t == [t[0]] + t[1..];
      var k := AboveAscii(t[1..]);
      i := k + 1;
    }
  }

  /** Equal widths do not help: from é to è a changeset can retain the first byte, and the
      server's retains nothing. */
  lemma AccentLosesByte(oldText: seq<Byte>, newText: seq<Byte>, c: Changeset)
    requires oldText == [0xC3, 0xA9] && newText == [0xC3, 0xA8]
    requires c == Changeset(2, 2, [Retain(1), Delete(1), Insert([0xA8])])
    ensures WellFormed(oldText) && WellFormed(newText)
    ensures Valid(c) && Run(oldText, c.ops) == newText && Retained(c.ops) == 1
    ensures Retained(ServerDiff(oldText, newText).ops) == 0
  {
    assert Encode(0xE9) == oldText && Encode(0xE8) == newText;
    DecodeOne(0xE9);
    DecodeOne(0xE8);
    ServerRetains(oldText, newText);
    NothingShared(0xE9, 0xE8);
    AccentOps(oldText, c.ops);
  }

  lemma DecodeOne(r: nat)
    requires Scalar(r)
    ensures WellFormed(Encode(r)) && Decode(Encode(r)) == [r]
  {
    Units(Encode(r));
    EncodeRoundTrip([r]);
    assert EncodeAll([r]) == Encode(r) + EncodeAll([]);
  }

  lemma NothingShared(r: nat, r': nat)
    requires r != r'
    ensures Lcs([r], [r']) == 0
  {
    assert Front([r]) == [] && Front([r']) == [];
  }

  lemma AccentOps(t: Text, ops: seq<Op>)
    requires t == [0xC3, 0xA9] && ops == [Retain(1), Delete(1), Insert([0xA8])]
    ensures Positive(ops) && Consumed(ops) == 2 && Produced(ops) == 2 && Retained(ops) == 1
    ensures Run(t, ops) == [0xC3, 0xA8]
  {
    var last: seq<Op> := [Insert([0xA8])];
    var rest := [Delete(1)] + last;
    assert ops == [Retain(1)] + rest && ops[1..] == rest && rest[1..] == last && last[1..] == [];
    RunOne([], last[0]);
    RunCons([0xA9], [], Delete(1), last);
    var t': Text := [0xA9];
    assert t' + [] == t' && Run(t', rest) == [] + [0xA8];
    RunCons([0xC3], t', Retain(1), rest);
    assert t == [0xC3] + t' && Run(t, ops) == [0xC3] + Run(t', rest);
    assert Retained(rest) == Retained(last) == 0;
    assert Produced(rest) == Produced(last) == 1 && Consumed(rest) == 1 + Consumed(last) == 1;
  }

  // ----- Counted in whole runes

  /** A rune and the bytes it takes in an encoded text. */
  datatype Piece = Piece(at: nat, len: nat, rune: nat)

  function Pieces(runes: seq<nat>): seq<Piece> {
    if runes == [] then []
    else Pieces(Front(runes)) + [Piece(|EncodeAll(Front(runes))|, |Encode(Last(runes))|, Last(runes))]
  }

  function RunesOf(pieces: seq<Piece>): (runes: seq<nat>)
    ensures |runes| == |pieces| && forall i :: 0 <= i < |pieces| ==> runes[i] == pieces[i].rune
  {
    seq(|pieces|, i requires 0 <= i < |pieces| => pieces[i].rune)
  }

  /** Source units `i` to `i + n` stay, and stay together. */
  ghost predicate Whole(ops: seq<Op>, i: nat, n: nat) {
    && (forall j :: i <= j < i + n ==> KeptAt(ops, j))
    && (forall j :: i < j < i + n ==> GapAt(ops, j) == [])
  }

  /** The runes of those pieces that byte ops keep whole. */
  ghost function WholeRunes(pieces: seq<Piece>, ops: seq<Op>): seq<nat> {
    if pieces == [] then []
    else
      var p := Last(pieces);
      WholeRunes(Front(pieces), ops) + if Whole(ops, p.at, p.len) then [p.rune] else []
  }

  /** The runes of the old text that a changeset of bytes keeps whole. */
  ghost function RunesKept(oldText: seq<Byte>, c: Changeset): seq<nat> {
    WholeRunes(Pieces(Decode(oldText)), c.ops)
  }

  // ----- Kept whole, a rune is found in the new text

  predicate Ordered(pieces: seq<Piece>) {
    forall j, k :: 0 <= j < k < |pieces| ==> pieces[j].at + pieces[j].len <= pieces[k].at
  }

  /** The pieces of an encoded text lie behind each other, and each holds its rune's bytes. */
  lemma {:induction false} PieceHolds(runes: seq<nat>, p: Piece)
    requires p in Pieces(runes)
    ensures p.rune in runes && p.len == |Encode(p.rune)|
    ensures p.at + p.len <= |EncodeAll(runes)| && EncodeAll(runes)[p.at..p.at + p.len] == Encode(p.rune)
    decreases |runes|
  {
    var front, last := EncodeAll(Front(runes)), Encode(Last(runes));
    EncodeLast(runes);
    if p in Pieces(Front(runes)) {
      PieceHolds(Front(runes), p);
      SliceOfSum(front, last, p.at, p.at + p.len);
    } else {
      LastHolds(front, last, EncodeAll(runes), p);
    }
  }

  lemma LastHolds(front: Text, last: Text, text: Text, p: Piece)
    requires text == front + last && p.at == |front| && p.len == |last|
    ensures p.at + p.len <= |text| && text[p.at..p.at + p.len] == last
  {
    SliceEnd(front, last);
  }

  lemma SliceOfSum(s: Text, t: Text, i: nat, j: nat)
    requires i <= j <= |s|
    ensures (s + t)[i..j] == s[i..j]
  {}

  lemma {:induction false} PiecesOrdered(runes: seq<nat>)
    ensures |Pieces(runes)| == |runes| && RunesOf(Pieces(runes)) == runes && Ordered(Pieces(runes))
    decreases |runes|
  {
    if runes != [] {
      var front := Front(runes);
      PiecesOrdered(front);
      forall k | 0 <= k < |front|
        ensures Pieces(front)[k].at + Pieces(front)[k].len <= |EncodeAll(front)|
      {
        PieceHolds(front, Pieces(front)[k]);
      }
    }
  }

  /** The first byte of a sequence is never a continuation byte, and the others are. */
  lemma RuneShape(r: nat)
    requires Scalar(r)
    ensures !Tail(Encode(r)[0])
    ensures forall j :: 0 < j < |Encode(r)| ==> Tail(Encode(r)[j])
  {}

  lemma OnlyRune(r: nat, r': nat, rest: seq<Byte>)
    requires Scalar(r) && Scalar(r') && Encode(r') == Encode(r) + rest
    ensures r' == r
  {
    RuneRoundTrip(r, rest);
    RuneRoundTrip(r', []);
    Units(Encode(r'));
  }

  lemma FirstByte(front: Text, last: Text, k: nat, bytes: Text)
    requires k < |front| < k + |bytes| <= |front + last| && (front + last)[k..k + |bytes|] == bytes
    ensures bytes[|front| - k] == last[0]
  {
    SliceAt(front + last, k, k + |bytes|, |front|);
  }

  lemma SliceAt(t: Text, i: nat, j: nat, k: nat)
    requires i <= k < j <= |t|
    ensures t[i..j][k - i] == t[k]
  {}

  /** A rune's bytes written into the last sequence, or across its start. */
  lemma LastSync(front: seq<Byte>, last: seq<Byte>, bytes: seq<Byte>, k: nat)
    requires k + |bytes| == |front + last| || k + |bytes| > |front|
    requires k + |bytes| <= |front + last| && bytes != [] && last != []
    requires (front + last)[k..k + |bytes|] == bytes
    requires !Tail(bytes[0]) && !Tail(last[0])
    requires forall j :: 0 < j < |bytes| ==> Tail(bytes[j])
    requires forall j :: 0 < j < |last| ==> Tail(last[j])
    ensures k == |front| && last == bytes + last[|bytes|..]
  {
    var t: Text, end: nat := front + last, k + |bytes|;
    if k < |front| {
      FirstByte(front, last, k, bytes);
      assert false;
    }
    if k > |front| {
      SliceAt(t, k, end, k);
      assert false;
    }
    assert t[k..k + |bytes|] == last[..|bytes|];
    Halves(last, |bytes|);
  }

  /** UTF-8 synchronizes itself: the bytes of a rune, wherever they occur in an encoded text,
      are a piece of it. */
  lemma {:induction false} PieceAt(runes: seq<nat>, text: seq<Byte>, k: nat, r: nat, bytes: seq<Byte>)
    requires text == EncodeAll(runes) && AllScalar(runes)
    requires bytes == Encode(r) && Scalar(r) && k + |bytes| <= |text| && text[k..k + |bytes|] == bytes
    ensures Piece(k, |bytes|, r) in Pieces(runes)
    decreases |runes|
  {
    if runes != [] {
      var front, last := EncodeAll(Front(runes)), Encode(Last(runes));
      EncodeLast(runes);
      if k + |bytes| <= |front| {
        SliceOfSum(front, last, k, k + |bytes|);
        PieceAt(Front(runes), front, k, r, bytes);
      } else {
        RuneShape(r);
        RuneShape(Last(runes));
        LastSync(front, last, bytes, k);
        OnlyRune(r, Last(runes), last[|bytes|..]);
      }
    }
  }

  /** The landing places of all positions of a text. */
  ghost function Places(ops: seq<Op>, n: nat): (places: seq<nat>)
    requires Positive(ops)
    ensures |places| == n + 1 && forall p :: 0 <= p <= n ==> places[p] == Landing(ops, p)
  {
    seq(n + 1, p requires 0 <= p <= n => Landing(ops, p))
  }

  /** Unit `p` is found at its place, and the next place lies behind it. */
  ghost predicate Stays(doc: Text, text: Text, places: seq<nat>, p: nat) {
    && p < |doc| && |places| == |doc| + 1
    && places[p] < |text| && text[places[p]] == doc[p] && places[p] + 1 <= places[p + 1]
  }

  ghost predicate Adjoin(places: seq<nat>, p: nat) {
    p + 1 < |places| && places[p + 1] == places[p] + 1
  }

  /** Units whose places follow each other without a gap, read in both texts. */
  lemma {:induction false} StretchReads(doc: Text, text: Text, places: seq<nat>, i: nat, n: nat)
    requires 0 < n && i + n <= |doc| && |places| == |doc| + 1
    requires forall p :: i <= p < i + n ==> Stays(doc, text, places, p)
    requires forall p :: i <= p < i + n - 1 ==> Adjoin(places, p)
    ensures places[i] + n - 1 == places[i + n - 1] && places[i] + n <= |text| && places[i] + n <= places[i + n]
    ensures text[places[i]..places[i] + n] == doc[i..i + n]
    decreases n
  {
    assert Stays(doc, text, places, i + n - 1);
    if n > 1 {
      StretchReads(doc, text, places, i, n - 1);
      assert Adjoin(places, i + n - 2);
      Extended(text, places[i], doc, i, n - 1);
    }
  }

  lemma WholeStays(doc: Text, ops: seq<Op>, text: Text, places: seq<nat>, i: nat, n: nat, p: nat)
    requires Positive(ops) && Consumed(ops) == |doc| && text == Run(doc, ops) && places == Places(ops, |doc|)
    requires i + n <= |doc| && Whole(ops, i, n) && i <= p < i + n
    ensures Stays(doc, text, places, p)
  {
    LandsNext(doc, ops, text, p);
  }

  lemma WholeFollows(doc: Text, ops: seq<Op>, text: Text, places: seq<nat>, i: nat, n: nat, p: nat)
    requires Positive(ops) && Consumed(ops) == |doc| && text == Run(doc, ops) && places == Places(ops, |doc|)
    requires i + n <= |doc| && Whole(ops, i, n) && i <= p < i + n - 1
    ensures Adjoin(places, p)
  {
    assert KeptAt(ops, p) && GapAt(ops, p + 1) == [];
    LandsNext(doc, ops, text, p);
  }

  /** A whole stretch appears in the new text, and the next unit lands behind it. */
  lemma WholeLands(doc: Text, ops: seq<Op>, text: Text, i: nat, n: nat)
    requires Positive(ops) && Consumed(ops) == |doc| && text == Run(doc, ops)
    requires 0 < n && i + n <= |doc| && Whole(ops, i, n)
    ensures Landing(ops, i) + n <= Landing(ops, i + n) && Landing(ops, i) + n <= |text|
    ensures text[Landing(ops, i)..Landing(ops, i) + n] == doc[i..i + n]
  {
    var places := Places(ops, |doc|);
    forall p | i <= p < i + n
      ensures Stays(doc, text, places, p) && (p < i + n - 1 ==> Adjoin(places, p))
    {
      WholeStays(doc, ops, text, places, i, n, p);
      if p < i + n - 1 {
        WholeFollows(doc, ops, text, places, i, n, p);
      }
    }
    StretchReads(doc, text, places, i, n);
  }

  lemma LandsNext(doc: Text, ops: seq<Op>, text: Text, p: nat)
    requires Positive(ops) && Consumed(ops) == |doc| && text == Run(doc, ops) && p < |doc| && KeptAt(ops, p)
    ensures Landing(ops, p) < |text| && text[Landing(ops, p)] == doc[p]
    ensures Landing(ops, p) + 1 <= Landing(ops, p + 1)
    ensures GapAt(ops, p + 1) == [] ==> Landing(ops, p + 1) == Landing(ops, p) + 1
  {
    LandsOnSameUnit(doc, ops, p);
  }

  lemma Extended(t: Text, at: nat, doc: Text, i: nat, m: nat)
    requires at + m < |t| && i + m < |doc| && t[at..at + m] == doc[i..i + m] && t[at + m] == doc[i + m]
    ensures t[at..at + m + 1] == doc[i..i + m + 1]
  {
    SnocSlice(t, at, at + m);
    SnocSlice(doc, i, i + m);
  }

  function Moved(p: Piece, ops: seq<Op>): Piece
    requires Positive(ops)
  {
    Piece(Landing(ops, p.at), p.len, p.rune)
  }

  lemma PieceMoves(o: seq<nat>, w: seq<nat>, doc: Text, ops: seq<Op>, text: seq<Byte>, p: Piece)
    requires doc == EncodeAll(o) && p in Pieces(o) && Scalar(p.rune)
    requires text == EncodeAll(w) && AllScalar(w)
    requires Positive(ops) && Consumed(ops) == |doc| && text == Run(doc, ops)
    requires Whole(ops, p.at, p.len)
    ensures Moved(p, ops) in Pieces(w)
  {
    PieceHolds(o, p);
    StretchMoves(w, doc, ops, text, p, Encode(p.rune));
  }

  lemma StretchMoves(w: seq<nat>, doc: Text, ops: seq<Op>, text: seq<Byte>, p: Piece, bytes: seq<Byte>)
    requires bytes == Encode(p.rune) && Scalar(p.rune)
    requires 0 < |bytes| == p.len && p.at + p.len <= |doc| && doc[p.at..p.at + p.len] == bytes
    requires text == EncodeAll(w) && AllScalar(w)
    requires Positive(ops) && Consumed(ops) == |doc| && text == Run(doc, ops)
    requires Whole(ops, p.at, p.len)
    ensures Moved(p, ops) in Pieces(w)
  {
    WholeLands(doc, ops, text, p.at, p.len);
    PieceAt(w, text, Landing(ops, p.at), p.rune, bytes);
  }

  /** Pieces that move in order into pieces of another text: their runes can be read off it. */
  lemma {:induction false} MovedSubseq(pieces: seq<Piece>, others: seq<Piece>, ops: seq<Op>)
    requires Positive(ops) && Ordered(others) && forall k :: 0 <= k < |others| ==> others[k].len > 0
    requires forall p :: p in pieces && Whole(ops, p.at, p.len) ==> Moved(p, ops) in others
    requires forall j, k :: 0 <= j < k < |pieces| && Whole(ops, pieces[j].at, pieces[j].len) ==>
      Landing(ops, pieces[j].at) < Landing(ops, pieces[k].at)
    ensures IsSubseq(WholeRunes(pieces, ops), RunesOf(others))
    decreases |pieces|
  {
    if pieces != [] {
      var p, front := Last(pieces), Front(pieces);
      if Whole(ops, p.at, p.len) {
        var m :| 0 <= m < |others| && others[m] == Moved(p, ops);
        forall q | q in front && Whole(ops, q.at, q.len)
          ensures Moved(q, ops) in others[..m]
        {
          var j :| 0 <= j < |others| && others[j] == Moved(q, ops);
          assert j < m && others[..m][j] == others[j];
        }
        MovedSubseq(front, others[..m], ops);
        SubseqBefore(WholeRunes(front, ops), others, m);
      } else {
        MovedSubseq(front, others, ops);
        Units(WholeRunes(front, ops));
      }
    }
  }

  lemma SubseqBefore(s: seq<nat>, pieces: seq<Piece>, m: nat)
    requires m < |pieces| && IsSubseq(s, RunesOf(pieces[..m]))
    ensures IsSubseq(s + [pieces[m].rune], RunesOf(pieces))
  {
    var x := pieces[m].rune;
    SubseqSnoc(s, RunesOf(pieces[..m]), x);
    SubseqConcat(s + [x], RunesOf(pieces[..m]) + [x], [], RunesOf(pieces[m + 1..]));
    Units(s + [x]);
    assert RunesOf(pieces) == RunesOf(pieces[..m]) + [x] + RunesOf(pieces[m + 1..]);
  }

  /** What a changeset of bytes keeps whole is common to the runes of both texts. */
  lemma RunesKeptAreCommon(oldText: seq<Byte>, newText: seq<Byte>, c: Changeset)
    requires WellFormed(oldText) && WellFormed(newText)
    requires Valid(c) && c.oldLen == |oldText| && Run(oldText, c.ops) == newText
    ensures IsSubseq(RunesKept(oldText, c), Decode(oldText)) && IsSubseq(RunesKept(oldText, c), Decode(newText))
  {
    var o, w := Decode(oldText), Decode(newText);
    DecodeExact(oldText);
    DecodeExact(newText);
    DecodedScalars(oldText);
    DecodedScalars(newText);
    PiecesOrdered(o);
    WholeIsSubseq(Pieces(o), c.ops);
    WholeInNew(o, w, oldText, newText, c.ops);
  }

  lemma WholeInNew(o: seq<nat>, w: seq<nat>, doc: seq<Byte>, text: seq<Byte>, ops: seq<Op>)
    requires doc == EncodeAll(o) && AllScalar(o)
    requires text == EncodeAll(w) && AllScalar(w)
    requires Positive(ops) && Consumed(ops) == |doc| && text == Run(doc, ops)
    ensures IsSubseq(WholeRunes(Pieces(o), ops), w)
  {
    var pieces, others := Pieces(o), Pieces(w);
    PiecesOrdered(o);
    PiecesOrdered(w);
    forall p | p in pieces && Whole(ops, p.at, p.len)
      ensures Moved(p, ops) in others
    {
      PieceHolds(o, p);
      PieceMoves(o, w, doc, ops, text, p);
    }
    forall j, k | 0 <= j < k < |pieces| && Whole(ops, pieces[j].at, pieces[j].len)
      ensures Landing(ops, pieces[j].at) < Landing(ops, pieces[k].at)
    {
      PieceHolds(o, pieces[j]);
      LandsLater(doc, ops, pieces[j], pieces[k]);
    }
    forall k | 0 <= k < |others|
      ensures others[k].len > 0
    {
      PieceHolds(w, others[k]);
    }
    MovedSubseq(pieces, others, ops);
  }

  lemma LandsLater(doc: Text, ops: seq<Op>, p: Piece, q: Piece)
    requires Positive(ops) && Consumed(ops) == |doc|
    requires 0 < p.len && p.at + p.len <= |doc| && p.at + p.len <= q.at && Whole(ops, p.at, p.len)
    ensures Landing(ops, p.at) < Landing(ops, q.at)
  {
    WholeLands(doc, ops, Run(doc, ops), p.at, p.len);
    LandsInOrder(ops, p.at + p.len, q.at);
  }

  lemma {:induction false} WholeIsSubseq(pieces: seq<Piece>, ops: seq<Op>)
    ensures IsSubseq(WholeRunes(pieces, ops), RunesOf(pieces))
    decreases |pieces|
  {
    if pieces != [] {
      var front := Front(pieces);
      WholeIsSubseq(front, ops);
      SubseqSnoc(WholeRunes(front, ops), RunesOf(front), Last(pieces).rune);
      Units(WholeRunes(front, ops));
      assert RunesOf(pieces) == RunesOf(front) + [Last(pieces).rune];
    }
  }

  // ----- The server's diff keeps as many as can be kept

  lemma {:induction false} SameViewSameRunes(pieces: seq<Piece>, p: seq<Op>, q: seq<Op>)
    requires SameView(p, q)
    ensures WholeRunes(pieces, p) == WholeRunes(pieces, q)
  {
    if pieces != [] {
      SameViewSameRunes(Front(pieces), p, q);
    }
  }

  /** What is appended behind the pieces does not touch them. */
  lemma {:induction false} RunesStay(pieces: seq<Piece>, ops: seq<Op>, more: seq<Op>)
    requires Positive(ops) && Positive(more)
    requires forall p :: p in pieces ==> p.at + p.len <= Consumed(ops)
    ensures WholeRunes(pieces, ops + more) == WholeRunes(pieces, ops)
  {
    if pieces != [] {
      RunesStay(Front(pieces), ops, more);
      var p := Last(pieces);
      forall j: nat | j < p.at + p.len
        ensures KeptAt(ops + more, j) == KeptAt(ops, j) && GapAt(ops + more, j) == GapAt(ops, j)
      {
        ViewConcat(ops, more, j);
      }
    }
  }

  /** One more rune, kept whole or deleted whole. */
  lemma WholeAtEnd(ops: seq<Op>, op: Op)
    requires Positive(ops) && PositiveOp(op) && !op.Insert?
    ensures Whole(ops + [op], Consumed(ops), op.len) == op.Retain?
  {
    var at := Consumed(ops);
    forall j: nat | at <= j < at + op.len
      ensures KeptAt(ops + [op], j) == op.Retain?
      ensures at < j ==> GapAt(ops + [op], j) == []
    {
      ViewConcat(ops, [op], j);
      ViewOne(op, j - at);
      if at < j {
        GapBehind(ops, j);
      }
    }
    assert KeptAt(ops + [op], at) == op.Retain?;
  }

  lemma {:induction false} GapBehind(ops: seq<Op>, i: nat)
    requires Positive(ops) && i > Consumed(ops)
    ensures GapAt(ops, i) == []
    decreases |ops|
  {
    if ops != [] {
      GapBehind(ops[1..], i - InLen(ops[0]));
    }
  }

  lemma PiecesBound(runes: seq<nat>)
    ensures forall p :: p in Pieces(runes) ==> p.at + p.len <= |EncodeAll(runes)|
  {
    forall p | p in Pieces(runes)
      ensures p.at + p.len <= |EncodeAll(runes)|
    {
      PieceHolds(runes, p);
    }
  }

  lemma ScriptReads(o: seq<nat>, w: seq<nat>)
    ensures Consumed(SegOps(Runes, Script(o, w))) == |EncodeAll(o)|
  {
    ScriptRuns(Runes, o, w);
    EncAllRunes(o);
  }

  /** The last step of a script: what it adds to the kept runes. */
  lemma LastKept(o: seq<nat>, segs: seq<Seg>, seg: Seg)
    requires Consumed(SegOps(Runes, segs)) == |EncodeAll(if seg.kind == Ins || o == [] then o else Front(o))|
    requires seg.kind != Ins ==> o != [] && Last(o) == seg.sym
    ensures WholeRunes(Pieces(o), SegOps(Runes, segs + [seg])) ==
      WholeRunes(Pieces(if seg.kind == Ins || o == [] then o else Front(o)), SegOps(Runes, segs))
        + if seg.kind == Keep then [seg.sym] else []
  {
    var ops, op := SegOps(Runes, segs), SegOp(Runes, seg);
    var o' := if seg.kind == Ins || o == [] then o else Front(o);
    SegOpsLast(Runes, segs, seg);
    PiecesBound(o');
    RunesStay(Pieces(o'), ops, [op]);
    Units(WholeRunes(Pieces(o'), ops));
    if seg.kind != Ins {
      WholeAtEnd(ops, op);
      assert Front(Pieces(o)) == Pieces(o');
    }
  }

  /** Op for rune, the script keeps whole what it means to keep. */
  lemma {:induction false} ScriptKeepsWhole(o: seq<nat>, w: seq<nat>)
    ensures WholeRunes(Pieces(o), SegOps(Runes, Script(o, w))) == KeptSyms(Script(o, w))
    decreases |o| + |w|
  {
    if o == [] && w == [] {
    } else if o != [] && w != [] && Last(o) == Last(w) {
      var rest, seg := Script(Front(o), Front(w)), Seg(Keep, Last(o));
      ScriptKeepsWhole(Front(o), Front(w));
      ScriptReads(Front(o), Front(w));
      LastKept(o, rest, seg);
      KeptSymsLast(rest, seg);
    } else if w != [] && (o == [] || Lcs(o, Front(w)) >= Lcs(Front(o), w)) {
      var rest, seg := Script(o, Front(w)), Seg(Ins, Last(w));
      ScriptKeepsWhole(o, Front(w));
      ScriptReads(o, Front(w));
      LastKept(o, rest, seg);
      KeptSymsLast(rest, seg);
    } else {
      var rest, seg := Script(Front(o), w), Seg(Del, Last(o));
      ScriptKeepsWhole(Front(o), w);
      ScriptReads(Front(o), w);
      LastKept(o, rest, seg);
      KeptSymsLast(rest, seg);
    }
  }

  lemma ServerKeepsWhole(oldText: seq<Byte>, newText: seq<Byte>)
    ensures RunesKept(oldText, ServerDiff(oldText, newText)) == ServerKeeps(oldText, newText)
  {
    var o, w := Decode(oldText), Decode(newText);
    var raw := SegOps(Runes, Script(o, w));
    ScriptKeepsWhole(o, w);
    Units(raw);
    AddAllView([], raw);
    SameViewSameRunes(Pieces(o), Merged(raw), raw);
  }

  /** In whole runes the server's diff is minimal: of all changesets of bytes that turn one
      well-formed text into another it keeps the most runes whole, and that is the table's last
      entry. */
  lemma ServerOptimal(oldText: seq<Byte>, newText: seq<Byte>, c: Changeset)
    requires WellFormed(oldText) && WellFormed(newText)
    requires Valid(c) && c.oldLen == |oldText| && Run(oldText, c.ops) == newText
    ensures |RunesKept(oldText, c)| <= |RunesKept(oldText, ServerDiff(oldText, newText))|
    ensures |RunesKept(oldText, ServerDiff(oldText, newText))| == Lcs(Decode(oldText), Decode(newText))
  {
    RunesKeptAreCommon(oldText, newText, c);
    LcsBounds(RunesKept(oldText, c), Decode(oldText), Decode(newText));
    ServerRetains(oldText, newText);
    ServerKeepsWhole(oldText, newText);
  }
}
