/** The browser's A · X · Y state machine (web/client.js:286-299, 381-530, 581-658). */
module Client {
  import opened Texts
  import opened Changesets
  import opened Application
  import opened Cursors
  import opened Follow
  import opened Merge
  import opened Compose
  import opened NormalForms
  import opened Diff
  import opened Selection
  import opened Views

  /** `A`: what the server acknowledged; `X`: submitted, awaiting its ACK; `Y`: the local rest.
      `editor` is the text on the screen, `selStart` and `selEnd` its selection. */
  datatype ClientState = ClientState(
    A: Changeset, X: Changeset, Y: Changeset,
    serverRev: int, nextSubmissionId: int, waitingForAck: bool,
    baseText: Text, editor: Text, selStart: nat, selEnd: nat)

  datatype Submission = Submission(submissionId: int, baseRev: int, changeset: Changeset)

  // ----- Handlers

  /** Nothing but the positive lengths the loops need. */
  predicate Ready(s: ClientState) {
    && Positive(s.A.ops) && Positive(s.X.ops) && Positive(s.Y.ops)
    && s.X.newLen == Produced(s.X.ops)
  }

  lemma ResultsPositive(A: Changeset, B: Changeset)
    requires Positive(A.ops) && Positive(B.ops)
    ensures Positive(Rebased(A, B).ops) && Rebased(A, B).newLen == Produced(Rebased(A, B).ops)
    ensures Positive(Composed(A, B).ops)
  {
    MergedMeaning(RawFollow(A.ops, B.ops));
    MergedMeaning(RawCompose(A.ops, B.ops));
  }

  /** First connection: the head text is taken over and nothing is pending. */
  function Joined(headText: Text, headRev: int, nextSubmissionId: int): (s: ClientState)
    ensures Ready(s)
  {
    var n := |headText|;
    TextRuns(headText);
    IdentityRuns(headText);
    ClientState(TextToChangeset(headText), Identity(n), Identity(n), headRev, nextSubmissionId, false,
                headText, headText, n, n)
  }

  /** The ACK folds X into A. */
  function OnAck(s: ClientState, newRev: int): (s': ClientState)
    requires Ready(s)
    ensures Ready(s')
  {
    ResultsPositive(s.A, s.X);
    var A := Composed(s.A, s.X);
    var zeros := seq(A.newLen, _ => 0);
    IdentityRuns(zeros);
    var base := ApplyJs([], A);
    s.(A := A, X := Identity(A.newLen), serverRev := newRev, waitingForAck := false,
       baseText := if base.Some? then base.value else s.editor)
  }

  /** The local rest as the handlers recompute it: whatever the screen holds beyond A · X. */
  function LocalRest(s: ClientState, afterAX: Text): (Y: Changeset)
    ensures Normal(Y) && Y.oldLen == |afterAX| && Y.newLen == |s.editor|
  {
    BrowserRoundTrip(afterAX, s.editor);
    BrowserDiff(afterAX, s.editor)
  }

  /** The local edits consolidated into Y before a broadcast is folded in. */
  function Synced(s: ClientState, afterAX: Text): (s': ClientState)
    requires Ready(s)
    ensures Ready(s')
  {
    s.(Y := LocalRest(s, afterAX))
  }

  /** The change to the screen: the broadcast rebased over X and then over Y. */
  function ScreenChange(s: ClientState, B: Changeset): (D: Changeset)
    requires Ready(s) && Positive(B.ops)
    ensures Positive(D.ops) && D.oldLen == s.Y.newLen
  {
    ResultsPositive(s.X, B);
    ResultsPositive(s.Y, Rebased(s.X, B));
    Rebased(s.Y, Rebased(s.X, B))
  }

  /** A, X, Y, screen and base text moved by a broadcast; a thrown length error leaves all of
      them alone. */
  function Integrated(s: ClientState, B: Changeset, newRev: int): (s': ClientState)
    requires Ready(s) && Positive(B.ops)
    ensures Ready(s')
  {
    ResultsPositive(s.A, B);
    ResultsPositive(s.X, B);
    ResultsPositive(B, s.X);
    ResultsPositive(Rebased(s.X, B), s.Y);
    var D := ScreenChange(s, B);
    var screen := ApplyJs(s.editor, D);
    if screen.None? then s
    else s.(
      A := Composed(s.A, B), X := Rebased(B, s.X), Y := Rebased(Rebased(s.X, B), s.Y), serverRev := newRev,
      editor := screen.value, selStart := Landing(D.ops, s.selStart), selEnd := Landing(D.ops, s.selEnd),
      baseText := NewBase(s.baseText, Composed(s.A, B), B))
  }

  function OnBroadcast(s: ClientState, B: Changeset, newRev: int): (s': ClientState)
    requires Ready(s) && Positive(B.ops)
    ensures Ready(s')
  {
    var afterAX := ApplyJs(s.baseText, s.X);
    if afterAX.None? then s else Integrated(Synced(s, afterAX.value), B, newRev)
  }

  /** The base text after a broadcast: what the new A creates, or else the old base text
      changed by `B`, or else the old one. */
  function NewBase(baseText: Text, A: Changeset, B: Changeset): Text
    requires Positive(A.ops) && Positive(B.ops)
  {
    var base, fallback := ApplyJs([], A), ApplyJs(baseText, B);
    if base.Some? then base.value
    else if fallback.Some? then fallback.value
    else baseText
  }

  /** The text A · X stands for, the way the timer computes it. */
  function Pending(s: ClientState): Text
    requires Ready(s)
  {
    if IsIdentityJs(s.X) then s.baseText
    else
      var t := ApplyJs(s.baseText, s.X);
      if t.Some? then t.value else s.baseText
  }

  /** Whether the timer has something to submit. */
  predicate Submits(s: ClientState)
    requires Ready(s)
  {
    !s.waitingForAck && !IsIdentityJs(LocalRest(s, Pending(s)))
  }

  /** The timer shifts the local rest into X. */
  function AfterTick(s: ClientState): (s': ClientState)
    requires Ready(s)
    ensures Ready(s')
  {
    if !Submits(s) then s
    else
      IdentityRuns(s.editor);
      s.(X := LocalRest(s, Pending(s)), Y := Identity(|s.editor|), waitingForAck := true,
         nextSubmissionId := s.nextSubmissionId + 1)
  }

  function Submitted(s: ClientState): Submission {
    Submission(s.nextSubmissionId, s.serverRev, s.X)
  }

  class Browser {
    var A: Changeset
    var X: Changeset
    var Y: Changeset
    var serverRev: int
    var nextSubmissionId: int
    var waitingForAck: bool
    var baseText: Text
    var editor: Text
    var selStart: nat
    var selEnd: nat

    ghost function State(): ClientState
      reads this
    {
      ClientState(A, X, Y, serverRev, nextSubmissionId, waitingForAck, baseText, editor, selStart, selEnd)
    }

    constructor (headText: Text, headRev: int, nextSubmissionId: int)
      ensures State() == Joined(headText, headRev, nextSubmissionId)
    {
      var n := |headText|;
      A := TextToChangeset(headText);
      X, Y := Identity(n), Identity(n);
      serverRev, waitingForAck := headRev, false;
      this.nextSubmissionId := nextSubmissionId;
      baseText, editor := headText, headText;
      selStart, selEnd := n, n;
    }

    method HandleAck(newRev: int)
      requires Ready(State())
      modifies this
      ensures State() == OnAck(old(State()), newRev)
    {
      ResultsPositive(A, X);
      A := Compose.Compose(A, X);
      X := Identity(A.newLen);
      serverRev := newRev;
      waitingForAck := false;
      var base := ApplyChangesetJs([], A);
      if base.Some? {
        baseText := base.value;
      } else {
        baseText := editor;
      }
    }

    method HandleBroadcast(B: Changeset, newRev: int)
      requires Ready(State()) && Positive(B.ops)
      modifies this
      ensures State() == OnBroadcast(old(State()), B, newRev)
    {
      var afterAX := ApplyChangesetJs(baseText, X);
      if afterAX.None? {
        return;
      }
      BrowserRoundTrip(afterAX.value, editor);
      Y := DiffToChangesetJs(afterAX.value, editor);
      Integrate(B, newRev);
    }

    /** The broadcast handler once Y is up to date. */
    method Integrate(B: Changeset, newRev: int)
      requires Ready(State()) && Positive(B.ops)
      modifies this
      ensures State() == Integrated(old(State()), B, newRev)
    {
      var X', Y', D := Rebases(B);
      ResultsPositive(A, B);
      var A' := Compose.Compose(A, B);
      var shown := Show(D);
      if !shown {
        return;
      }
      A, X, Y := A', X', Y';
      serverRev := newRev;
      RefreshBase(B);
    }

    /** Applies the change to the screen and takes the selection along. */
    method Show(D: Changeset) returns (shown: bool)
      requires Positive(D.ops)
      modifies this`editor, this`selStart, this`selEnd
      ensures shown == ApplyJs(old(editor), D).Some?
      ensures shown ==>
        editor == ApplyJs(old(editor), D).value
        && selStart == Landing(D.ops, old(selStart)) && selEnd == Landing(D.ops, old(selEnd))
      ensures !shown ==> editor == old(editor) && selStart == old(selStart) && selEnd == old(selEnd)
    {
      var newText := ApplyChangesetJs(editor, D);
      if newText.None? {
        return false;
      }
      editor := newText.value;
      var newStart := AdjustCursor(selStart, D);
      var newEnd := AdjustCursor(selEnd, D);
      selStart, selEnd := newStart, newEnd;
      return true;
    }

    /** The four rebases of the broadcast handler. */
    method Rebases(B: Changeset) returns (X': Changeset, Y': Changeset, D: Changeset)
      requires Ready(State()) && Positive(B.ops)
      ensures Positive(Rebased(X, B).ops) && D == ScreenChange(State(), B)
      ensures X' == Rebased(B, X) && Y' == Rebased(Rebased(X, B), Y)
    {
      var XfollowB := Follow.Follow(X, B);
      var BfollowX := Follow.Follow(B, X);
      ResultsPositive(X, B);
      X' := BfollowX;
      Y' := Follow.Follow(XfollowB, Y);
      D := Follow.Follow(Y, XfollowB);
      ResultsPositive(Y, XfollowB);
    }

    /** The inner try of the broadcast handler. */
    method RefreshBase(B: Changeset)
      requires Positive(A.ops) && Positive(B.ops)
      modifies this`baseText
      ensures baseText == NewBase(old(baseText), A, B)
    {
      var base := ApplyChangesetJs([], A);
      if base.Some? {
        baseText := base.value;
      } else {
        var other := ApplyChangesetJs(baseText, B);
        if other.Some? {
          baseText := other.value;
        }
      }
    }

    /** One firing of the submit timer. While an ACK is awaited the same submission may be sent
        again; `resend` says whether enough time has passed. */
    method SubmitTick(resend: bool) returns (msg: Option<Submission>)
      requires Ready(State())
      modifies this
      ensures State() == AfterTick(old(State()))
      ensures msg ==
        if old(Submits(State())) || (old(waitingForAck) && resend) then Some(Submitted(State())) else None
    {
      if waitingForAck {
        if resend {
          return Some(Submission(nextSubmissionId, serverRev, X));
        }
        return None;
      }
      var afterAX := baseText;
      if !IsIdentityJs(X) {
        var t := ApplyChangesetJs(afterAX, X);
        if t.Some? {
          afterAX := t.value;
        }
      }
      var rest := DiffToChangesetJs(afterAX, editor);
      if IsIdentityJs(rest) {
        return None;
      }
      X := rest;
      Y := Identity(|editor|);
      waitingForAck := true;
      nextSubmissionId := nextSubmissionId + 1;
      return Some(Submission(nextSubmissionId, serverRev, X));
    }
  }

  // ----- What the handlers keep

  /** The shape every run of the protocol keeps: `A` is one insert of the base text (or
      nothing), `X` is valid on it, in merged form, and the selection lies in the text. */
  predicate Coherent(s: ClientState) {
    && s.A == TextToChangeset(s.baseText)
    && Normal(s.X) && s.X.oldLen == |s.baseText|
    && Positive(s.Y.ops)
    && s.selStart <= s.selEnd <= |s.editor|
  }

  lemma CoherentReady(s: ClientState)
    requires Coherent(s)
    ensures Ready(s)
  {
    TextRuns(s.baseText);
  }

  /** The text of A · X. */
  function AfterAX(s: ClientState): Text
    requires Coherent(s)
  {
    Run(s.baseText, s.X.ops)
  }

  /** The screen shows A · X and nothing more. */
  predicate Settled(s: ClientState)
    requires Coherent(s)
  {
    s.editor == AfterAX(s)
  }

  lemma JoinedCoherent(headText: Text, headRev: int, nextSubmissionId: int)
    ensures Coherent(Joined(headText, headRev, nextSubmissionId))
    ensures Settled(Joined(headText, headRev, nextSubmissionId))
  {
    TextRuns(headText);
    IdentityRuns(headText);
  }

  /** The ACK: the base text becomes A · X and X the identity; the screen is left alone. */
  lemma AckFolds(s: ClientState, newRev: int)
    requires Coherent(s)
    ensures Ready(s)
    ensures var s' := OnAck(s, newRev);
      && Coherent(s') && s'.baseText == AfterAX(s) && s'.X == Identity(|AfterAX(s)|)
      && s'.serverRev == newRev && !s'.waitingForAck
      && s'.editor == s.editor && s'.nextSubmissionId == s.nextSubmissionId
      && (Settled(s) ==> Settled(s') && s'.editor == s'.baseText)
  {
    CoherentReady(s);
    var base := AfterAX(s);
    ComposeOntoText(s.baseText, s.X);
    TextRuns(base);
    PortsAgree([], TextToChangeset(base));
    IdentityRuns(base);
  }

  /** All an ACK changes: the screen, its selection, the local rest and the counter stay. */
  lemma AckExact(s: ClientState, newRev: int)
    requires Coherent(s)
    ensures Ready(s)
    ensures OnAck(s, newRev) == s.(
      A := TextToChangeset(AfterAX(s)), X := Identity(|AfterAX(s)|), serverRev := newRev, waitingForAck := false,
      baseText := AfterAX(s))
  {
    CoherentReady(s);
    ComposeOntoText(s.baseText, s.X);
    TextRuns(AfterAX(s));
    PortsAgree([], TextToChangeset(AfterAX(s)));
  }

  /** In any other state: where A creates no text from nothing, the base text is taken from the
      screen. */
  lemma AckFallsBack(s: ClientState, newRev: int)
    requires Ready(s) && s.A.oldLen != 0
    ensures var s' := OnAck(s, newRev);
      && s'.baseText == s.editor == s'.editor && s'.serverRev == newRev && !s'.waitingForAck
      && s'.X == Identity(s.X.newLen) && s'.Y == s.Y && s'.selStart == s.selStart && s'.selEnd == s.selEnd
      && s'.nextSubmissionId == s.nextSubmissionId
  {}

  /** The ACK of a submission sent twice names a revision the client already knows, and no
      submission. Taking it in changes nothing exactly when nothing is awaited and X is the
      identity; the base text stays right exactly when X changes nothing in it. */
  lemma RepeatedAckExact(s: ClientState)
    requires Coherent(s)
    ensures Ready(s)
    ensures OnAck(s, s.serverRev) == s <==> !s.waitingForAck && s.X == Identity(|s.baseText|)
    ensures OnAck(s, s.serverRev).baseText == s.baseText <==> AfterAX(s) == s.baseText
  {
    AckFolds(s, s.serverRev);
    IdentityRuns(s.baseText);
  }

  /** The two uses of the diamond behind a broadcast, on texts. */
  lemma TwoDiamonds(base: Text, X: Changeset, B: Changeset, Y: Changeset)
    requires Normal(X) && Normal(B) && Normal(Y)
    requires X.oldLen == B.oldLen == |base| && Y.oldLen == |Run(base, X.ops)|
    ensures var XB, BX := Rebased(X, B), Rebased(B, X);
      && Normal(XB) && Normal(BX) && XB.oldLen == Y.oldLen && BX.oldLen == |Run(base, B.ops)|
      && Normal(Rebased(XB, Y)) && Rebased(XB, Y).oldLen == |Run(Run(base, B.ops), BX.ops)|
      && Normal(Rebased(Y, XB)) && Rebased(Y, XB).oldLen == |Run(Run(base, X.ops), Y.ops)|
      && Run(Run(Run(base, X.ops), Y.ops), Rebased(Y, XB).ops)
        == Run(Run(Run(base, B.ops), BX.ops), Rebased(XB, Y).ops)
  {
    var XB := Rebased(X, B);
    FollowMerges(base, X, B);
    FollowMerges(base, B, X);
    DiamondCanonical(base, X, B);
    var mid := Run(base, X.ops);
    FollowMerges(mid, XB, Y);
    FollowMerges(mid, Y, XB);
    DiamondCanonical(mid, XB, Y);
  }

  /** A broadcast written for the base text never throws. It moves the base text by `B` and X
      by one rebase, and afterwards the screen is exactly A' · X' · Y'. */
  lemma BroadcastKeepsView(s: ClientState, B: Changeset, newRev: int)
    requires Coherent(s) && Normal(B) && B.oldLen == |s.baseText|
    ensures Ready(s)
    ensures var s' := OnBroadcast(s, B, newRev);
      && Coherent(s') && s'.baseText == Run(s.baseText, B.ops) && s'.X == Rebased(B, s.X)
      && s'.serverRev == newRev && s'.waitingForAck == s.waitingForAck && s'.nextSubmissionId == s.nextSubmissionId
      && Normal(s'.Y) && s'.Y.oldLen == |AfterAX(s')| && s'.editor == Run(AfterAX(s'), s'.Y.ops)
  {
    CoherentReady(s);
    var mid := AfterAX(s);
    PortsAgree(s.baseText, s.X);
    var Y := LocalRest(s, mid);
    BrowserRoundTrip(mid, s.editor);
    RunLength(s.baseText, s.X.ops);
    TwoDiamonds(s.baseText, s.X, B, Y);
    var D := ScreenChange(Synced(s, mid), B);
    PortsAgree(s.editor, D);
    RunLength(s.editor, D.ops);
    LandsInOrder(D.ops, s.selStart, s.selEnd);
    LandsInRange(D.ops, s.selEnd);
    var base := Run(s.baseText, B.ops);
    ComposeOntoText(s.baseText, B);
    TextRuns(base);
    PortsAgree([], TextToChangeset(base));
  }

  /** The unit of the base text that unit `p` of the screen is, traced back through what was
      typed since and through X; none if it was typed here, in flight or not yet sent. */
  function ScreenOrigin(s: ClientState, p: nat): Option<nat>
    requires Coherent(s)
  {
    BrowserRoundTrip(AfterAX(s), s.editor);
    Traced(s.X.ops, Origin(BrowserDiff(AfterAX(s), s.editor).ops, p))
  }

  lemma ScreenOriginText(s: ClientState, p: nat)
    requires Coherent(s) && p < |s.editor| && ScreenOrigin(s, p).Some?
    ensures ScreenOrigin(s, p).value < |s.baseText| && s.editor[p] == s.baseText[ScreenOrigin(s, p).value]
  {
    var mid := AfterAX(s);
    var Y := BrowserDiff(mid, s.editor);
    BrowserRoundTrip(mid, s.editor);
    OriginText(mid, Y.ops, p);
    OriginText(s.baseText, s.X.ops, Origin(Y.ops, p).value);
  }

  /** What the screen shows after a broadcast: the merge, gap by gap of the text of A · X, of the
      smallest edit that leads to what is on the screen and of the broadcast rebased over X. So
      nothing typed here is lost, everything the broadcast inserts appears, and of the rest what
      neither side deletes. */
  lemma BroadcastMerges(s: ClientState, B: Changeset, newRev: int)
    requires Coherent(s) && Normal(B) && B.oldLen == |s.baseText|
    ensures Ready(s) && Normal(Rebased(s.X, B)) && Rebased(s.X, B).oldLen == |AfterAX(s)|
    ensures var Y, XB := BrowserDiff(AfterAX(s), s.editor), Rebased(s.X, B);
      OnBroadcast(s, B, newRev).editor == MergedFrom(AfterAX(s), Y.ops, XB.ops, 0)
  {
    var mid := AfterAX(s);
    var Y := BrowserDiff(mid, s.editor);
    BroadcastScreen(s, B, newRev);
    BrowserRoundTrip(mid, s.editor);
    RunLength(s.baseText, s.X.ops);
    FollowMerges(s.baseText, s.X, B);
    FollowMerges(mid, Y, Rebased(s.X, B));
  }

  /** Where the selection goes: behind everything the change of the screen writes up to it. And
      nothing else moves: the counter, and whether an ACK is awaited, stay. */
  lemma BroadcastMovesSelection(s: ClientState, B: Changeset, newRev: int)
    requires Coherent(s) && Normal(B) && B.oldLen == |s.baseText|
    ensures Ready(s)
    ensures Positive(Rebased(s.X, B).ops) && Positive(BrowserDiff(AfterAX(s), s.editor).ops)
    ensures var s', D := OnBroadcast(s, B, newRev), Rebased(BrowserDiff(AfterAX(s), s.editor), Rebased(s.X, B));
      && s'.selStart <= |s'.editor| && s'.editor[..s'.selStart] == Written(s.editor, D.ops, s.selStart)
      && s'.selEnd <= |s'.editor| && s'.editor[..s'.selEnd] == Written(s.editor, D.ops, s.selEnd)
      && s'.nextSubmissionId == s.nextSubmissionId && s'.waitingForAck == s.waitingForAck
  {
    BroadcastScreen(s, B, newRev);
    BroadcastKeepsView(s, B, newRev);
    BrowserRoundTrip(AfterAX(s), s.editor);
    ResultsPositive(s.X, B);
    var D := ScreenChange(Synced(s, AfterAX(s)), B);
    LandsBehindWritten(s.editor, D.ops, s.selStart);
    LandsBehindWritten(s.editor, D.ops, s.selEnd);
  }

  /** In any state: where X does not fit the base text the handler gives up and changes nothing;
      nothing else keeps the client from the new revision. Where neither A nor the broadcast gives
      a base text, the old one stays. */
  lemma BroadcastThrows(s: ClientState, B: Changeset, newRev: int)
    requires Ready(s) && Positive(B.ops)
    ensures s.X.oldLen != |s.baseText| ==> OnBroadcast(s, B, newRev) == s
    ensures s.X.oldLen == |s.baseText| ==> OnBroadcast(s, B, newRev).serverRev == newRev
    ensures s.X.oldLen == |s.baseText| && s.A.oldLen != 0 && B.oldLen != |s.baseText| ==>
      OnBroadcast(s, B, newRev).baseText == s.baseText
  {}

  /** A broadcast takes from the screen exactly the units of the base text that it deletes
      itself. Text typed here stays, sent or not, and every unit that stays is found at its
      landing place. */
  lemma BroadcastSpares(s: ClientState, B: Changeset, newRev: int, p: nat)
    requires Coherent(s) && Normal(B) && B.oldLen == |s.baseText| && p < |s.editor|
    ensures Ready(s)
    ensures var s', D := OnBroadcast(s, B, newRev), ScreenChange(Synced(s, AfterAX(s)), B);
      && (KeptAt(D.ops, p) <==> Spares(B.ops, ScreenOrigin(s, p)))
      && (KeptAt(D.ops, p) ==> Landing(D.ops, p) < |s'.editor| && s'.editor[Landing(D.ops, p)] == s.editor[p])
  {
    BroadcastScreen(s, B, newRev);
    var mid := AfterAX(s);
    var Y, XB := BrowserDiff(mid, s.editor), Rebased(s.X, B);
    BrowserRoundTrip(mid, s.editor);
    RunLength(s.baseText, s.X.ops);
    FollowMerges(s.baseText, s.X, B);
    RebasedKeeps(Y, XB, p);
    var o := Origin(Y.ops, p);
    if o.Some? {
      OriginInside(Y.ops, p);
      RebasedKeeps(s.X, B, o.value);
    }
    var D := ScreenChange(Synced(s, mid), B);
    if KeptAt(D.ops, p) {
      LandsOnSameUnit(s.editor, D.ops, p);
    }
  }

  /** The selection follows the text it stood in front of: an end loses its unit only when the
      broadcast itself deletes that unit from the base text. */
  lemma BroadcastKeepsSelection(s: ClientState, B: Changeset, newRev: int)
    requires Coherent(s) && Normal(B) && B.oldLen == |s.baseText|
    ensures Ready(s)
    ensures var s' := OnBroadcast(s, B, newRev);
      && (s.selStart < |s.editor| && Spares(B.ops, ScreenOrigin(s, s.selStart)) ==>
            s'.selStart < |s'.editor| && s'.editor[s'.selStart] == s.editor[s.selStart])
      && (s.selEnd < |s.editor| && Spares(B.ops, ScreenOrigin(s, s.selEnd)) ==>
            s'.selEnd < |s'.editor| && s'.editor[s'.selEnd] == s.editor[s.selEnd])
  {
    BroadcastScreen(s, B, newRev);
    if s.selStart < |s.editor| {
      BroadcastSpares(s, B, newRev, s.selStart);
    }
    if s.selEnd < |s.editor| {
      BroadcastSpares(s, B, newRev, s.selEnd);
    }
  }

  lemma BroadcastScreen(s: ClientState, B: Changeset, newRev: int)
    requires Coherent(s) && Normal(B) && B.oldLen == |s.baseText|
    ensures Ready(s)
    ensures var s', D := OnBroadcast(s, B, newRev), ScreenChange(Synced(s, AfterAX(s)), B);
      && Normal(D) && D.oldLen == |s.editor| && s'.editor == Run(s.editor, D.ops)
      && s'.selStart == Landing(D.ops, s.selStart) && s'.selEnd == Landing(D.ops, s.selEnd)
  {
    CoherentReady(s);
    var mid := AfterAX(s);
    PortsAgree(s.baseText, s.X);
    var Y := LocalRest(s, mid);
    BrowserRoundTrip(mid, s.editor);
    RunLength(s.baseText, s.X.ops);
    TwoDiamonds(s.baseText, s.X, B, Y);
    PortsAgree(s.editor, ScreenChange(Synced(s, mid), B));
  }

  /** Where nothing was typed beyond A · X, a broadcast leaves nothing typed beyond it. */
  lemma BroadcastKeepsSettled(s: ClientState, B: Changeset, newRev: int)
    requires Coherent(s) && Normal(B) && B.oldLen == |s.baseText| && Settled(s)
    ensures Ready(s) && Coherent(OnBroadcast(s, B, newRev)) && Settled(OnBroadcast(s, B, newRev))
  {
    BroadcastKeepsView(s, B, newRev);
    BroadcastScreen(s, B, newRev);
    var mid := AfterAX(s);
    BrowserDiffIdentity(mid, s.editor);
    FollowMerges(s.baseText, s.X, B);
    FollowMerges(s.baseText, B, s.X);
    RunLength(s.baseText, s.X.ops);
    FollowOverIdentity(Rebased(s.X, B));
    DiamondCanonical(s.baseText, s.X, B);
  }

  /** The timer computes A · X, submits exactly when nothing is awaited and the screen differs
      from it, and what it then puts into X leads from the base text to the screen. */
  lemma TickSubmits(s: ClientState)
    requires Coherent(s)
    ensures Ready(s) && Pending(s) == AfterAX(s)
    ensures Submits(s) <==> !s.waitingForAck && !Settled(s)
    ensures s.X == Identity(|s.baseText|) && Submits(s) ==>
      Coherent(AfterTick(s)) && Settled(AfterTick(s)) && AfterTick(s).baseText == s.baseText
  {
    CoherentReady(s);
    PortsAgree(s.baseText, s.X);
    IsIdentityPorts(s.X);
    if IsIdentityJs(s.X) {
      IdentityRuns(s.baseText);
    }
    BrowserDiffIdentity(AfterAX(s), s.editor);
    BrowserRoundTrip(AfterAX(s), s.editor);
    IsIdentityPorts(BrowserDiff(AfterAX(s), s.editor));
    if s.X == Identity(|s.baseText|) {
      IdentityRuns(s.baseText);
      IdentityRuns(s.editor);
    }
  }

  /** All the timer changes: X becomes the diff from A · X to the screen, and a new id is used.
      The screen, its selection and the base text stay. */
  lemma TickExact(s: ClientState)
    requires Coherent(s)
    ensures Ready(s)
    ensures !Submits(s) ==> AfterTick(s) == s
    ensures Submits(s) ==> AfterTick(s) == s.(
      X := BrowserDiff(AfterAX(s), s.editor), Y := Identity(|s.editor|), waitingForAck := true,
      nextSubmissionId := s.nextSubmissionId + 1)
  {
    TickSubmits(s);
  }

  /** What is submitted is as small as can be: of all changesets from the base text to the screen
      none inserts and deletes less, and none retains more. */
  lemma TickSubmitsLeast(s: ClientState, c: Changeset)
    requires Coherent(s) && s.X == Identity(|s.baseText|)
    requires Valid(c) && c.oldLen == |s.baseText| && Run(s.baseText, c.ops) == s.editor
    ensures Ready(s)
    ensures Submits(s) ==>
      && EditSize(AfterTick(s).X.ops) <= EditSize(c.ops)
      && Retained(c.ops) <= Retained(AfterTick(s).X.ops)
      && Valid(AfterTick(s).X) && Run(s.baseText, AfterTick(s).X.ops) == s.editor
  {
    TickExact(s);
    IdentityRuns(s.baseText);
    DiffOptimal(s.baseText, s.editor, c);
    BrowserRoundTrip(s.baseText, s.editor);
  }
}
