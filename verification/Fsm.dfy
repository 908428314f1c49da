/** The replicated document state machine (internal/fsm/fsm.go, internal/fsm/types.go). */
module Fsm {
  import opened Texts
  import opened Changesets
  import opened Application
  import opened Cursors
  import opened Follow
  import opened Merge
  import opened Selection

  type ClientId = string

  datatype Entry = Entry(clientId: ClientId, submissionId: int, baseRev: int, changeset: Changeset)

  datatype Revision = Revision(revNumber: int, changeset: Changeset, source: ClientId)

  datatype ApplyResult = ApplyResult(cPrime: Changeset, newRev: int, clientId: ClientId, isDuplicate: bool)

  /** The whole replicated state, as a value. */
  datatype SnapshotData = SnapshotData(
    headText: Text, headRev: int, revisionLog: seq<Revision>, clientLastSubmission: map<ClientId, int>)

  // ----- Histories

  function Changes(log: seq<Revision>): (hist: seq<Changeset>)
    ensures |hist| == |log| && forall i :: 0 <= i < |log| ==> hist[i] == log[i].changeset
  {
    seq(|log|, i requires 0 <= i < |log| => log[i].changeset)
  }

  predicate AllPositive(hist: seq<Changeset>) {
    forall i :: 0 <= i < |hist| ==> Positive(hist[i].ops)
  }

  predicate AllNormal(hist: seq<Changeset>) {
    forall i :: 0 <= i < |hist| ==> Normal(hist[i])
  }

  /** A changeset caught up over a history, oldest first. */
  function Rebase(hist: seq<Changeset>, C: Changeset): (r: Changeset)
    requires AllPositive(hist) && Positive(C.ops)
    ensures Positive(r.ops)
    decreases |hist|
  {
    if hist == [] then C
    else
      MergedMeaning(RawFollow(hist[0].ops, C.ops));
      Rebase(hist[1..], Rebased(hist[0], C))
  }

  /** What is left to catch up over leads from `C` to `goal`. */
  ghost predicate CatchingUp(todo: seq<Changeset>, C: Changeset, goal: Changeset) {
    AllPositive(todo) && Positive(C.ops) && Rebase(todo, C) == goal
  }

  lemma CatchUpStep(todo: seq<Changeset>, C: Changeset, C': Changeset, goal: Changeset)
    requires CatchingUp(todo, C, goal) && todo != [] && C' == Rebased(todo[0], C)
    ensures CatchingUp(todo[1..], C', goal)
  {
    MergedMeaning(RawFollow(todo[0].ops, C.ops));
  }

  /** Every changeset of the history is valid and was written for the text before it. */
  predicate Chained(text: Text, hist: seq<Changeset>)
    decreases |hist|
  {
    hist == [] ||
    (Valid(hist[0]) && hist[0].oldLen == |text| && Chained(Run(text, hist[0].ops), hist[1..]))
  }

  function TextAfter(text: Text, hist: seq<Changeset>): Text
    requires Chained(text, hist)
    decreases |hist|
  {
    if hist == [] then text else TextAfter(Run(text, hist[0].ops), hist[1..])
  }

  /** `ApplyChangeset` folded over a history. */
  function ApplyAll(text: Text, hist: seq<Changeset>): Outcome
    decreases |hist|
  {
    if hist == [] then Done(text)
    else
      var o := Apply(text, hist[0]);
      if o.Done? then ApplyAll(o.text, hist[1..]) else o
  }

  // ----- One log entry

  predicate Stale(s: SnapshotData, e: Entry) {
    e.clientId in s.clientLastSubmission && e.submissionId <= s.clientLastSubmission[e.clientId]
  }

  /** What the apply loop needs of the state to run at all. */
  predicate Runnable(s: SnapshotData) {
    s.headRev == |s.revisionLog| && AllPositive(Changes(s.revisionLog))
  }

  /** What the submit gate lets into the log. It does not look at the base revision. */
  predicate Admissible(e: Entry) {
    Valid(e.changeset)
  }

  /** A negative base revision indexes the log out of range: a Go runtime panic. */
  predicate Crashes(s: SnapshotData, e: Entry) {
    !Stale(s, e) && e.baseRev < 0
  }

  /** The revisions an entry has to be caught up over; none if it names a later one. */
  function Missed(s: SnapshotData, baseRev: int): (hist: seq<Changeset>)
    requires Runnable(s)
    ensures AllPositive(hist)
  {
    if 0 <= baseRev <= s.headRev then Changes(s.revisionLog)[baseRev..] else []
  }

  function CaughtUp(s: SnapshotData, e: Entry): (C: Changeset)
    requires Runnable(s) && Admissible(e)
    ensures Positive(C.ops)
  {
    Rebase(Missed(s, e.baseRev), e.changeset)
  }

  predicate Accepts(s: SnapshotData, e: Entry)
    requires Runnable(s) && Admissible(e)
  {
    !Stale(s, e) && e.baseRev >= 0 && Apply(s.headText, CaughtUp(s, e)).Done?
  }

  /** The state after one committed entry. */
  function Next(s: SnapshotData, e: Entry): (s': SnapshotData)
    requires Runnable(s) && Admissible(e)
    ensures Runnable(s')
  {
    if Accepts(s, e) then
      var C := CaughtUp(s, e);
      var log := s.revisionLog + [Revision(s.headRev, C, e.clientId)];
      SnapshotData(
        Apply(s.headText, C).text,
        s.headRev + 1,
        log,
        s.clientLastSubmission[e.clientId := e.submissionId])
    else s
  }

  /** What `Apply` hands to the commit callback; nothing when the entry failed. */
  function Result(s: SnapshotData, e: Entry): Option<ApplyResult>
    requires Runnable(s) && Admissible(e)
  {
    if Stale(s, e) then Some(ApplyResult(Changeset(0, 0, []), s.headRev, e.clientId, true))
    else if Accepts(s, e) then Some(ApplyResult(CaughtUp(s, e), s.headRev + 1, e.clientId, false))
    else None
  }

  /** The dedup map: a Go map is a reference, and writing to it is seen by all who hold it. */
  class IdTable {
    var ids: map<ClientId, int>

    constructor ()
      ensures ids == map[]
    {
      ids := map[];
    }

    method Set(c: ClientId, id: int)
      modifies this
      ensures ids == old(ids)[c := id]
    {
      ids := ids[c := id];
    }

    /** The copying loop: a map of its own, with the same entries. */
    method Copy() returns (copy: IdTable)
      ensures fresh(copy) && copy.ids == ids
    {
      copy := new IdTable();
      var todo := ids.Keys;
      while todo != {}
        invariant todo <= ids.Keys && fresh(copy)
        invariant copy.ids == map c | c in ids.Keys - todo :: ids[c]
        decreases todo
      {
        var c :| c in todo;
        copy.Set(c, ids[c]);
        todo := todo - {c};
      }
    }
  }

  /** A copy of `n` records from `from` on, in a new array with room for `capacity`. */
  method CopyRecords(log: array<Revision>, from: nat, n: nat, capacity: nat) returns (copy: array<Revision>)
    requires from + n <= log.Length && n <= capacity
    ensures fresh(copy) && copy.Length == capacity && copy[..n] == log[from..from + n]
  {
    copy := new Revision[capacity];
    for i := 0 to n
      invariant copy[..i] == log[from..from + i]
    {
      copy[i] := log[from + i];
    }
  }

  /** What `Snapshot` hands to Raft: an array and a map of its own. */
  class FsmSnapshot {
    const headRev: int
    const headText: Text
    const revisionLog: array<Revision>
    const clientLastSubmission: IdTable

    constructor (headRev: int, headText: Text, revisionLog: array<Revision>, clientLastSubmission: IdTable)
      ensures this.headRev == headRev && this.headText == headText
      ensures this.revisionLog == revisionLog && this.clientLastSubmission == clientLastSubmission
    {
      this.headRev, this.headText := headRev, headText;
      this.revisionLog, this.clientLastSubmission := revisionLog, clientLastSubmission;
    }

    ghost function Contents(): SnapshotData
      reads revisionLog, clientLastSubmission
    {
      SnapshotData(headText, headRev, revisionLog[..], clientLastSubmission.ids)
    }

    /** What is written to the sink; the encoding is taken as the identity. */
    method Persist() returns (data: Persisted)
      ensures data == Encoded(Contents())
    {
      data := Persisted(headText, headRev, revisionLog[..], Some(clientLastSubmission.ids));
    }
  }

  /** The bytes of a snapshot; the map may be missing. */
  datatype Persisted = Persisted(
    headText: Text, headRev: int, revisionLog: seq<Revision>, clientLastSubmission: Option<map<ClientId, int>>)

  function Encoded(s: SnapshotData): Persisted {
    Persisted(s.headText, s.headRev, s.revisionLog, Some(s.clientLastSubmission))
  }

  function Decoded(data: Persisted): SnapshotData {
    var ids := match data.clientLastSubmission case Some(ids) => ids case None => map[];
    SnapshotData(data.headText, data.headRev, data.revisionLog, ids)
  }

  lemma PersistRoundTrip(s: SnapshotData)
    ensures Decoded(Encoded(s)) == s
  {}

  /** The log is a slice: the first `logLen` records of an array that may have room for more. */
  class DocumentStateMachine {
    var headText: Text
    var headRev: int
    var revisionLog: array<Revision>
    var logLen: nat
    var clientLastSubmission: IdTable

    ghost predicate Valid()
      reads this
    {
      logLen <= revisionLog.Length
    }

    ghost function State(): SnapshotData
      requires Valid()
      reads this, revisionLog, clientLastSubmission
    {
      SnapshotData(headText, headRev, revisionLog[..logLen], clientLastSubmission.ids)
    }

    ghost function Owned(): set<object>
      reads this
    {
      {this, revisionLog, clientLastSubmission}
    }

    constructor (initialText: Text)
      ensures Valid() && State() == Initial(initialText)
      ensures fresh(revisionLog) && fresh(clientLastSubmission)
    {
      headText, headRev := initialText, 0;
      revisionLog, logLen := new Revision[0], 0;
      clientLastSubmission := new IdTable();
    }

    /** `append`: in place while there is room, otherwise into a larger array. What the old
        slice showed stays as it was in either case. */
    method Append(record: Revision)
      requires Valid()
      modifies this`revisionLog, this`logLen, revisionLog
      ensures Valid() && logLen == old(logLen) + 1
      ensures revisionLog[..logLen] == old(revisionLog[..logLen]) + [record]
      ensures revisionLog == old(revisionLog) || fresh(revisionLog)
      ensures old(revisionLog)[..old(logLen)] == old(revisionLog[..logLen])
    {
      if logLen == revisionLog.Length {
        revisionLog := CopyRecords(revisionLog, 0, logLen, 2 * logLen + 1);
      }
      revisionLog[logLen] := record;
      logLen := logLen + 1;
    }

    /** `res` is what the commit callback is given. The one panic there can be leaves the state
        as it was. */
    method Apply(entry: Entry) returns (res: Option<ApplyResult>, panicked: bool)
      requires Valid() && Runnable(State()) && Admissible(entry)
      modifies Owned()
      ensures Valid() && State() == Next(old(State()), entry)
      ensures res == Result(old(State()), entry)
      ensures panicked <==> Crashes(old(State()), entry)
      ensures clientLastSubmission == old(clientLastSubmission)
      ensures revisionLog == old(revisionLog) || fresh(revisionLog)
    {
      ghost var s := State();
      if entry.clientId in clientLastSubmission.ids && entry.submissionId <= clientLastSubmission.ids[entry.clientId] {
        return Some(ApplyResult(Changeset(0, 0, []), headRev, entry.clientId, true)), false;
      }
      var C;
      C, panicked := CatchUpEntry(entry);
      if panicked {
        return None, true;
      }
      var o := ApplyChangeset(headText, C);
      CaughtUpNeverPanics(s, entry);
      assert !o.Panicked?;
      if !o.Done? {
        return None, false;
      }
      Append(Revision(headRev, C, entry.clientId));
      headText := o.text;
      headRev := headRev + 1;
      clientLastSubmission.Set(entry.clientId, entry.submissionId);
      return Some(ApplyResult(C, headRev, entry.clientId, false)), false;
    }

    /** The rebasing loop of `Apply`. */
    method CatchUpEntry(entry: Entry) returns (C: Changeset, panicked: bool)
      requires Valid() && Runnable(State()) && Admissible(entry)
      ensures panicked <==> entry.baseRev < 0
      ensures !panicked ==> C == CaughtUp(State(), entry)
    {
      C := entry.changeset;
      var r := entry.baseRev;
      if r < 0 {
        return C, true;  // revisionLog[r], at the first turn of the loop
      }
      ghost var hist := Changes(State().revisionLog);
      ghost var todo, goal := Missed(State(), entry.baseRev), CaughtUp(State(), entry);
      while r < headRev
        invariant 0 <= r && todo == if r <= headRev then hist[r..] else []
        invariant CatchingUp(todo, C, goal)
      {
        ghost var C' := C;
        C := Follow.Follow(revisionLog[r].changeset, C);
        CatchUpStep(todo, C', C, goal);
        todo := todo[1..];
        r := r + 1;
      }
      return C, false;
    }

    method Snapshot() returns (snap: FsmSnapshot)
      requires Valid()
      ensures snap.Contents() == State()
      ensures fresh(snap.revisionLog) && fresh(snap.clientLastSubmission)
    {
      var logCopy := CopyRecords(revisionLog, 0, logLen, logLen);
      var dedupCopy := clientLastSubmission.Copy();
      snap := new FsmSnapshot(headRev, headText, logCopy, dedupCopy);
    }

    /** The decoder allocates the array and the map; a missing map is replaced by an empty
        one. */
    method Restore(data: Persisted)
      modifies this
      ensures Valid() && State() == Decoded(data)
      ensures fresh(revisionLog) && fresh(clientLastSubmission)
    {
      var records := data.revisionLog;
      var log := new Revision[|records|](i requires 0 <= i < |records| => records[i]);
      var ids := new IdTable();
      if data.clientLastSubmission.Some? {
        ids.ids := data.clientLastSubmission.value;
      }
      headRev, headText := data.headRev, data.headText;
      revisionLog, logLen, clientLastSubmission := log, |records|, ids;
    }

    /** A copy of the records from `fromRev` on, empty beyond the end; a negative `fromRev`
        slices out of bounds. */
    method RevisionsSince(fromRev: int) returns (revs: array<Revision>, panicked: bool)
      requires Valid()
      ensures fresh(revs) && (panicked <==> fromRev < 0)
      ensures !panicked ==> revs[..] == Since(State(), fromRev)
    {
      if fromRev >= logLen {
        revs := new Revision[0];
        return revs, false;
      }
      if fromRev < 0 {
        revs := new Revision[0];
        return revs, true;
      }
      revs := CopyRecords(revisionLog, fromRev, logLen - fromRev, logLen - fromRev);
      return revs, false;
    }
  }

  function Initial(text: Text): SnapshotData {
    SnapshotData(text, 0, [], map[])
  }

  function Since(s: SnapshotData, fromRev: int): seq<Revision>
    requires fromRev >= 0
  {
    if fromRev >= |s.revisionLog| then [] else s.revisionLog[fromRev..]
  }

  /** What a reader is sent is exactly what the log holds behind what it knows, records as they
      are: the known part and it make up the log, and beyond the end there is nothing. */
  lemma SinceExact(s: SnapshotData, r: nat)
    ensures r <= |s.revisionLog| ==> s.revisionLog[..r] + Since(s, r) == s.revisionLog
    ensures r > |s.revisionLog| ==> Since(s, r) == []
  {}

  /** A snapshot without the dedup map restores to everything else it holds, with no submission
      recognised. */
  lemma MissingMapForgets(data: Persisted, e: Entry)
    requires data.clientLastSubmission == None
    ensures !Stale(Decoded(data), e)
    ensures Decoded(data).headText == data.headText && Decoded(data).headRev == data.headRev
    ensures Decoded(data).revisionLog == data.revisionLog
  {}

  // ----- Histories that chain

  lemma {:induction false} ChainedApplies(text: Text, hist: seq<Changeset>)
    requires Chained(text, hist)
    ensures ApplyAll(text, hist) == Done(TextAfter(text, hist))
    ensures AllPositive(hist) && forall i :: 0 <= i < |hist| ==> Valid(hist[i])
    decreases |hist|
  {
    if hist != [] {
      ApplyExact(text, hist[0]);
      ChainedApplies(Run(text, hist[0].ops), hist[1..]);
      forall i | 0 <= i < |hist|
        ensures Valid(hist[i])
      {
        assert i > 0 ==> hist[i] == hist[1..][i - 1];
      }
    }
  }

  lemma {:induction false} ChainedConcat(text: Text, p: seq<Changeset>, q: seq<Changeset>)
    requires Chained(text, p)
    ensures Chained(text, p + q) <==> Chained(TextAfter(text, p), q)
    ensures Chained(text, p + q) ==> TextAfter(text, p + q) == TextAfter(TextAfter(text, p), q)
    decreases |p|
  {
    if p == [] {
      Units(q);
    } else {
      Uncons(p, q);
      ChainedConcat(Run(text, p[0].ops), p[1..], q);
    }
  }

  lemma {:induction false} ChainedTake(text: Text, hist: seq<Changeset>, r: nat)
    requires Chained(text, hist) && r <= |hist|
    ensures Chained(text, hist[..r])
    decreases |hist|
  {
    if r > 0 {
      ChainedTake(Run(text, hist[0].ops), hist[1..], r - 1);
      assert hist[1..][..r - 1] == hist[..r][1..];
    }
  }

  lemma ChainedPrefix(text: Text, hist: seq<Changeset>, r: nat)
    requires Chained(text, hist) && r <= |hist|
    ensures Chained(text, hist[..r]) && Chained(TextAfter(text, hist[..r]), hist[r..])
    ensures TextAfter(TextAfter(text, hist[..r]), hist[r..]) == TextAfter(text, hist)
  {
    ChainedTake(text, hist, r);
    Halves(hist, r);
    ChainedConcat(text, hist[..r], hist[r..]);
  }

  lemma ChainedOne(text: Text, C: Changeset)
    requires Valid(C) && C.oldLen == |text|
    ensures Chained(text, [C]) && TextAfter(text, [C]) == Run(text, C.ops)
  {
    assert [C][1..] == [];
  }

  /** The one-step facts about `Rebase`. */
  lemma RebaseCons(h: Changeset, hist: seq<Changeset>, C: Changeset)
    requires Positive(h.ops) && AllPositive(hist) && Positive(C.ops)
    ensures AllPositive([h] + hist) && Positive(Rebased(h, C).ops)
    ensures Rebase([h] + hist, C) == Rebase(hist, Rebased(h, C))
  {
    MergedMeaning(RawFollow(h.ops, C.ops));
    assert ([h] + hist)[1..] == hist;
  }

  /** Catching up in two stages is catching up. */
  lemma {:induction false} RebaseConcat(p: seq<Changeset>, q: seq<Changeset>, C: Changeset)
    requires AllPositive(p) && AllPositive(q) && Positive(C.ops)
    ensures AllPositive(p + q) && Rebase(p + q, C) == Rebase(q, Rebase(p, C))
    decreases |p|
  {
    if p == [] {
      Units(q);
    } else {
      MergedMeaning(RawFollow(p[0].ops, C.ops));
      Uncons(p, q);
      RebaseConcat(p[1..], q, Rebased(p[0], C));
    }
  }

  /** A changeset written for a text at least as long as the one the history starts from
      catches up to a valid changeset for the text the history ends in. */
  lemma {:induction false} RebaseValid(text: Text, hist: seq<Changeset>, C: Changeset)
    requires Chained(text, hist) && Valid(C)
    requires C.oldLen == |text| || (hist != [] && C.oldLen > |text|)
    ensures AllPositive(hist)
    ensures var R := Rebase(hist, C);
      && Valid(R) && R.oldLen == |TextAfter(text, hist)|
      && (Normal(C) || hist != [] ==> Normal(R))
    decreases |hist|
  {
    ChainedApplies(text, hist);
    if hist != [] {
      FollowValid(hist[0], C);
      RunLength(text, hist[0].ops);
      RebaseValid(Run(text, hist[0].ops), hist[1..], Rebased(hist[0], C));
    }
  }

  /** Whatever the input was written for, `newLen` of the result is what its ops produce. */
  lemma {:induction false} RebaseNewLen(hist: seq<Changeset>, C: Changeset)
    requires AllPositive(hist) && Positive(C.ops) && C.newLen == Produced(C.ops)
    ensures Rebase(hist, C).newLen == Produced(Rebase(hist, C).ops)
    decreases |hist|
  {
    if hist != [] {
      MergedMeaning(RawFollow(hist[0].ops, C.ops));
      RebaseNewLen(hist[1..], Rebased(hist[0], C));
    }
  }

  lemma {:induction false} RebaseCanonical(hist: seq<Changeset>, C: Changeset)
    requires AllPositive(hist) && Canonical(C.ops)
    ensures Canonical(Rebase(hist, C).ops)
    decreases |hist|
  {
    if hist != [] {
      MergedMeaning(RawFollow(hist[0].ops, C.ops));
      RebaseCanonical(hist[1..], Rebased(hist[0], C));
    }
  }

  // ----- The invariant

  /** The three invariants of internal/fsm/fsm.go:11-14 that speak of one state, started from
      the text `init`. */
  ghost predicate Inv(init: Text, s: SnapshotData) {
    && s.headRev == |s.revisionLog|
    && (forall i :: 0 <= i < |s.revisionLog| ==> s.revisionLog[i].revNumber == i)
    && Chained(init, Changes(s.revisionLog))
    && TextAfter(init, Changes(s.revisionLog)) == s.headText
  }

  /** What the invariant says in the source's words: folding `ApplyChangeset` over the log
      gives the head text, every record validates, and record lengths chain. */
  lemma InvMeans(init: Text, s: SnapshotData)
    requires Inv(init, s)
    ensures Runnable(s) && ApplyAll(init, Changes(s.revisionLog)) == Done(s.headText)
    ensures forall i :: 0 <= i < |s.revisionLog| ==> Valid(s.revisionLog[i].changeset)
    ensures forall i :: 0 < i < |s.revisionLog| ==>
      s.revisionLog[i - 1].changeset.newLen == s.revisionLog[i].changeset.oldLen
    ensures s.revisionLog != [] ==> s.revisionLog[s.headRev - 1].changeset.newLen == |s.headText|
  {
    ChainedApplies(init, Changes(s.revisionLog));
    LengthsChain(init, s.revisionLog);
  }

  lemma LengthsChain(init: Text, log: seq<Revision>)
    requires Chained(init, Changes(log))
    ensures forall i :: 0 < i < |log| ==> log[i - 1].changeset.newLen == log[i].changeset.oldLen
    ensures log != [] ==> log[|log| - 1].changeset.newLen == |TextAfter(init, Changes(log))|
  {
    if log != [] {
      RecordLength(init, Changes(log), |log| - 1);
    }
    forall i | 0 < i < |log|
      ensures log[i - 1].changeset.newLen == log[i].changeset.oldLen
    {
      RecordLength(init, Changes(log), i - 1);
    }
  }

  lemma RecordLength(init: Text, hist: seq<Changeset>, i: nat)
    requires Chained(init, hist) && i < |hist|
    ensures hist[i].newLen == if i + 1 < |hist| then hist[i + 1].oldLen else |TextAfter(init, hist)|
  {
    ChainedPrefix(init, hist, i);
    var text := TextAfter(init, hist[..i]);
    assert hist[i..][0] == hist[i] && hist[i..][1..] == hist[i + 1..];
    RunLength(text, hist[i].ops);
    assert Chained(Run(text, hist[i].ops), hist[i + 1..]);
    assert i + 1 < |hist| ==> hist[i + 1..][0] == hist[i + 1];
  }

  lemma ChangesSnoc(log: seq<Revision>, r: Revision)
    ensures Changes(log + [r]) == Changes(log) + [r.changeset]
  {}

  /** Every committed entry that passed validation keeps the invariant, whatever text and
      whatever revision it was written for. */
  lemma NextInv(init: Text, s: SnapshotData, e: Entry)
    requires Inv(init, s) && Admissible(e)
    ensures Runnable(s) && Inv(init, Next(s, e))
  {
    InvMeans(init, s);
    if Accepts(s, e) {
      var C := CaughtUp(s, e);
      ApplyExact(s.headText, C);
      RebaseNewLen(Missed(s, e.baseRev), e.changeset);
      ChainedOne(s.headText, C);
      ChainedConcat(init, Changes(s.revisionLog), [C]);
      ChangesSnoc(s.revisionLog, Revision(s.headRev, C, e.clientId));
    }
  }

  /** Merged form is kept as well, if the entries have it. */
  lemma NextNormal(s: SnapshotData, e: Entry)
    requires Runnable(s) && AllNormal(Changes(s.revisionLog)) && Admissible(e) && Canonical(e.changeset.ops)
    ensures AllNormal(Changes(Next(s, e).revisionLog))
  {
    if Accepts(s, e) {
      var C := CaughtUp(s, e);
      ApplyExact(s.headText, C);
      RebaseNewLen(Missed(s, e.baseRev), e.changeset);
      RebaseCanonical(Missed(s, e.baseRev), e.changeset);
      ChangesSnoc(s.revisionLog, Revision(s.headRev, C, e.clientId));
    }
  }

  /** The text at a past revision. */
  ghost function TextAt(init: Text, s: SnapshotData, r: nat): Text
    requires Inv(init, s) && r <= s.headRev
  {
    ChainedPrefix(init, Changes(s.revisionLog), r);
    TextAfter(init, Changes(s.revisionLog)[..r])
  }

  // ----- Which entries are accepted

  /** Rebasing `B` over `A` keeps of what `B` reads the part `A` has a place for: the result
      reads `A`'s output up to where the end of that part lands. */
  lemma RawFollowLands(a: seq<Op>, b: seq<Op>)
    requires Positive(a) && Positive(b) && Consumed(b) <= Consumed(a)
    ensures Consumed(RawFollow(a, b)) == Landing(a, Consumed(b))
  {
    LandsEverywhere(a, b);
  }

  ghost predicate FollowLands(a: seq<Op>, b: seq<Op>) {
    && Positive(a) && Positive(b) && Consumed(b) <= Consumed(a)
    && Consumed(RawFollow(a, b)) == Landing(a, Consumed(b))
  }

  lemma {:induction false} LandsEverywhere(a: seq<Op>, b: seq<Op>)
    requires Positive(a) && Positive(b) && Consumed(b) <= Consumed(a)
    ensures FollowLands(a, b)
    decreases |a| + |b|
  {
    if TakesA(a, b) {
      LandsEverywhere(a[1..], b);
      LandsTakenA(a, b);
    } else if b != [] && b[0].Insert? {
      LandsEverywhere(a, b[1..]);
      LandsTakenB(a, b);
    } else if a != [] && b != [] {
      var n := Min(a[0].len, b[0].len);
      AfterLengths(a, n);
      AfterLengths(b, n);
      LandsEverywhere(After(a, n), After(b, n));
      LandsOverlap(a, b, n);
    } else {
      LandsNowhere(a, b);
    }
  }

  lemma LandsTakenA(a: seq<Op>, b: seq<Op>)
    requires Positive(a) && TakesA(a, b) && FollowLands(a[1..], b)
    ensures FollowLands(a, b)
  {
    ReadsTakenA(a, b);
  }

  lemma LandsTakenB(a: seq<Op>, b: seq<Op>)
    requires Positive(b) && !TakesA(a, b) && b != [] && b[0].Insert? && FollowLands(a, b[1..])
    ensures FollowLands(a, b)
  {
    ReadsTakenB(a, b);
  }

  lemma LandsOverlap(a: seq<Op>, b: seq<Op>, n: nat)
    requires Aligned(a, b, n) && n == Min(a[0].len, b[0].len) && FollowLands(After(a, n), After(b, n))
    ensures FollowLands(a, b)
  {
    var p := Consumed(After(b, n));
    AfterLengths(a, n);
    AfterLengths(b, n);
    OverlapLands(a, b, n, p);
  }

  lemma OverlapLands(a: seq<Op>, b: seq<Op>, n: nat, p: nat)
    requires Aligned(a, b, n) && n == Min(a[0].len, b[0].len)
    requires Consumed(RawFollow(After(a, n), After(b, n))) == Landing(After(a, n), p)
    ensures Consumed(RawFollow(a, b)) == Landing(a, p + n)
  {
    ReadsOverlap(a, b, n);
    LandingAfter(a, n, p);
  }

  lemma LandsNowhere(a: seq<Op>, b: seq<Op>)
    requires Positive(a) && Positive(b) && Consumed(b) <= Consumed(a)
    requires (a == [] || !a[0].Insert?) && (b == [] || !b[0].Insert?) && (a == [] || b == [])
    ensures FollowLands(a, b)
  {}

  lemma LandingAfter(ops: seq<Op>, n: nat, p: nat)
    requires Positive(ops) && ops != [] && !ops[0].Insert? && 0 < n <= OpLen(ops[0])
    ensures Landing(ops, p + n) == (if ops[0].Retain? then n else 0) + Landing(After(ops, n), p)
  {
    if n < OpLen(ops[0]) {
      assert After(ops, n)[1..] == ops[1..];
    }
  }

  /** At the end of the source a cursor lands at the end of the result. */
  lemma {:induction false} LandsAtEnd(ops: seq<Op>)
    requires Positive(ops)
    ensures Landing(ops, Consumed(ops)) == Produced(ops)
    decreases |ops|
  {
    if ops != [] {
      LandsAtEnd(ops[1..]);
    }
  }

  lemma RebasedLands(A: Changeset, B: Changeset)
    requires Valid(A) && Positive(B.ops)
    ensures var F := Rebased(A, B);
      && Positive(F.ops) && F.oldLen == A.newLen
      && Consumed(F.ops) == Landing(A.ops, Min(Consumed(B.ops), A.oldLen)) <= A.newLen
  {
    MergedMeaning(RawFollow(A.ops, B.ops));
    LandsInRange(A.ops, Min(Consumed(B.ops), A.oldLen));
    if Consumed(B.ops) <= A.oldLen {
      RawFollowLands(A.ops, B.ops);
    } else {
      RawFollowReads(A.ops, B.ops);
      LandsAtEnd(A.ops);
    }
  }

  /** A position carried through a history, the way a cursor is. */
  function Carry(hist: seq<Changeset>, p: nat): nat
    requires AllPositive(hist)
    decreases |hist|
  {
    if hist == [] then p else Carry(hist[1..], Landing(hist[0].ops, p))
  }

  /** What a changeset of any length reads once it has caught up. */
  lemma {:induction false} RebaseReads(text: Text, hist: seq<Changeset>, C: Changeset)
    requires Chained(text, hist) && Positive(C.ops) && hist != []
    ensures AllPositive(hist)
    ensures Rebase(hist, C).oldLen == |TextAfter(text, hist)|
    ensures Consumed(Rebase(hist, C).ops) == Carry(hist, Min(Consumed(C.ops), |text|))
    decreases |hist|
  {
    ChainedApplies(text, hist);
    RunLength(text, hist[0].ops);
    RebasedLands(hist[0], C);
    var next, R := Run(text, hist[0].ops), Rebased(hist[0], C);
    if hist[1..] != [] {
      RebaseReads(next, hist[1..], R);
    }
  }

  /** Which valid entries the loop accepts, for every length and every base revision. One that
      names the head revision, or a later one, must be as long as the head text. One with
      revisions to catch up over is cut to the text at its base, and is accepted exactly when
      the end of what is left of it, carried through those revisions like a cursor, lands at
      the end of the head text. */
  lemma AcceptsExact(init: Text, s: SnapshotData, e: Entry)
    requires Inv(init, s) && Admissible(e)
    ensures Runnable(s)
    ensures 0 <= e.baseRev < s.headRev ==>
      (Accepts(s, e) <==>
        && !Stale(s, e)
        && Carry(Missed(s, e.baseRev), Min(e.changeset.oldLen, |TextAt(init, s, e.baseRev)|)) == |s.headText|)
    ensures e.baseRev >= s.headRev ==> (Accepts(s, e) <==> !Stale(s, e) && e.changeset.oldLen == |s.headText|)
  {
    InvMeans(init, s);
    var C := CaughtUp(s, e);
    RebaseNewLen(Missed(s, e.baseRev), e.changeset);
    ApplyExact(s.headText, C);
    if 0 <= e.baseRev < s.headRev {
      var hist := Changes(s.revisionLog);
      ChainedPrefix(init, hist, e.baseRev);
      RebaseReads(TextAt(init, s, e.baseRev), hist[e.baseRev..], e.changeset);
    } else if e.baseRev >= s.headRev {
      assert Missed(s, e.baseRev) == [];
    }
  }

  /** No good submission is dropped: a fresh valid entry written for the text at its base
      revision is accepted. So is one written for a longer text, as soon as there is a revision
      to catch up over. */
  lemma GoodIsAccepted(init: Text, s: SnapshotData, e: Entry)
    requires Inv(init, s) && Admissible(e) && 0 <= e.baseRev <= s.headRev
    ensures Runnable(s)
    ensures !Stale(s, e) && e.changeset.oldLen == |TextAt(init, s, e.baseRev)| ==> Accepts(s, e)
    ensures !Stale(s, e) && e.changeset.oldLen > |TextAt(init, s, e.baseRev)| ==>
      (Accepts(s, e) <==> e.baseRev < s.headRev)
  {
    AcceptsExact(init, s, e);
    CarryFromBase(init, s, e.baseRev);
  }

  /** The end of a past text, carried to the head, lands at the end of the head text. */
  lemma CarryFromBase(init: Text, s: SnapshotData, r: nat)
    requires Inv(init, s) && r <= s.headRev
    ensures Runnable(s) && Carry(Missed(s, r), |TextAt(init, s, r)|) == |s.headText|
    ensures r == s.headRev ==> TextAt(init, s, r) == s.headText
  {
    InvMeans(init, s);
    var hist := Changes(s.revisionLog);
    ChainedPrefix(init, hist, r);
    CarryEnd(TextAt(init, s, r), hist[r..]);
    Units(hist);
  }

  lemma {:induction false} CarryEnd(text: Text, hist: seq<Changeset>)
    requires Chained(text, hist) && AllPositive(hist)
    ensures Carry(hist, |text|) == |TextAfter(text, hist)|
    decreases |hist|
  {
    if hist != [] {
      LandsAtEnd(hist[0].ops);
      RunLength(text, hist[0].ops);
      CarryEnd(Run(text, hist[0].ops), hist[1..]);
    }
  }

  /** A shorter entry that is accepted: "abc" has become "ab", and an insertion behind the
      second unit of a text of two units still names revision 0. */
  lemma ShorterIsAccepted(s: SnapshotData, e: Entry)
    requires s == SnapshotData([97, 98], 1, [Revision(0, Changeset(3, 2, [Retain(2), Delete(1)]), "a")], map["a" := 1])
    requires e == Entry("b", 1, 0, Changeset(2, 3, [Retain(2), Insert([120])]))
    ensures Inv([97, 98, 99], s) && Admissible(e) && e.changeset.oldLen < |TextAt([97, 98, 99], s, 0)|
    ensures Accepts(s, e)
  {
    var cut := s.revisionLog[0].changeset;
    assert Changes(s.revisionLog) == [cut];
    ChainedOne([97, 98, 99], cut);
    AcceptsExact([97, 98, 99], s, e);
    assert Carry([cut], 2) == Carry([], Landing(cut.ops, 2));
  }

  // ----- The ladder

  /** The history rebased over `C`, while `C` catches up with it. */
  function Ladder(hist: seq<Changeset>, C: Changeset): (r: seq<Changeset>)
    requires AllPositive(hist) && Positive(C.ops)
    ensures |r| == |hist|
    decreases |hist|
  {
    if hist == [] then []
    else
      MergedMeaning(RawFollow(hist[0].ops, C.ops));
      [Rebased(C, hist[0])] + Ladder(hist[1..], Rebased(hist[0], C))
  }

  /** Catching `C` up and applying it at the head gives the text reached by applying `C` at
      its base and then the history rebased over it, for a history of any length. */
  lemma {:induction false} LadderCloses(text: Text, hist: seq<Changeset>, C: Changeset)
    requires Chained(text, hist) && AllNormal(hist) && Normal(C) && C.oldLen == |text|
    ensures AllPositive(hist)
    ensures Valid(Rebase(hist, C)) && Rebase(hist, C).oldLen == |TextAfter(text, hist)|
    ensures Chained(Run(text, C.ops), Ladder(hist, C))
    ensures Run(TextAfter(text, hist), Rebase(hist, C).ops) == TextAfter(Run(text, C.ops), Ladder(hist, C))
    decreases |hist|
  {
    RebaseValid(text, hist, C);
    if hist != [] {
      var next := Run(text, hist[0].ops);
      LadderStep(text, hist[0], C);
      LadderCloses(next, hist[1..], Rebased(hist[0], C));
      assert Ladder(hist, C)[1..] == Ladder(hist[1..], Rebased(hist[0], C));
    }
  }

  /** One rung: a diamond. */
  lemma LadderStep(text: Text, h: Changeset, C: Changeset)
    requires Normal(h) && Normal(C) && h.oldLen == C.oldLen == |text|
    ensures Normal(Rebased(h, C)) && Rebased(h, C).oldLen == |Run(text, h.ops)|
    ensures Normal(Rebased(C, h)) && Rebased(C, h).oldLen == |Run(text, C.ops)|
    ensures Run(Run(text, h.ops), Rebased(h, C).ops) == Run(Run(text, C.ops), Rebased(C, h).ops)
  {
    FollowMerges(text, h, C);
    FollowMerges(text, C, h);
    DiamondCanonical(text, h, C);
  }

  /** The ladder at the state machine: the new head text is the old base text with the
      client's change applied first and the missed revisions rebased over it. */
  lemma AcceptedMerges(init: Text, s: SnapshotData, e: Entry)
    requires Inv(init, s) && AllNormal(Changes(s.revisionLog))
    requires Admissible(e) && Normal(e.changeset) && 0 <= e.baseRev <= s.headRev
    requires !Stale(s, e) && e.changeset.oldLen == |TextAt(init, s, e.baseRev)|
    ensures Runnable(s) && Accepts(s, e)
    ensures var mine := Run(TextAt(init, s, e.baseRev), e.changeset.ops);
      var theirs := Ladder(Missed(s, e.baseRev), e.changeset);
      Chained(mine, theirs) && Next(s, e).headText == TextAfter(mine, theirs)
  {
    InvMeans(init, s);
    GoodIsAccepted(init, s, e);
    var hist := Changes(s.revisionLog);
    ChainedPrefix(init, hist, e.baseRev);
    LadderCloses(TextAt(init, s, e.baseRev), hist[e.baseRev..], e.changeset);
    ApplyExact(s.headText, CaughtUp(s, e));
  }

  /** Resubmitting from a later base what has been caught up to it commits the same: the
      record, the text and the map. */
  lemma LaterBaseCommitsSame(init: Text, s: SnapshotData, e: Entry, later: nat)
    requires Inv(init, s) && Admissible(e) && 0 <= e.baseRev <= later <= s.headRev
    requires e.changeset.oldLen == |TextAt(init, s, e.baseRev)|
    ensures Runnable(s) && AllPositive(Changes(s.revisionLog)[e.baseRev..later])
    ensures var missed := Changes(s.revisionLog)[e.baseRev..later];
      var moved := e.(baseRev := later, changeset := Rebase(missed, e.changeset));
      && Admissible(moved) && moved.changeset.oldLen == |TextAt(init, s, later)|
      && Next(s, moved) == Next(s, e) && Result(s, moved) == Result(s, e)
  {
    InvMeans(init, s);
    var hist := Changes(s.revisionLog);
    ChainedTake(init, hist, e.baseRev);
    SplitRebase(init, hist, e.baseRev, later, e.changeset);
    NextDepends(s, e, e.(baseRev := later, changeset := Rebase(hist[e.baseRev..later], e.changeset)));
  }

  lemma SplitRebase(init: Text, hist: seq<Changeset>, r: nat, later: nat, C: Changeset)
    requires Chained(init, hist) && r <= later <= |hist| && Valid(C)
    requires Chained(init, hist[..r]) && C.oldLen == |TextAfter(init, hist[..r])|
    ensures AllPositive(hist) && Valid(Rebase(hist[r..later], C))
    ensures Chained(init, hist[..later]) && Rebase(hist[r..later], C).oldLen == |TextAfter(init, hist[..later])|
    ensures Rebase(hist[later..], Rebase(hist[r..later], C)) == Rebase(hist[r..], C)
  {
    ChainedApplies(init, hist);
    SplitHistory(init, hist, r, later);
    RebaseValid(TextAfter(init, hist[..r]), hist[r..later], C);
    RebaseConcat(hist[r..later], hist[later..], C);
  }

  lemma NextDepends(s: SnapshotData, e: Entry, f: Entry)
    requires Runnable(s) && Admissible(e) && Admissible(f)
    requires e.clientId == f.clientId && e.submissionId == f.submissionId && CaughtUp(s, e) == CaughtUp(s, f)
    requires e.baseRev >= 0 && f.baseRev >= 0
    ensures Next(s, e) == Next(s, f) && Result(s, e) == Result(s, f)
  {}

  lemma SplitSlice<T>(s: seq<T>, m: nat, n: nat)
    requires m <= n <= |s|
    ensures s[m..n] + s[n..] == s[m..]
  {}

  lemma SplitHistory(text: Text, hist: seq<Changeset>, r: nat, later: nat)
    requires Chained(text, hist) && r <= later <= |hist|
    ensures Chained(text, hist[..r]) && Chained(text, hist[..later])
    ensures Chained(TextAfter(text, hist[..r]), hist[r..later])
    ensures TextAfter(TextAfter(text, hist[..r]), hist[r..later]) == TextAfter(text, hist[..later])
    ensures hist[r..later] + hist[later..] == hist[r..]
  {
    ChainedTake(text, hist, later);
    ChainedPrefix(text, hist[..later], r);
    TakeTake(hist, r, later);
    SplitSlice(hist, r, later);
  }

  // ----- Runs of the machine

  predicate AllAdmissible(log: seq<Entry>) {
    forall i :: 0 <= i < |log| ==> Admissible(log[i])
  }

  function Replay(s: SnapshotData, log: seq<Entry>): (s': SnapshotData)
    requires Runnable(s) && AllAdmissible(log)
    ensures Runnable(s')
    decreases |log|
  {
    if log == [] then s else Replay(Next(s, log[0]), log[1..])
  }

  lemma {:induction false} ReplayInv(init: Text, s: SnapshotData, log: seq<Entry>)
    requires Inv(init, s) && AllAdmissible(log)
    ensures Runnable(s) && Inv(init, Replay(s, log))
    decreases |log|
  {
    InvMeans(init, s);
    if log != [] {
      NextInv(init, s, log[0]);
      ReplayInv(init, Next(s, log[0]), log[1..]);
    }
  }

  /** After any log of validated entries, whatever texts they were written for: folding
      `ApplyChangeset` over the revision log from the initial text gives the head text, the
      head revision counts the log, and every record validates. */
  lemma EveryLogFolds(init: Text, log: seq<Entry>)
    requires AllAdmissible(log)
    ensures var s := Replay(Initial(init), log);
      && ApplyAll(init, Changes(s.revisionLog)) == Done(s.headText)
      && s.headRev == |s.revisionLog|
      && forall i :: 0 <= i < |s.revisionLog| ==> Valid(s.revisionLog[i].changeset) && s.revisionLog[i].revNumber == i
  {
    ReplayInv(init, Initial(init), log);
    InvMeans(init, Replay(Initial(init), log));
  }

  /** Folding over the empty text instead, as the comment in internal/fsm/fsm.go:12 has it,
      gives the head text exactly when the machine was started from the empty text. */
  lemma FoldsFromEmpty(init: Text, s: SnapshotData)
    requires Inv(init, s)
    ensures ApplyAll([], Changes(s.revisionLog)) == Done(s.headText) <==> init == []
  {
    InvMeans(init, s);
    var hist := Changes(s.revisionLog);
    if hist != [] {
      ApplyExact([], hist[0]);
    }
  }

  /** What an admissible entry has become by the time it is applied never makes
      `ApplyChangeset` panic: a negative base revision is the only panic there is. */
  lemma CaughtUpNeverPanics(s: SnapshotData, e: Entry)
    requires Runnable(s) && Admissible(e)
    ensures !Apply(s.headText, CaughtUp(s, e)).Panicked?
  {
    RebaseNewLen(Missed(s, e.baseRev), e.changeset);
    ApplyExact(s.headText, CaughtUp(s, e));
  }

  /** Who authored the records of a log. */
  function Sources(log: seq<Revision>): (authors: seq<ClientId>)
    ensures |authors| == |log| && forall i :: 0 <= i < |log| ==> authors[i] == log[i].source
  {
    seq(|log|, i requires 0 <= i < |log| => log[i].source)
  }

  /** Whose entries are accepted along a log. */
  function AcceptedBy(s: SnapshotData, log: seq<Entry>): seq<ClientId>
    requires Runnable(s) && AllAdmissible(log)
    decreases |log|
  {
    if log == [] then []
    else (if Accepts(s, log[0]) then [log[0].clientId] else []) + AcceptedBy(Next(s, log[0]), log[1..])
  }

  /** Along every log exactly the accepted entries leave a record, in their order and under their
      author's name; what is refused or recognised leaves nothing. */
  lemma {:induction false} LogRecordsAccepted(s: SnapshotData, log: seq<Entry>)
    requires Runnable(s) && AllAdmissible(log)
    ensures Sources(Replay(s, log).revisionLog) == Sources(s.revisionLog) + AcceptedBy(s, log)
    decreases |log|
  {
    if log == [] {
      Units(Sources(s.revisionLog));
    } else {
      var e, next := log[0], Next(s, log[0]);
      LogRecordsAccepted(next, log[1..]);
      StepRecords(s, e);
      if Accepts(s, e) {
        Assoc(Sources(s.revisionLog), [e.clientId], AcceptedBy(next, log[1..]));
      } else {
        Units(AcceptedBy(next, log[1..]));
      }
    }
  }

  /** One entry: a step changes the state exactly when it accepts, and then it appends one record
      and moves one client's id; the callback is given that record. */
  lemma StepRecords(s: SnapshotData, e: Entry)
    requires Runnable(s) && Admissible(e)
    ensures Next(s, e) != s <==> Accepts(s, e)
    ensures Accepts(s, e) ==> (
      var s', n := Next(s, e), |s.revisionLog|;
      && |s'.revisionLog| == s'.headRev == n + 1 && s'.revisionLog[..n] == s.revisionLog
      && s'.revisionLog[n].source == e.clientId && s'.revisionLog[n].revNumber == n
      && Sources(s'.revisionLog) == Sources(s.revisionLog) + [e.clientId]
      && (forall c :: c in s'.clientLastSubmission <==> c == e.clientId || c in s.clientLastSubmission)
      && (forall c :: c in s'.clientLastSubmission ==>
            s'.clientLastSubmission[c] == (if c == e.clientId then e.submissionId else s.clientLastSubmission[c]))
      && Result(s, e) == Some(ApplyResult(s'.revisionLog[n].changeset, s'.headRev, s'.revisionLog[n].source, false)))
    ensures Stale(s, e) ==>
      exists C :: Result(s, e) == Some(ApplyResult(C, s.headRev, e.clientId, true))
    ensures !Stale(s, e) && !Accepts(s, e) ==> Result(s, e) == None
  {
    if Accepts(s, e) {
      assert Next(s, e).headRev == s.headRev + 1;
    }
  }

  /** Two logs one after the other. */
  lemma {:induction false} ReplayConcat(s: SnapshotData, p: seq<Entry>, q: seq<Entry>)
    requires Runnable(s) && AllAdmissible(p) && AllAdmissible(q)
    ensures AllAdmissible(p + q) && Replay(s, p + q) == Replay(Replay(s, p), q)
    decreases |p|
  {
    if p == [] {
      Units(q);
    } else {
      Uncons(p, q);
      ReplayConcat(Next(s, p[0]), p[1..], q);
    }
  }

  /** Raft hands a machine the committed entries one by one. */
  method Feed(sm: DocumentStateMachine, log: seq<Entry>)
    requires sm.Valid() && Runnable(sm.State()) && AllAdmissible(log)
    modifies sm.Owned()
    ensures sm.Valid() && sm.State() == Replay(old(sm.State()), log)
    ensures sm.clientLastSubmission == old(sm.clientLastSubmission)
    ensures sm.revisionLog == old(sm.revisionLog) || fresh(sm.revisionLog)
  {
    Units(log);
    for i := 0 to |log|
      invariant sm.Valid() && Runnable(sm.State())
      invariant Replay(sm.State(), log[i..]) == Replay(old(sm.State()), log)
      invariant sm.clientLastSubmission == old(sm.clientLastSubmission)
      invariant sm.revisionLog == old(sm.revisionLog) || fresh(sm.revisionLog)
    {
      assert log[i..][0] == log[i] && log[i..][1..] == log[i + 1..];
      var _, _ := sm.Apply(log[i]);
    }
  }

  /** What was copied out of a machine, a snapshot or the records for a reconnecting client,
      still holds what the machine held then, whatever is applied afterwards. */
  method CopiesOutlive(sm: DocumentStateMachine, fromRev: nat, later: seq<Entry>)
    returns (snap: FsmSnapshot, revs: array<Revision>)
    requires sm.Valid() && Runnable(sm.State()) && AllAdmissible(later)
    modifies sm.Owned()
    ensures snap.Contents() == old(sm.State()) && revs[..] == Since(old(sm.State()), fromRev)
    ensures fresh(snap.revisionLog) && fresh(snap.clientLastSubmission) && fresh(revs)
    ensures sm.Valid() && sm.State() == Replay(old(sm.State()), later)
    ensures sm.clientLastSubmission == old(sm.clientLastSubmission)
    ensures sm.revisionLog == old(sm.revisionLog) || fresh(sm.revisionLog)
    ensures {snap.revisionLog, snap.clientLastSubmission, revs} !! sm.Owned()
  {
    snap := sm.Snapshot();
    var panicked;
    revs, panicked := sm.RevisionsSince(fromRev);
    Feed(sm, later);
  }

  /** A machine restored from another's snapshot, in whatever state it was before, and fed the
      entries since ends in the other's state. */
  method RestoreCatchesUp(first: DocumentStateMachine, second: DocumentStateMachine, later: seq<Entry>)
    returns (snap: FsmSnapshot)
    requires first.Valid() && second.Valid() && first.Owned() !! second.Owned()
    requires Runnable(first.State()) && AllAdmissible(later)
    modifies first.Owned(), second.Owned()
    ensures snap.Contents() == old(first.State())
    ensures first.Valid() && first.State() == Replay(old(first.State()), later)
    ensures second.Valid() && second.State() == first.State()
    ensures first.Owned() !! second.Owned()
  {
    var revs;
    snap, revs := CopiesOutlive(first, 0, later);
    RestoreAndFeed(second, snap, later);
  }

  method RestoreAndFeed(sm: DocumentStateMachine, snap: FsmSnapshot, later: seq<Entry>)
    requires Runnable(snap.Contents()) && AllAdmissible(later)
    modifies sm
    ensures sm.Valid() && sm.State() == Replay(old(snap.Contents()), later)
    ensures fresh(sm.revisionLog) && fresh(sm.clientLastSubmission)
  {
    var data := snap.Persist();
    PersistRoundTrip(snap.Contents());
    sm.Restore(data);
    Feed(sm, later);
  }

  /** A snapshot taken after any prefix of a log, restored and given the rest, reaches the state
      of a full replay, on both machines. */
  method SnapshotReplays(init: Text, other: Text, p: seq<Entry>, q: seq<Entry>)
    returns (first: DocumentStateMachine, second: DocumentStateMachine)
    requires AllAdmissible(p) && AllAdmissible(q)
    ensures AllAdmissible(p + q) && first.Valid() && second.Valid() && first.Owned() !! second.Owned()
    ensures first.State() == second.State() == Replay(Initial(init), p + q)
  {
    ReplayConcat(Initial(init), p, q);
    first := new DocumentStateMachine(init);
    second := new DocumentStateMachine(other);
    Feed(first, p);
    var _ := RestoreCatchesUp(first, second, q);
  }

  /** The log only grows, so what a snapshot or a reader copied stays a prefix of it. */
  lemma {:induction false} LogGrows(s: SnapshotData, log: seq<Entry>)
    requires Runnable(s) && AllAdmissible(log)
    ensures s.revisionLog <= Replay(s, log).revisionLog
    decreases |log|
  {
    if log != [] {
      LogGrows(Next(s, log[0]), log[1..]);
    }
  }

  /** Folding the revisions since `r` over the text at `r` gives the head text. */
  lemma CatchUp(init: Text, s: SnapshotData, r: nat)
    requires Inv(init, s) && r <= s.headRev
    ensures ApplyAll(TextAt(init, s, r), Changes(Since(s, r))) == Done(s.headText)
  {
    var hist := Changes(s.revisionLog);
    ChainedPrefix(init, hist, r);
    ChainedApplies(TextAt(init, s, r), hist[r..]);
    assert Changes(Since(s, r)) == hist[r..];
  }

  // ----- Exactly once

  /** The ids under which a client's entries are accepted along a log. */
  function AcceptedIds(s: SnapshotData, log: seq<Entry>, c: ClientId): seq<int>
    requires Runnable(s) && AllAdmissible(log)
    decreases |log|
  {
    if log == [] then []
    else
      (if log[0].clientId == c && Accepts(s, log[0]) then [log[0].submissionId] else [])
      + AcceptedIds(Next(s, log[0]), log[1..], c)
  }

  predicate Increasing(ids: seq<int>) {
    forall i, j :: 0 <= i < j < |ids| ==> ids[i] < ids[j]
  }

  /** What accepting these ids, in this order, makes of a client's entry in the dedup map. */
  ghost predicate Records(before: map<ClientId, int>, ids: seq<int>, after: map<ClientId, int>, c: ClientId) {
    && Increasing(ids)
    && (c in before ==> forall i :: 0 <= i < |ids| ==> before[c] < ids[i])
    && (if ids == [] then (c in after <==> c in before) && (c in after ==> after[c] == before[c])
        else c in after && after[c] == ids[|ids| - 1])
  }

  lemma RecordsCons(before: map<ClientId, int>, id: int, ids: seq<int>, after: map<ClientId, int>, c: ClientId)
    requires c in before ==> before[c] < id
    requires Records(before[c := id], ids, after, c)
    ensures Records(before, [id] + ids, after, c)
  {
    var all := [id] + ids;
    assert forall i :: 0 < i < |all| ==> all[i] == ids[i - 1] && id < all[i];
    assert ids != [] ==> all[|all| - 1] == ids[|ids| - 1];
  }

  lemma RecordsSame(before: map<ClientId, int>, mid: map<ClientId, int>, ids: seq<int>, after: map<ClientId, int>,
                    c: ClientId)
    requires (c in mid <==> c in before) && (c in mid ==> mid[c] == before[c])
    requires Records(mid, ids, after, c)
    ensures Records(before, ids, after, c)
  {}

  /** The first entry of a log, if it is one of `c` that is accepted, and if not. */
  lemma AcceptedFirst(s: SnapshotData, log: seq<Entry>, c: ClientId) returns (hit: bool)
    requires Runnable(s) && AllAdmissible(log) && log != []
    ensures var before, mid, id := s.clientLastSubmission, Next(s, log[0]).clientLastSubmission, log[0].submissionId;
      var ids, rest := AcceptedIds(s, log, c), AcceptedIds(Next(s, log[0]), log[1..], c);
      if hit then ids == [id] + rest && mid == before[c := id] && (c in before ==> before[c] < id)
      else ids == rest && (c in mid <==> c in before) && (c in mid ==> mid[c] == before[c])
  {
    hit := log[0].clientId == c && Accepts(s, log[0]);
    Units(AcceptedIds(Next(s, log[0]), log[1..], c));
  }

  /** Along every log each client's accepted ids strictly increase, above what the map held
      before, and the map ends up at the last of them. */
  lemma {:induction false} AcceptedOnce(s: SnapshotData, log: seq<Entry>, c: ClientId)
    requires Runnable(s) && AllAdmissible(log)
    ensures Records(s.clientLastSubmission, AcceptedIds(s, log, c), Replay(s, log).clientLastSubmission, c)
    decreases |log|
  {
    if log != [] {
      var before, next := s.clientLastSubmission, Next(s, log[0]);
      var rest, after := AcceptedIds(next, log[1..], c), Replay(next, log[1..]).clientLastSubmission;
      var hit := AcceptedFirst(s, log, c);
      AcceptedOnce(next, log[1..], c);
      if hit {
        RecordsCons(before, log[0].submissionId, rest, after, c);
      } else {
        RecordsSame(before, next.clientLastSubmission, rest, after, c);
      }
    }
  }

  /** Once a submission was accepted or recognised as a duplicate, its id is stale for good. */
  lemma {:induction false} StaysStale(s: SnapshotData, e: Entry, log: seq<Entry>)
    requires Runnable(s) && AllAdmissible(log) && Stale(s, e)
    ensures Stale(Replay(s, log), e)
    decreases |log|
  {
    if log != [] {
      StaysStale(Next(s, log[0]), e, log[1..]);
    }
  }

  /** Sending a submission again under the same id, with any content and at any later point of
      the log, changes nothing: text, revision log and map stay as they were. */
  lemma ResubmissionInvisible(s: SnapshotData, p: seq<Entry>, e: Entry, q: seq<Entry>, again: Entry, r: seq<Entry>)
    requires Runnable(s) && AllAdmissible(p) && AllAdmissible(q) && AllAdmissible(r)
    requires Admissible(e) && Admissible(again)
    requires again.clientId == e.clientId && again.submissionId <= e.submissionId
    requires Result(Replay(s, p), e).Some?
    ensures AllAdmissible(p + [e] + q + [again] + r) && AllAdmissible(p + [e] + q + r)
    ensures Replay(s, p + [e] + q + [again] + r) == Replay(s, p + [e] + q + r)
  {
    ReplayConcat(s, p, [e]);
    assert [e][1..] == [];
    var s1 := Replay(s, p + [e]);
    assert s1 == Next(Replay(s, p), e);
    assert Stale(s1, again);
    StaysStale(s1, again, q);
    ReplayConcat(s, p + [e], q);
    var s2 := Replay(s, p + [e] + q);
    assert [again][1..] == [];
    ReplayConcat(s, p + [e] + q, [again]);
    ReplayConcat(s, p + [e] + q + [again], r);
    ReplayConcat(s, p + [e] + q, r);
  }
}
