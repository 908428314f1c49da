/** Runs in which the timer also sends a submission again while its ACK is outstanding
    (web/client.js:583-592). The server recognises the second copy, but its ACK carries no
    submission id (internal/server/websocket.go:81-83), so a client takes it for the ACK of
    whatever it awaits by then. */
module Resending {
  import opened Texts
  import opened Changesets
  import opened Application
  import opened NormalForms
  import opened Fsm
  import opened Client
  import opened Server
  import opened Protocol

  datatype Event = Step(action: Action) | Resend(c: ClientId)

  predicate Possible(sys: System, ev: Event) {
    match ev
    case Step(a) => Enabled(sys, a)
    case Resend(c) => c in sys.peers && sys.peers[c].client.waitingForAck
  }

  /** The same id again, with X and the revision as they are by now. The gate is in front of
      the log here too; a refusal changes nothing. */
  function Repeated(c: ClientId, p: Peer): Peer {
    if Valid(p.client.X) then p.(proposed := p.proposed + [EntryOf(c, Submitted(p.client))]) else p
  }

  function Occur(sys: System, ev: Event): (sys': System)
    requires Sane(sys) && Possible(sys, ev)
    ensures Sane(sys')
  {
    match ev
    case Step(a) => PerformSane(sys, a); Perform(sys, a)
    case Resend(c) => sys.(peers := sys.peers[c := Repeated(c, sys.peers[c])])
  }

  /** The next message of `c` is an ACK for a revision `c` already knows. */
  predicate RepeatedAck(sys: System, c: ClientId) {
    c in sys.peers && sys.peers[c].inbox != [] && sys.peers[c].inbox[0] == Ack(sys.peers[c].client.serverRev)
  }

  /** Such an ACK is delivered only while nothing is awaited. */
  predicate Calm(sys: System, ev: Event) {
    ev.Step? && ev.action.Deliver? && RepeatedAck(sys, ev.action.c) ==> !sys.peers[ev.action.c].client.waitingForAck
  }

  predicate Happens(sys: System, run: seq<Event>)
    requires Sane(sys)
    decreases |run|
  {
    run == [] || (Possible(sys, run[0]) && Happens(Occur(sys, run[0]), run[1..]))
  }

  function Outcome(sys: System, run: seq<Event>): (sys': System)
    requires Sane(sys) && Happens(sys, run)
    ensures Sane(sys')
    decreases |run|
  {
    if run == [] then sys else Outcome(Occur(sys, run[0]), run[1..])
  }

  predicate CalmRun(sys: System, run: seq<Event>)
    requires Sane(sys) && Happens(sys, run)
    decreases |run|
  {
    run == [] || (Calm(sys, run[0]) && CalmRun(Occur(sys, run[0]), run[1..]))
  }

  // ----- The same system without the repetitions

  function LastId(s: SnapshotData, c: ClientId): Option<int> {
    if c in s.clientLastSubmission then Some(s.clientLastSubmission[c]) else None
  }

  predicate Covers(last: Option<int>, id: int) {
    last.Some? && id <= last.value
  }

  /** `inbox` is `once` with ACKs thrown in, each for the revision known when it is reached. */
  predicate Notices(inbox: seq<Message>, once: seq<Message>, rev: int)
    decreases |inbox|
  {
    if inbox == [] then once == []
    else if inbox[0] == Ack(rev) then Notices(inbox[1..], once, rev)
    else once != [] && inbox[0] == once[0] && Notices(inbox[1..], once[1..], rev + 1)
  }

  /** `proposed` is `once` with entries thrown in whose id has been accepted when they are
      reached. */
  predicate Proposals(proposed: seq<Entry>, once: seq<Entry>, c: ClientId, last: Option<int>)
    decreases |proposed|
  {
    if proposed == [] then once == []
    else
      && proposed[0].clientId == c
      && if Covers(last, proposed[0].submissionId) then Proposals(proposed[1..], once, c, last)
         else
           && once != [] && proposed[0] == once[0]
           && Proposals(proposed[1..], once[1..], c, Some(proposed[0].submissionId))
  }

  /** The last id accepted once all of `once` is. */
  function EndId(once: seq<Entry>, last: Option<int>): Option<int> {
    if once == [] then last else Some(once[|once| - 1].submissionId)
  }

  predicate AlikePeer(s: SnapshotData, c: ClientId, p: Peer, q: Peer) {
    && p.client == q.client
    && Notices(p.inbox, q.inbox, q.client.serverRev)
    && Proposals(p.proposed, q.proposed, c, LastId(s, c))
  }

  /** `sys` is `once`, but for repeated entries and their ACKs on the way. */
  ghost predicate Alike(sys: System, once: System) {
    && sys.server == once.server && sys.stored == once.stored
    && (forall c :: c in sys.peers <==> c in once.peers)
    && forall c :: c in sys.peers ==> AlikePeer(sys.server, c, sys.peers[c], once.peers[c])
  }

  lemma {:induction false} NoticesMore(inbox: seq<Message>, once: seq<Message>, rev: int, m: Message)
    requires Notices(inbox, once, rev) && m != Ack(rev + |once|)
    ensures Notices(inbox + [m], once + [m], rev)
    decreases |inbox|
  {
    if inbox == [] {
      assert ([] + [m])[1..] == [];
    } else {
      Uncons(inbox, [m]);
      if inbox[0] == Ack(rev) {
        NoticesMore(inbox[1..], once, rev, m);
      } else {
        Uncons(once, [m]);
        NoticesMore(inbox[1..], once[1..], rev + 1, m);
      }
    }
  }

  lemma {:induction false} NoticesRepeat(inbox: seq<Message>, once: seq<Message>, rev: int)
    requires Notices(inbox, once, rev)
    ensures Notices(inbox + [Ack(rev + |once|)], once, rev)
    decreases |inbox|
  {
    var m := Ack(rev + |once|);
    if inbox == [] {
      assert ([] + [m])[1..] == [];
    } else {
      Uncons(inbox, [m]);
      if inbox[0] == Ack(rev) {
        NoticesRepeat(inbox[1..], once, rev);
      } else {
        NoticesRepeat(inbox[1..], once[1..], rev + 1);
      }
    }
  }

  lemma {:induction false} ProposalsMore(proposed: seq<Entry>, once: seq<Entry>, c: ClientId, last: Option<int>,
                                           e: Entry)
    requires Proposals(proposed, once, c, last) && e.clientId == c && !Covers(EndId(once, last), e.submissionId)
    ensures Proposals(proposed + [e], once + [e], c, last)
    decreases |proposed|
  {
    if proposed == [] {
      assert ([] + [e])[1..] == [];
    } else {
      Uncons(proposed, [e]);
      if Covers(last, proposed[0].submissionId) {
        ProposalsMore(proposed[1..], once, c, last, e);
      } else {
        Uncons(once, [e]);
        ProposalsMore(proposed[1..], once[1..], c, Some(proposed[0].submissionId), e);
      }
    }
  }

  lemma {:induction false} ProposalsRepeat(proposed: seq<Entry>, once: seq<Entry>, c: ClientId, last: Option<int>,
                                             e: Entry)
    requires Proposals(proposed, once, c, last) && e.clientId == c && Covers(EndId(once, last), e.submissionId)
    ensures Proposals(proposed + [e], once, c, last)
    decreases |proposed|
  {
    if proposed == [] {
      assert ([] + [e])[1..] == [];
    } else {
      Uncons(proposed, [e]);
      if Covers(last, proposed[0].submissionId) {
        ProposalsRepeat(proposed[1..], once, c, last, e);
      } else {
        ProposalsRepeat(proposed[1..], once[1..], c, Some(proposed[0].submissionId), e);
      }
    }
  }

  // ----- Steps of one client

  lemma OnePeerAlike(sys: System, once: System, c: ClientId, p: Peer, q: Peer)
    requires Alike(sys, once) && AlikePeer(sys.server, c, p, q)
    ensures Alike(sys.(peers := sys.peers[c := p]), once.(peers := once.peers[c := q]))
  {}

  lemma TickAlike(init: Text, s: SnapshotData, c: ClientId, p: Peer, q: Peer)
    requires Inv(init, s) && PeerOk(init, s, c, q) && SanePeer(p) && SanePeer(q) && AlikePeer(s, c, p, q)
    ensures AlikePeer(s, c, Ticked(c, p), Ticked(c, q))
  {
    if Submits(q.client) {
      var e := EntryOf(c, Submitted(AfterTick(q.client)));
      ProposalsMore(p.proposed, q.proposed, c, LastId(s, c), e);
    }
  }

  /** Whatever the client awaits has its current id, on its way to the log or accepted. */
  lemma RepeatAlike(init: Text, s: SnapshotData, c: ClientId, p: Peer, q: Peer)
    requires Inv(init, s) && PeerOk(init, s, c, q) && AlikePeer(s, c, p, q) && p.client.waitingForAck
    ensures AlikePeer(s, c, Repeated(c, p), q)
  {
    var e := EntryOf(c, Submitted(p.client));
    if q.proposed == [] {
      var j :| Landed(s, c, q.client, j);
    }
    ProposalsRepeat(p.proposed, q.proposed, c, LastId(s, c), e);
  }

  /** A repeated ACK that comes while nothing is awaited leaves the client as it was. */
  lemma RepeatedAckAlike(init: Text, s: SnapshotData, c: ClientId, p: Peer, q: Peer)
    requires Inv(init, s) && PeerOk(init, s, c, q) && SanePeer(p) && AlikePeer(s, c, p, q)
    requires p.inbox != [] && p.inbox[0] == Ack(p.client.serverRev) && !p.client.waitingForAck
    ensures AlikePeer(s, c, Received(p), q)
  {
    RepeatedAckExact(q.client);
  }

  lemma NoticeAlike(init: Text, s: SnapshotData, c: ClientId, p: Peer, q: Peer)
    requires Inv(init, s) && AllNormal(Hist(s)) && PeerOk(init, s, c, q) && SanePeer(p) && SanePeer(q)
    requires AlikePeer(s, c, p, q) && p.inbox != [] && p.inbox[0] != Ack(p.client.serverRev)
    ensures q.inbox != [] && AlikePeer(s, c, Received(p), Received(q))
  {
    DeliverAdvances(init, s, c, q);
  }

  // ----- A commit

  /** The next entry of `c` repeats one that was accepted. */
  predicate RepeatedEntry(sys: System, c: ClientId) {
    && c in sys.peers && sys.peers[c].proposed != []
    && Covers(LastId(sys.server, c), sys.peers[c].proposed[0].submissionId)
  }

  function Committed(sys: System, c: ClientId, e: Entry): System
    requires Sane(sys) && c in sys.peers && sys.peers[c].proposed != [] && Admissible(e)
  {
    sys.(server := Next(sys.server, e), peers := Told(sys.peers, c, Result(sys.server, e)))
  }

  lemma PerformsCommit(sys: System, c: ClientId)
    requires Sane(sys) && c in sys.peers && sys.peers[c].proposed != []
    ensures SanePeer(sys.peers[c]) && Enabled(sys, Commit(c))
    ensures Perform(sys, Commit(c)) == Committed(sys, c, sys.peers[c].proposed[0])
  {}

  /** A repeated entry: the state stays, and its author alone is told. */
  lemma RepeatedCommit(init: Text, sys: System, once: System, c: ClientId)
    requires Sane(sys) && Good(init, once) && Alike(sys, once) && RepeatedEntry(sys, c)
    ensures Admissible(sys.peers[c].proposed[0])
    ensures Alike(Committed(sys, c, sys.peers[c].proposed[0]), once)
  {
    var s, e := sys.server, sys.peers[c].proposed[0];
    assert SanePeer(sys.peers[c]) && Admissible(e);
    assert AlikePeer(s, c, sys.peers[c], once.peers[c]) && e.clientId == c;
    RepeatedNext(s, e);
    var r := Result(s, e);
    forall d | d in sys.peers
      ensures AlikePeer(s, d, Told(sys.peers, c, r)[d], once.peers[d])
    {
      assert PeerOk(init, s, d, once.peers[d]);
      RepeatedTold(s, c, d, sys.peers, once.peers[d], r.value);
    }
  }

  lemma RepeatedNext(s: SnapshotData, e: Entry)
    requires Runnable(s) && Admissible(e) && Covers(LastId(s, e.clientId), e.submissionId)
    ensures Next(s, e) == s
    ensures Result(s, e) == Some(ApplyResult(Changeset(0, 0, []), s.headRev, e.clientId, true))
  {
    assert Stale(s, e);
  }

  lemma RepeatedTold(s: SnapshotData, c: ClientId, d: ClientId, peers: map<ClientId, Peer>, q: Peer, r: ApplyResult)
    requires c in peers && peers[c].proposed != [] && d in peers && AlikePeer(s, d, peers[d], q)
    requires Covers(LastId(s, c), peers[c].proposed[0].submissionId)
    requires r.clientId == c && r.isDuplicate && r.newRev == s.headRev == q.client.serverRev + |q.inbox|
    ensures AlikePeer(s, d, Told(peers, c, Some(r))[d], q)
  {
    NoticesRepeat(peers[d].inbox, q.inbox, q.client.serverRev);
    Units(peers[d].inbox);
  }

  /** An entry that comes first: both systems commit it. */
  lemma FirstCommit(init: Text, sys: System, once: System, c: ClientId)
    requires Sane(sys) && Sane(once) && Good(init, once) && Alike(sys, once)
    requires c in sys.peers && sys.peers[c].proposed != [] && !RepeatedEntry(sys, c)
    ensures once.peers[c].proposed != [] && once.peers[c].proposed[0] == sys.peers[c].proposed[0]
    ensures Admissible(sys.peers[c].proposed[0])
    ensures Alike(Committed(sys, c, sys.peers[c].proposed[0]), Committed(once, c, sys.peers[c].proposed[0]))
  {
    var s, e := sys.server, sys.peers[c].proposed[0];
    assert AlikePeer(s, c, sys.peers[c], once.peers[c]);
    assert PeerOk(init, s, c, once.peers[c]) && SanePeer(once.peers[c]) && SanePeer(sys.peers[c]);
    CommitAccepts(init, s, c, once.peers[c]);
    NextExtends(s, e);
    var s', r := Next(s, e), Result(s, e);
    forall d | d in sys.peers
      ensures AlikePeer(s', d, Told(sys.peers, c, r)[d], Told(once.peers, c, r)[d])
    {
      assert PeerOk(init, s, d, once.peers[d]);
      FirstTold(s, e, c, d, sys.peers, once.peers, r.value);
    }
  }

  lemma FirstTold(s: SnapshotData, e: Entry, c: ClientId, d: ClientId, peers: map<ClientId, Peer>,
                  once: map<ClientId, Peer>, r: ApplyResult)
    requires Runnable(s) && Admissible(e) && Accepts(s, e) && e.clientId == c && !r.isDuplicate
    requires c in peers && peers[c].proposed != [] && peers[c].proposed[0] == e && d in peers
    requires c in once && once[c].proposed != [] && once[c].proposed[0] == e && d in once
    requires AlikePeer(s, d, peers[d], once[d]) && r.newRev == s.headRev + 1
    requires once[d].client.serverRev + |once[d].inbox| == s.headRev
    requires !Covers(LastId(s, c), e.submissionId)
    ensures AlikePeer(Next(s, e), d, Told(peers, c, Some(r))[d], Told(once, c, Some(r))[d])
  {
    var p, q := peers[d], once[d];
    NoticesMore(p.inbox, q.inbox, q.client.serverRev, Notice(r, d)[0]);
  }

  // ----- Every step, every run

  /** What a step does is what a step, or nothing, does to the system without the
      repetitions. */
  lemma EventAlike(init: Text, sys: System, once: System, ev: Event) returns (once': System)
    requires Sane(sys) && Sane(once) && Good(init, once) && Alike(sys, once)
    requires Possible(sys, ev) && Calm(sys, ev)
    ensures Sane(once') && Good(init, once') && Alike(Occur(sys, ev), once')
  {
    if ev.Resend? {
      once' := once;
      ResendAlike(init, sys, once, ev.c);
    } else {
      var a := ev.action;
      if a.Commit? && RepeatedEntry(sys, a.c) {
        once' := once;
        PerformsCommit(sys, a.c);
        RepeatedCommit(init, sys, once, a.c);
      } else if a.Deliver? && RepeatedAck(sys, a.c) {
        once' := once;
        RepeatedDelivery(init, sys, once, a.c);
      } else {
        ActionAlike(init, sys, once, a);
        PerformSane(once, a);
        StepGood(init, once, a);
        once' := Perform(once, a);
      }
    }
  }

  lemma ResendAlike(init: Text, sys: System, once: System, c: ClientId)
    requires Sane(sys) && Good(init, once) && Alike(sys, once) && Possible(sys, Resend(c))
    ensures Alike(Occur(sys, Resend(c)), once)
  {
    assert PeerOk(init, sys.server, c, once.peers[c]);
    RepeatAlike(init, sys.server, c, sys.peers[c], once.peers[c]);
    SamePeerAlike(sys, once, c, Repeated(c, sys.peers[c]));
  }

  lemma SamePeerAlike(sys: System, once: System, c: ClientId, p: Peer)
    requires Alike(sys, once) && c in once.peers && AlikePeer(sys.server, c, p, once.peers[c])
    ensures Alike(sys.(peers := sys.peers[c := p]), once)
  {}

  lemma RepeatedDelivery(init: Text, sys: System, once: System, c: ClientId)
    requires Sane(sys) && Good(init, once) && Alike(sys, once) && RepeatedAck(sys, c)
    requires !sys.peers[c].client.waitingForAck
    ensures Enabled(sys, Deliver(c)) && Alike(Perform(sys, Deliver(c)), once)
  {
    assert PeerOk(init, sys.server, c, once.peers[c]);
    RepeatedAckAlike(init, sys.server, c, sys.peers[c], once.peers[c]);
    SamePeerAlike(sys, once, c, Received(sys.peers[c]));
  }

  lemma ActionAlike(init: Text, sys: System, once: System, a: Action)
    requires Sane(sys) && Sane(once) && Good(init, once) && Alike(sys, once) && Enabled(sys, a)
    requires (a.Commit? ==> !RepeatedEntry(sys, a.c)) && (a.Deliver? ==> !RepeatedAck(sys, a.c))
    ensures Enabled(once, a) && Alike(Perform(sys, a), Perform(once, a))
  {
    var c := a.c;
    if a.Tick? || a.Deliver? {
      assert PeerOk(init, sys.server, c, once.peers[c]);
      TurnAlike(init, sys, once, a);
    } else if a.Commit? {
      FirstCommit(init, sys, once, c);
      PerformsCommit(sys, c);
      PerformsCommit(once, c);
    } else {
      PageAlike(sys, once, a);
    }
  }

  lemma PageAlike(sys: System, once: System, a: Action)
    requires Sane(sys) && Sane(once) && Alike(sys, once) && Enabled(sys, a) && (a.Join? || a.Leave? || a.Edit?)
    ensures Enabled(once, a) && Alike(Perform(sys, a), Perform(once, a))
  {
    match a
    case Join(c) =>
      OnePeerAlike(sys, once, c, Arrived(sys, c), Arrived(once, c));
    case Leave(c) =>
    case Edit(c, text, i, j) =>
      var p, q := sys.peers[c], once.peers[c];
      OnePeerAlike(sys, once, c, p.(client := p.client.(editor := text, selStart := i, selEnd := j)),
        q.(client := q.client.(editor := text, selStart := i, selEnd := j)));
  }

  lemma TurnAlike(init: Text, sys: System, once: System, a: Action)
    requires Sane(sys) && Sane(once) && Good(init, once) && Alike(sys, once) && Enabled(sys, a)
    requires a.Tick? || (a.Deliver? && !RepeatedAck(sys, a.c))
    requires PeerOk(init, sys.server, a.c, once.peers[a.c])
    ensures Enabled(once, a) && Alike(Perform(sys, a), Perform(once, a))
  {
    var c := a.c;
    if a.Tick? {
      TickAlike(init, sys.server, c, sys.peers[c], once.peers[c]);
      OnePeerAlike(sys, once, c, Ticked(c, sys.peers[c]), Ticked(c, once.peers[c]));
    } else {
      NoticeAlike(init, sys.server, c, sys.peers[c], once.peers[c]);
      OnePeerAlike(sys, once, c, Received(sys.peers[c]), Received(once.peers[c]));
    }
  }

  lemma {:induction false} RunAlike(init: Text, sys: System, once: System, run: seq<Event>) returns (once': System)
    requires Sane(sys) && Sane(once) && Good(init, once) && Alike(sys, once)
    requires Happens(sys, run) && CalmRun(sys, run)
    ensures Sane(once') && Good(init, once') && Alike(Outcome(sys, run), once')
    decreases |run|
  {
    once' := once;
    if run != [] {
      var next := EventAlike(init, sys, once, run[0]);
      once' := RunAlike(init, Occur(sys, run[0]), next, run[1..]);
    }
  }

  /** Safety of every run with submissions sent again at any time, as long as no repeated ACK
      meets a client that awaits another one: the server's log folds to its text, and every
      client's base text is the server's text at the client's revision. */
  lemma CalmRunsAreSafe(init: Text, run: seq<Event>)
    requires Happens(Start(init), run) && CalmRun(Start(init), run)
    ensures var sys := Outcome(Start(init), run);
      && Inv(init, sys.server)
      && ApplyAll(init, Hist(sys.server)) == Done(sys.server.headText)
      && forall c :: c in sys.peers ==> BaseOk(init, sys.server, sys.peers[c].client)
  {
    StartGood(init);
    var once := RunAlike(init, Start(init), Start(init), run);
    InvMeans(init, once.server);
    var sys := Outcome(Start(init), run);
    forall c | c in sys.peers
      ensures BaseOk(init, sys.server, sys.peers[c].client)
    {
      assert PeerOk(init, once.server, c, once.peers[c]);
    }
  }

  /** After every such run: with nothing on its way, nothing awaiting commit and no timer with
      anything to submit, every screen shows the head text at the head revision. */
  lemma CalmRunsConverge(init: Text, run: seq<Event>)
    requires Happens(Start(init), run) && CalmRun(Start(init), run) && Quiescent(Outcome(Start(init), run))
    ensures var sys := Outcome(Start(init), run);
      Converged(sys) && forall c :: c in sys.peers ==> sys.peers[c].client.serverRev == sys.server.headRev
  {
    StartGood(init);
    var sys := Outcome(Start(init), run);
    var once := RunAlike(init, Start(init), Start(init), run);
    forall c | c in once.peers
      ensures once.peers[c].inbox == [] && once.peers[c].proposed == [] && !Submits(once.peers[c].client)
    {
      assert AlikePeer(sys.server, c, sys.peers[c], once.peers[c]);
    }
    QuiescentConverged(init, once);
  }

  function Steps(run: seq<Action>): seq<Event> {
    if run == [] then [] else [Step(run[0])] + Steps(run[1..])
  }

  lemma PlainStepCalm(init: Text, sys: System, a: Action)
    requires Good(init, sys) && Enabled(sys, a)
    ensures Calm(sys, Step(a))
  {
    if a.Deliver? {
      assert PeerOk(init, sys.server, a.c, sys.peers[a.c]);
      assert sys.peers[a.c].inbox[0] == NoticeAt(sys.server, a.c, sys.peers[a.c].client.serverRev);
    }
  }

  /** A run of steps is calm and has the outcome of executing them. */
  ghost predicate Plain(sys: System, run: seq<Action>) {
    && Sane(sys) && Feasible(sys, run) && Happens(sys, Steps(run)) && CalmRun(sys, Steps(run))
    && Outcome(sys, Steps(run)) == Execute(sys, run)
  }

  lemma PlainCons(sys: System, run: seq<Action>)
    requires Sane(sys) && Feasible(sys, run) && run != []
    requires Sane(Perform(sys, run[0])) && Plain(Perform(sys, run[0]), run[1..]) && Calm(sys, Step(run[0]))
    ensures Plain(sys, run)
  {
    assert Steps(run)[1..] == Steps(run[1..]);
  }

  lemma {:induction false} PlainEverywhere(init: Text, sys: System, run: seq<Action>)
    requires Sane(sys) && Good(init, sys) && Feasible(sys, run)
    ensures Plain(sys, run)
    decreases |run|
  {
    if run != [] {
      PerformSane(sys, run[0]);
      StepGood(init, sys, run[0]);
      PlainStepCalm(init, sys, run[0]);
      PlainEverywhere(init, Perform(sys, run[0]), run[1..]);
      PlainCons(sys, run);
    }
  }

  /** Where nothing is sent twice every run is of this kind. */
  lemma PlainRunsAreCalm(init: Text, sys: System, run: seq<Action>)
    requires Sane(sys) && Good(init, sys) && Feasible(sys, run)
    ensures Happens(sys, Steps(run)) && CalmRun(sys, Steps(run)) && Outcome(sys, Steps(run)) == Execute(sys, run)
  {
    PlainEverywhere(init, sys, run);
  }

  // ----- A run that is not calm

  lemma {:induction false} HappensMore(sys: System, run: seq<Event>, ev: Event)
    requires Sane(sys) && Happens(sys, run) && Possible(Outcome(sys, run), ev)
    ensures Happens(sys, run + [ev]) && Outcome(sys, run + [ev]) == Occur(Outcome(sys, run), ev)
    decreases |run|
  {
    if run == [] {
      assert ([] + [ev])[1..] == [];
    } else {
      Uncons(run, [ev]);
      HappensMore(Occur(sys, run[0]), run[1..], ev);
    }
  }

  /** A system with one client. */
  predicate Alone(sys: System, server: SnapshotData, c: ClientId, p: Peer) {
    sys.server == server && sys.peers == map[c := p]
  }

  /** A client that awaits nothing. */
  ghost predicate Resting(x: ClientState, base: Text, rev: int, id: int) {
    && Coherent(x) && x.baseText == base && x.serverRev == rev && x.nextSubmissionId == id
    && !x.waitingForAck && x.X == Identity(|base|)
  }

  /** A client that awaits the ACK of a submission that leads from `base` to `text`. */
  ghost predicate Awaiting(x: ClientState, base: Text, rev: int, id: int, text: Text) {
    && Coherent(x) && x.baseText == base && x.serverRev == rev && x.nextSubmissionId == id
    && x.waitingForAck && AfterAX(x) == text && x.editor == text
  }

  lemma Types(sys: System, server: SnapshotData, c: ClientId, p: Peer, text: Text) returns (q: Peer)
    requires Sane(sys) && Alone(sys, server, c, p)
    requires Resting(p.client, p.client.baseText, p.client.serverRev, p.client.nextSubmissionId)
    ensures Possible(sys, Step(Edit(c, text, 0, 0))) && Alone(Occur(sys, Step(Edit(c, text, 0, 0))), server, c, q)
    ensures q.inbox == p.inbox && q.proposed == p.proposed && q.client.editor == text
    ensures Resting(q.client, p.client.baseText, p.client.serverRev, p.client.nextSubmissionId)
  {
    q := p.(client := p.client.(editor := text, selStart := 0, selEnd := 0));
  }

  lemma Sends(sys: System, server: SnapshotData, c: ClientId, p: Peer, base: Text, rev: int, id: int) returns (q: Peer)
    requires Sane(sys) && Alone(sys, server, c, p) && Resting(p.client, base, rev, id) && p.client.editor != base
    ensures Possible(sys, Step(Tick(c))) && Alone(Occur(sys, Step(Tick(c))), server, c, q)
    ensures q.inbox == p.inbox && Awaiting(q.client, base, rev, id + 1, p.client.editor)
    ensures q.proposed == p.proposed + [EntryOf(c, Submitted(q.client))]
  {
    assert sys.peers[c] == p;
    q := Ticked(c, p);
    ThenAwaiting(p.client, base, rev, id);
  }

  lemma ThenAwaiting(x: ClientState, base: Text, rev: int, id: int)
    requires Resting(x, base, rev, id) && x.editor != base
    ensures Submits(x) && Awaiting(AfterTick(x), base, rev, id + 1, x.editor)
  {
    IdentityRuns(base);
    TickSubmits(x);
  }

  /** The first of two equal entries is committed: it reaches the log as it was sent. */
  lemma CommitsFirst(sys: System, c: ClientId, p: Peer, e: Entry, text: Text) returns (server: SnapshotData)
    requires Sane(sys) && Alone(sys, Initial([]), c, p) && Awaiting(p.client, [], 0, 1, text)
    requires p.inbox == [] && p.proposed == [e, e] && e == EntryOf(c, Submitted(p.client))
    ensures Possible(sys, Step(Commit(c)))
    ensures Alone(Occur(sys, Step(Commit(c))), server, c, Peer(p.client, [Ack(1)], [e]))
    ensures Inv([], server) && server.headRev == 1 && server.headText == text && LastId(server, c) == Some(1)
  {
    var s, X := Initial([]), p.client.X;
    assert Changes(s.revisionLog) == [] && Missed(s, 0) == [] && Rebase([], X) == X;
    ApplyExact([], X);
    assert Accepts(s, e) && CaughtUp(s, e) == X;
    assert Inv([], s);
    NextInv([], s, e);
    NextExtends(s, e);
    server := Next(s, e);
    PerformsCommit(sys, c);
    OneTold(sys.peers, c, p, e, [e], Result(s, e).value);
  }

  lemma OneTold(peers: map<ClientId, Peer>, c: ClientId, p: Peer, e: Entry, rest: seq<Entry>, r: ApplyResult)
    requires peers == map[c := p] && p.inbox == [] && p.proposed == [e] + rest && r.clientId == c
    ensures Told(peers, c, Some(r)) == map[c := Peer(p.client, [Ack(r.newRev)], rest)]
  {
    assert ([e] + rest)[1..] == rest;
    assert [] + [Ack(r.newRev)] == [Ack(r.newRev)];
  }

  /** The second one, committed later, changes nothing and is acknowledged all the same. */
  lemma CommitsAgain(sys: System, server: SnapshotData, c: ClientId, p: Peer, e: Entry, rest: seq<Entry>)
    requires Sane(sys) && Alone(sys, server, c, p) && p.inbox == [] && p.proposed == [e] + rest
    requires e.clientId == c && Covers(LastId(server, c), e.submissionId) && server.headRev == 1
    ensures Possible(sys, Step(Commit(c)))
    ensures Alone(Occur(sys, Step(Commit(c))), server, c, Peer(p.client, [Ack(1)], rest))
  {
    PerformsCommit(sys, c);
    assert p.proposed[0] == e && SanePeer(p);
    RepeatedNext(server, e);
    OneTold(sys.peers, c, p, e, rest, Result(server, e).value);
  }

  /** Any ACK folds in what is awaited. */
  lemma TakesAck(sys: System, server: SnapshotData, c: ClientId, p: Peer, base: Text, rev: int, id: int, text: Text)
    returns (q: Peer)
    requires Sane(sys) && Alone(sys, server, c, p) && Awaiting(p.client, base, rev, id, text) && p.inbox == [Ack(1)]
    ensures Possible(sys, Step(Deliver(c))) && Alone(Occur(sys, Step(Deliver(c))), server, c, q)
    ensures Resting(q.client, text, 1, id) && q.client.editor == text && q.inbox == [] && q.proposed == p.proposed
  {
    assert sys.peers[c] == p;
    q := Received(p);
    ThenResting(p.client, base, rev, id, text);
  }

  lemma ThenResting(x: ClientState, base: Text, rev: int, id: int, text: Text)
    requires Awaiting(x, base, rev, id, text)
    ensures Ready(x) && Resting(OnAck(x, 1), text, 1, id) && OnAck(x, 1).editor == text
  {
    AckFolds(x, 1);
  }

  lemma {:induction false} NotCalm(sys: System, run: seq<Event>, ev: Event)
    requires Sane(sys) && Happens(sys, run) && Possible(Outcome(sys, run), ev) && !Calm(Outcome(sys, run), ev)
    ensures Happens(sys, run + [ev]) && !CalmRun(sys, run + [ev])
    decreases |run|
  {
    HappensMore(sys, run, ev);
    if run == [] {
      assert [] + [ev] == [ev];
    } else {
      Uncons(run, [ev]);
      NotCalm(Occur(sys, run[0]), run[1..], ev);
    }
  }

  lemma Joins(c: ClientId) returns (p: Peer)
    ensures Possible(Start([]), Step(Join(c))) && Alone(Occur(Start([]), Step(Join(c))), Initial([]), c, p)
    ensures Resting(p.client, [], 0, 0) && p.inbox == [] && p.proposed == []
  {
    p := Arrived(Start([]), c);
    JoinedCoherent([], 0, 0);
  }

  lemma HappensOne(sys: System, ev: Event)
    requires Sane(sys) && Possible(sys, ev)
    ensures Happens(sys, [ev]) && Outcome(sys, [ev]) == Occur(sys, ev)
  {
    HappensMore(sys, [], ev);
    assert [] + [ev] == [ev];
  }

  /** A first page joins, types `text` and sends it. */
  lemma SentOnce(c: ClientId, text: Text) returns (run: seq<Event>, p: Peer)
    requires text != []
    ensures Happens(Start([]), run) && Alone(Outcome(Start([]), run), Initial([]), c, p)
    ensures Awaiting(p.client, [], 0, 1, text)
    ensures p.inbox == [] && p.proposed == [EntryOf(c, Submitted(p.client))]
  {
    var start, edit := Start([]), Step(Edit(c, text, 0, 0));
    var p0 := Joins(c);
    HappensOne(start, Step(Join(c)));
    run := [Step(Join(c))];
    var p1 := Types(Outcome(start, run), Initial([]), c, p0, text);
    HappensMore(start, run, edit);
    run := run + [edit];
    p := Sends(Outcome(start, run), Initial([]), c, p1, [], 0, 0);
    HappensMore(start, run, Step(Tick(c)));
    run := run + [Step(Tick(c))];
  }

  /** It sends the text again, and both copies are on their way. */
  lemma SentTwice(c: ClientId, text: Text) returns (run: seq<Event>, p: Peer, e: Entry)
    requires text != []
    ensures Happens(Start([]), run) && Alone(Outcome(Start([]), run), Initial([]), c, p)
    ensures Awaiting(p.client, [], 0, 1, text)
    ensures p.inbox == [] && p.proposed == [e, e] && e == EntryOf(c, Submitted(p.client))
  {
    var q;
    run, q := SentOnce(c, text);
    e := EntryOf(c, Submitted(q.client));
    p := Repeated(c, q);
    assert p.proposed == [e, e];
    HappensMore(Start([]), run, Resend(c));
    run := run + [Resend(c)];
  }

  /** From there the first copy is committed and acknowledged. */
  lemma FirstAcked(c: ClientId, text: Text) returns (run: seq<Event>, server: SnapshotData, p: Peer, e: Entry)
    requires text != []
    ensures Happens(Start([]), run) && Alone(Outcome(Start([]), run), server, c, p)
    ensures Inv([], server) && server.headRev == 1 && server.headText == text && LastId(server, c) == Some(1)
    ensures Resting(p.client, text, 1, 1) && p.client.editor == text
    ensures p.inbox == [] && p.proposed == [e] && e.clientId == c && e.submissionId == 1
  {
    var start, q := Start([]), Peer(Joined([], 0, 0), [], []);
    run, q, e := SentTwice(c, text);
    var s1 := Outcome(start, run);
    server := CommitsFirst(s1, c, q, e, text);
    HappensMore(start, run, Step(Commit(c)));
    run := run + [Step(Commit(c))];
    var s2 := Outcome(start, run);
    p := TakesAck(s2, server, c, Peer(q.client, [Ack(1)], [e]), [], 0, 1, text);
    HappensMore(start, run, Step(Deliver(c)));
    run := run + [Step(Deliver(c))];
  }

  /** The user goes on typing, that is sent, and only then the second copy is committed. */
  lemma AckedTwice(c: ClientId, t1: Text, t2: Text) returns (run: seq<Event>, server: SnapshotData, p: Peer)
    requires t1 != [] && t2 != t1
    ensures Happens(Start([]), run) && Alone(Outcome(Start([]), run), server, c, p)
    ensures Inv([], server) && server.headRev == 1 && server.headText == t1
    ensures Awaiting(p.client, t1, 1, 2, t2) && p.inbox == [Ack(1)]
  {
    var start, e, q := Start([]), Entry(c, 0, 0, Identity(0)), Peer(Joined([], 0, 0), [], []);
    run, server, q, e := FirstAcked(c, t1);
    var s1 := Outcome(start, run);
    var q1 := Types(s1, server, c, q, t2);
    HappensMore(start, run, Step(Edit(c, t2, 0, 0)));
    run := run + [Step(Edit(c, t2, 0, 0))];
    var s2 := Outcome(start, run);
    var q2 := Sends(s2, server, c, q1, t1, 1, 1);
    HappensMore(start, run, Step(Tick(c)));
    run := run + [Step(Tick(c))];
    var s3 := Outcome(start, run);
    var rest := [EntryOf(c, Submitted(q2.client))];
    CommitsAgain(s3, server, c, q2, e, rest);
    HappensMore(start, run, Step(Commit(c)));
    run := run + [Step(Commit(c))];
    p := Peer(q2.client, [Ack(1)], rest);
  }

  /** When a repeated ACK comes while another submission is awaited, the client takes it for
      that submission's: from then on its base text is one the server never had at that
      revision. For any text `t1` typed first and sent twice, and any other `t2` typed once its
      ACK is in. */
  lemma RepeatedAckBreaks(c: ClientId, t1: Text, t2: Text) returns (run: seq<Event>)
    requires t1 != [] && t2 != t1
    ensures Happens(Start([]), run) && !CalmRun(Start([]), run) && c in Outcome(Start([]), run).peers
    ensures var sys := Outcome(Start([]), run);
      var x := sys.peers[c].client;
      && Inv([], sys.server) && x.serverRev == sys.server.headRev == 1
      && sys.server.headText == t1 && x.baseText == t2 && !x.waitingForAck
  {
    var server, p := Initial([]), Peer(Joined([], 0, 0), [], []);
    run, server, p := AckedTwice(c, t1, t2);
    var sys := Outcome(Start([]), run);
    var q := TakesAck(sys, server, c, p, t1, 1, 2, t2);
    HappensMore(Start([]), run, Step(Deliver(c)));
    NotCalm(Start([]), run, Step(Deliver(c)));
    run := run + [Step(Deliver(c))];
  }
}
