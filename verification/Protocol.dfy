/** The whole system as a state machine: one replicated log, any number of browsers, and the
    messages between them. Delivery is in order and without loss; a client joins in one step
    and may leave and join again; a submission is sent once (Resending.dfy adds the others). */
module Protocol {
  import opened Texts
  import opened Changesets
  import opened Application
  import opened Follow
  import opened NormalForms
  import opened Diff
  import opened Fsm
  import opened Client
  import opened Server

  /** A browser, the server's messages on their way to it, and its proposed entries that the
      log has not committed yet. */
  datatype Peer = Peer(client: ClientState, inbox: seq<Message>, proposed: seq<Entry>)

  /** `stored` holds the submission counters that browsers without an open page keep in local
      storage. While a page is open the stored counter is the one in its state. */
  datatype System = System(server: SnapshotData, peers: map<ClientId, Peer>, stored: map<ClientId, int>)

  datatype Action =
    | Join(c: ClientId)
    | Leave(c: ClientId)
    | Edit(c: ClientId, text: Text, selStart: nat, selEnd: nat)
    | Tick(c: ClientId)
    | Commit(c: ClientId)
    | Deliver(c: ClientId)

  /** Enough to call every handler. */
  predicate SanePeer(p: Peer) {
    && Ready(p.client)
    && (forall i :: 0 <= i < |p.inbox| && p.inbox[i].Broadcast? ==> Positive(p.inbox[i].changeset.ops))
    && AllAdmissible(p.proposed)
    && p.client.serverRev >= 0
    && (forall i :: 0 <= i < |p.inbox| && !p.inbox[i].Refused? ==> p.inbox[i].newRev >= 0)
  }

  predicate Sane(sys: System) {
    && Runnable(sys.server)
    && forall c :: c in sys.peers ==> SanePeer(sys.peers[c])
  }

  predicate Enabled(sys: System, a: Action) {
    match a
    case Join(c) => c !in sys.peers
    case Leave(c) => c in sys.peers && sys.peers[c].proposed == []
    case Edit(c, text, i, j) => c in sys.peers && i <= j <= |text|
    case Tick(c) => c in sys.peers
    case Commit(c) => c in sys.peers && sys.peers[c].proposed != []
    case Deliver(c) => c in sys.peers && sys.peers[c].inbox != []
  }

  /** The timer, and the proposed entry its message becomes. What the timer submits is valid, so
      the gate lets it pass. */
  function Ticked(c: ClientId, p: Peer): (p': Peer)
    requires SanePeer(p)
    ensures SanePeer(p')
  {
    var client := AfterTick(p.client);
    if !Submits(p.client) then p
    else Peer(client, p.inbox, p.proposed + [EntryOf(c, Submitted(client))])
  }

  function Received(p: Peer): Peer
    requires SanePeer(p) && p.inbox != []
  {
    var client := match p.inbox[0]
      case Ack(newRev) => OnAck(p.client, newRev)
      case Broadcast(B, newRev) => OnBroadcast(p.client, B, newRev)
      case Refused(_) => p.client;
    Peer(client, p.inbox[1..], p.proposed)
  }

  /** The peers once the head of `c`'s proposed entries is committed with result `r`. */
  function Told(peers: map<ClientId, Peer>, c: ClientId, r: Option<ApplyResult>): map<ClientId, Peer>
    requires c in peers && peers[c].proposed != []
  {
    map d | d in peers :: Peer(
      peers[d].client,
      if r.Some? then peers[d].inbox + Notice(r.value, d) else peers[d].inbox,
      if d == c then peers[d].proposed[1..] else peers[d].proposed)
  }

  /** A page that connects for the first time; its counter is the stored one, or zero. */
  function Arrived(sys: System, c: ClientId): Peer {
    var id := if c in sys.stored then sys.stored[c] else 0;
    Peer(Joined(sys.server.headText, sys.server.headRev, id), [], [])
  }

  function Perform(sys: System, a: Action): System
    requires Sane(sys) && Enabled(sys, a)
  {
    match a
    case Join(c) =>
      sys.(peers := sys.peers[c := Arrived(sys, c)])
    case Leave(c) =>
      sys.(peers := sys.peers - {c}, stored := sys.stored[c := sys.peers[c].client.nextSubmissionId])
    case Edit(c, text, i, j) =>
      var client := sys.peers[c].client.(editor := text, selStart := i, selEnd := j);
      sys.(peers := sys.peers[c := sys.peers[c].(client := client)])
    case Tick(c) => sys.(peers := sys.peers[c := Ticked(c, sys.peers[c])])
    case Commit(c) =>
      var e := sys.peers[c].proposed[0];
      sys.(server := Next(sys.server, e), peers := Told(sys.peers, c, Result(sys.server, e)))
    case Deliver(c) => sys.(peers := sys.peers[c := Received(sys.peers[c])])
  }

  lemma ReceivedSane(p: Peer)
    requires SanePeer(p) && p.inbox != []
    ensures SanePeer(Received(p))
  {
    var m := p.inbox[0];
    assert forall i :: 0 <= i < |p.inbox[1..]| ==> p.inbox[1..][i] == p.inbox[i + 1];
  }

  lemma ToldSane(sys: System, c: ClientId)
    requires Sane(sys) && Enabled(sys, Commit(c))
    ensures Sane(Perform(sys, Commit(c)))
  {
    var r := Result(sys.server, sys.peers[c].proposed[0]);
    forall d | d in sys.peers
      ensures SanePeer(Told(sys.peers, c, r)[d])
    {
      ToldOneSane(sys.peers, c, r, d);
    }
  }

  lemma ToldOneSane(peers: map<ClientId, Peer>, c: ClientId, r: Option<ApplyResult>, d: ClientId)
    requires c in peers && peers[c].proposed != [] && d in peers && SanePeer(peers[d])
    requires r.Some? ==> r.value.newRev >= 0 && (r.value.isDuplicate || Positive(r.value.cPrime.ops))
    ensures SanePeer(Told(peers, c, r)[d])
  {
    var more := if r.Some? then Notice(r.value, d) else [];
    ToldPeerSane(peers[d], more, d == c);
    Units(peers[d].inbox);
  }

  lemma ToldPeerSane(p: Peer, more: seq<Message>, author: bool)
    requires SanePeer(p) && (author ==> p.proposed != [])
    requires forall i :: 0 <= i < |more| && more[i].Broadcast? ==> Positive(more[i].changeset.ops)
    requires forall i :: 0 <= i < |more| && !more[i].Refused? ==> more[i].newRev >= 0
    ensures SanePeer(Peer(p.client, p.inbox + more, if author then p.proposed[1..] else p.proposed))
  {}

  /** Every enabled action can be performed and leads to a state where all handlers can run. */
  lemma PerformSane(sys: System, a: Action)
    requires Sane(sys) && Enabled(sys, a)
    ensures Sane(Perform(sys, a))
  {
    match a
    case Join(c) =>
    case Leave(c) =>
    case Edit(c, text, i, j) =>
    case Tick(c) =>
    case Commit(c) => ToldSane(sys, c);
    case Deliver(c) => ReceivedSane(sys.peers[c]);
  }

  predicate Feasible(sys: System, run: seq<Action>)
    requires Sane(sys)
    decreases |run|
  {
    run == [] ||
    (Enabled(sys, run[0]) && (PerformSane(sys, run[0]); Feasible(Perform(sys, run[0]), run[1..])))
  }

  function Execute(sys: System, run: seq<Action>): (sys': System)
    requires Sane(sys) && Feasible(sys, run)
    ensures Sane(sys')
    decreases |run|
  {
    if run == [] then sys
    else
      PerformSane(sys, run[0]);
      Execute(Perform(sys, run[0]), run[1..])
  }

  function Start(init: Text): (sys: System)
    ensures Sane(sys)
  {
    System(Initial(init), map[], map[])
  }

  // ----- The invariant of all runs

  /** No revision from `r` on was authored by `c`. */
  ghost predicate NoneOwn(s: SnapshotData, c: ClientId, r: int) {
    forall i :: r <= i < |s.revisionLog| && 0 <= i ==> s.revisionLog[i].source != c
  }

  /** The message by which `c` learns of revision `i`. */
  function NoticeAt(s: SnapshotData, c: ClientId, i: nat): Message
    requires i < |s.revisionLog|
  {
    if s.revisionLog[i].source == c then Ack(i + 1) else Broadcast(s.revisionLog[i].changeset, i + 1)
  }

  /** The inbox holds exactly the notices of the revisions the client has not seen. */
  ghost predicate InboxOk(s: SnapshotData, c: ClientId, p: Peer) {
    && p.client.serverRev >= 0
    && p.client.serverRev + |p.inbox| == |s.revisionLog|
    && forall i :: 0 <= i < |p.inbox| ==> p.inbox[i] == NoticeAt(s, c, p.client.serverRev + i)
  }

  /** The base text is the server's text at the client's revision. */
  ghost predicate BaseOk(init: Text, s: SnapshotData, x: ClientState)
    requires Inv(init, s)
  {
    && Coherent(x)
    && 0 <= x.serverRev <= s.headRev
    && x.baseText == TextAt(init, s, x.serverRev)
  }

  function Hist(s: SnapshotData): seq<Changeset> {
    Changes(s.revisionLog)
  }

  /** X is the proposed changeset caught up over what the client has seen since. */
  ghost predicate Carried(hist: seq<Changeset>, x: ClientState, e: Entry) {
    && 0 <= e.baseRev <= x.serverRev <= |hist|
    && Positive(e.changeset.ops) && AllPositive(hist[e.baseRev..x.serverRev])
    && x.X == Rebase(hist[e.baseRev..x.serverRev], e.changeset)
  }

  /** X awaits its commit: it is the proposed changeset caught up over what the client has
      seen since, and the entry is fresh. */
  ghost predicate Flying(init: Text, s: SnapshotData, c: ClientId, x: ClientState, e: Entry)
    requires Inv(init, s) && x.serverRev <= s.headRev
  {
    && e.clientId == c && e.submissionId == x.nextSubmissionId && !Stale(s, e)
    && Carried(Hist(s), x, e)
    && Normal(e.changeset) && e.changeset.oldLen == |TextAt(init, s, e.baseRev)|
    && NoneOwn(s, c, x.serverRev)
  }

  /** X was committed as revision `j`, whose notice is still on its way: caught up to there, X
      is the record op for op. No later id of the client was accepted. */
  ghost predicate Landed(s: SnapshotData, c: ClientId, x: ClientState, j: int) {
    && 0 <= x.serverRev <= j < |s.revisionLog|
    && s.revisionLog[j].source == c
    && c in s.clientLastSubmission && s.clientLastSubmission[c] == x.nextSubmissionId
    && (forall i :: x.serverRev <= i < |s.revisionLog| && i != j ==> s.revisionLog[i].source != c)
    && AllPositive(Hist(s)[x.serverRev..j]) && Positive(x.X.ops)
    && s.revisionLog[j].changeset == Rebase(Hist(s)[x.serverRev..j], x.X)
  }

  ghost predicate PendingOk(init: Text, s: SnapshotData, c: ClientId, p: Peer)
    requires Inv(init, s) && BaseOk(init, s, p.client)
  {
    var x := p.client;
    if !x.waitingForAck then p.proposed == [] && x.X == Identity(|x.baseText|) && NoneOwn(s, c, x.serverRev)
    else if p.proposed != [] then |p.proposed| == 1 && Flying(init, s, c, x, p.proposed[0])
    else exists j :: Landed(s, c, x, j)
  }

  ghost predicate PeerOk(init: Text, s: SnapshotData, c: ClientId, p: Peer)
    requires Inv(init, s)
  {
    && BaseOk(init, s, p.client)
    && InboxOk(s, c, p)
    && (c in s.clientLastSubmission ==> s.clientLastSubmission[c] <= p.client.nextSubmissionId)
    && PendingOk(init, s, c, p)
  }

  /** The counter of a closed page covers what was accepted from it. */
  ghost predicate StoreOk(sys: System) {
    forall c :: c in sys.server.clientLastSubmission && c !in sys.peers ==>
      c in sys.stored && sys.server.clientLastSubmission[c] <= sys.stored[c]
  }

  ghost predicate Good(init: Text, sys: System) {
    && Inv(init, sys.server) && AllNormal(Hist(sys.server)) && StoreOk(sys)
    && forall c :: c in sys.peers ==> PeerOk(init, sys.server, c, sys.peers[c])
  }

  lemma StartGood(init: Text)
    ensures Good(init, Start(init))
  {}

  // ----- Steps of one client

  lemma EditOk(init: Text, s: SnapshotData, c: ClientId, p: Peer, text: Text, i: nat, j: nat)
    requires Inv(init, s) && PeerOk(init, s, c, p) && i <= j <= |text|
    ensures PeerOk(init, s, c, p.(client := p.client.(editor := text, selStart := i, selEnd := j)))
  {
    var q := p.(client := p.client.(editor := text, selStart := i, selEnd := j));
    assert q.client.X == p.client.X;
    if p.client.waitingForAck && p.proposed == [] {
      var k :| Landed(s, c, p.client, k);
      assert Landed(s, c, q.client, k);
    }
  }

  lemma JoinOk(init: Text, sys: System, c: ClientId)
    requires Good(init, sys) && c !in sys.peers
    ensures PeerOk(init, sys.server, c, Arrived(sys, c))
  {
    var s := sys.server;
    JoinedCoherent(s.headText, s.headRev, Arrived(sys, c).client.nextSubmissionId);
    ChainedPrefix(init, Hist(s), s.headRev);
  }

  /** A page closed with nothing of its own under way leaves its counter behind. */
  lemma LeaveOk(init: Text, sys: System, c: ClientId)
    requires Sane(sys) && Good(init, sys) && Enabled(sys, Leave(c))
    ensures Good(init, Perform(sys, Leave(c)))
  {
    assert PeerOk(init, sys.server, c, sys.peers[c]);
  }

  lemma TickOk(init: Text, s: SnapshotData, c: ClientId, p: Peer)
    requires Inv(init, s) && PeerOk(init, s, c, p) && SanePeer(p)
    ensures PeerOk(init, s, c, Ticked(c, p))
  {
    TickSubmits(p.client);
    if Submits(p.client) {
      var x := AfterTick(p.client);
      BrowserRoundTrip(AfterAX(p.client), p.client.editor);
      IdentityRuns(p.client.baseText);
      SubmittedOk(init, s, c, p, x, EntryOf(c, Submitted(x)));
    }
  }

  /** A client that had nothing under way, once it has submitted. */
  lemma SubmittedOk(init: Text, s: SnapshotData, c: ClientId, p: Peer, x: ClientState, e: Entry)
    requires Inv(init, s) && PeerOk(init, s, c, p) && !p.client.waitingForAck
    requires Coherent(x) && x.waitingForAck && x.serverRev == p.client.serverRev && x.baseText == p.client.baseText
    requires x.nextSubmissionId == p.client.nextSubmissionId + 1 && e == EntryOf(c, Submitted(x))
    ensures PeerOk(init, s, c, Peer(x, p.inbox, p.proposed + [e]))
  {
    TakesOff(init, s, c, x, e);
  }

  /** What has just been submitted is under way. */
  lemma TakesOff(init: Text, s: SnapshotData, c: ClientId, x: ClientState, e: Entry)
    requires Inv(init, s) && BaseOk(init, s, x) && NoneOwn(s, c, x.serverRev)
    requires c in s.clientLastSubmission ==> s.clientLastSubmission[c] < x.nextSubmissionId
    requires e == EntryOf(c, Submitted(x))
    ensures Flying(init, s, c, x, e)
  {
    assert Hist(s)[e.baseRev..x.serverRev] == [];
  }

  /** The next revision in a client's future, and what is left after it. */
  lemma NextRevision(init: Text, s: SnapshotData, r: nat)
    requires Inv(init, s) && AllNormal(Hist(s)) && r < s.headRev
    ensures Normal(Hist(s)[r]) && Hist(s)[r].oldLen == |TextAt(init, s, r)|
    ensures TextAt(init, s, r + 1) == Run(TextAt(init, s, r), Hist(s)[r].ops)
  {
    var hist := Hist(s);
    ChainedPrefix(init, hist, r);
    ChainedTake(init, hist, r + 1);
    assert hist[..r + 1] == hist[..r] + [hist[r]];
    ChainedConcat(init, hist[..r], [hist[r]]);
    assert [hist[r]][1..] == [];
  }

  lemma InboxTail(s: SnapshotData, c: ClientId, p: Peer, x: ClientState)
    requires InboxOk(s, c, p) && p.inbox != [] && x.serverRev == p.client.serverRev + 1
    ensures InboxOk(s, c, Peer(x, p.inbox[1..], p.proposed))
    ensures p.inbox[0] == NoticeAt(s, c, p.client.serverRev)
  {}

  /** A stretch of history split at its first revision, and at its last. */
  lemma RebaseFirst(hist: seq<Changeset>, i: nat, j: nat, C: Changeset)
    requires i < j <= |hist| && AllPositive(hist) && Positive(C.ops)
    ensures AllPositive(hist[i..j]) && AllPositive(hist[i + 1..j]) && Positive(Rebased(hist[i], C).ops)
    ensures Rebase(hist[i..j], C) == Rebase(hist[i + 1..j], Rebased(hist[i], C))
  {
    ConsSlice(hist, i, j);
    RebaseCons(hist[i], hist[i + 1..j], C);
  }

  lemma RebaseLast(hist: seq<Changeset>, i: nat, r: nat, C: Changeset)
    requires i <= r < |hist| && AllPositive(hist) && Positive(C.ops)
    ensures AllPositive(hist[i..r]) && AllPositive(hist[i..r + 1])
    ensures Rebase(hist[i..r + 1], C) == Rebased(hist[r], Rebase(hist[i..r], C))
  {
    SnocSlice(hist, i, r);
    RebaseConcat(hist[i..r], [hist[r]], C);
    RebaseCons(hist[r], [], Rebase(hist[i..r], C));
    Units([hist[r]]);
  }

  /** Delivering a broadcast: the base text follows the server, and X stays in agreement with
      what the server has made or will make of it. */
  lemma BroadcastOk(init: Text, s: SnapshotData, c: ClientId, p: Peer)
    requires Inv(init, s) && AllNormal(Hist(s)) && PeerOk(init, s, c, p) && SanePeer(p)
    requires p.inbox != [] && p.inbox[0].Broadcast?
    ensures PeerOk(init, s, c, Received(p))
  {
    var x, r := p.client, p.client.serverRev;
    var x' := Received(p).client;
    InboxTail(s, c, p, x');
    NextRevision(init, s, r);
    BroadcastKeepsView(x, Hist(s)[r], r + 1);
    assert BaseOk(init, s, x');
    if !x.waitingForAck {
      FollowOfIdentity(Hist(s)[r]);
    } else if p.proposed != [] {
      FlyingMoves(init, s, c, x, x', p.proposed[0]);
    } else {
      var j :| Landed(s, c, x, j);
      LandedMoves(s, c, x, x', j);
    }
  }

  lemma FlyingMoves(init: Text, s: SnapshotData, c: ClientId, x: ClientState, x': ClientState, e: Entry)
    requires Inv(init, s) && AllNormal(Hist(s)) && x.serverRev < s.headRev
    requires Flying(init, s, c, x, e)
    requires x'.serverRev == x.serverRev + 1 && x'.nextSubmissionId == x.nextSubmissionId
    requires x'.X == Rebased(Hist(s)[x.serverRev], x.X)
    ensures Flying(init, s, c, x', e)
  {
    CarriedMoves(Hist(s), x, x', e);
  }

  lemma CarriedMoves(hist: seq<Changeset>, x: ClientState, x': ClientState, e: Entry)
    requires AllPositive(hist) && Carried(hist, x, e) && x.serverRev < |hist|
    requires x'.serverRev == x.serverRev + 1 && x'.X == Rebased(hist[x.serverRev], x.X)
    ensures Carried(hist, x', e)
  {
    RebasedOnce(hist, e.baseRev, x.serverRev, e.changeset, x.X, x'.X);
  }

  lemma RebasedOnce(hist: seq<Changeset>, i: nat, r: nat, C: Changeset, X: Changeset, X': Changeset)
    requires i <= r < |hist| && AllPositive(hist) && Positive(C.ops)
    requires AllPositive(hist[i..r]) && X == Rebase(hist[i..r], C) && X' == Rebased(hist[r], X)
    ensures AllPositive(hist[i..r + 1]) && X' == Rebase(hist[i..r + 1], C)
  {
    RebaseLast(hist, i, r, C);
  }

  lemma LandedMoves(s: SnapshotData, c: ClientId, x: ClientState, x': ClientState, j: int)
    requires Landed(s, c, x, j) && AllNormal(Hist(s)) && s.revisionLog[x.serverRev].source != c
    requires x'.serverRev == x.serverRev + 1 && x'.nextSubmissionId == x.nextSubmissionId
    requires Positive(Hist(s)[x.serverRev].ops)
    requires x'.X == Rebased(Hist(s)[x.serverRev], x.X)
    ensures Landed(s, c, x', j)
  {
    RebaseFirst(Hist(s), x.serverRev, j, x.X);
  }

  /** Delivering the ACK: X is, op for op, the changeset the server committed. */
  lemma AckAgrees(init: Text, s: SnapshotData, c: ClientId, p: Peer)
    requires Inv(init, s) && AllNormal(Hist(s)) && PeerOk(init, s, c, p)
    requires p.inbox != [] && p.inbox[0].Ack?
    ensures var r := p.client.serverRev;
      && p.client.waitingForAck && p.proposed == [] && p.inbox[0].newRev == r + 1
      && r < s.headRev && s.revisionLog[r].source == c && p.client.X == s.revisionLog[r].changeset
      && NoneOwn(s, c, r + 1)
  {
    var r := p.client.serverRev;
    assert p.inbox[0] == NoticeAt(s, c, r);
    var j :| Landed(s, c, p.client, j);
    assert j == r;
    assert Hist(s)[r..r] == [];
  }

  lemma AckOk(init: Text, s: SnapshotData, c: ClientId, p: Peer)
    requires Inv(init, s) && AllNormal(Hist(s)) && PeerOk(init, s, c, p) && SanePeer(p)
    requires p.inbox != [] && p.inbox[0].Ack?
    ensures PeerOk(init, s, c, Received(p))
  {
    var r := p.client.serverRev;
    AckAgrees(init, s, c, p);
    NextRevision(init, s, r);
    AckFolds(p.client, r + 1);
    IdleOk(init, s, c, p, Received(p));
  }

  /** A client that awaits nothing, one revision further on. */
  lemma IdleOk(init: Text, s: SnapshotData, c: ClientId, p: Peer, p': Peer)
    requires Inv(init, s) && PeerOk(init, s, c, p) && p.inbox != []
    requires p'.inbox == p.inbox[1..] && p'.proposed == p.proposed == []
    requires p'.client.serverRev == p.client.serverRev + 1 && !p'.client.waitingForAck
    requires p'.client.nextSubmissionId == p.client.nextSubmissionId
    requires Coherent(p'.client) && p'.client.X == Identity(|p'.client.baseText|)
    requires p'.client.serverRev <= s.headRev && p'.client.baseText == TextAt(init, s, p'.client.serverRev)
    requires NoneOwn(s, c, p'.client.serverRev)
    ensures PeerOk(init, s, c, p')
  {
    InboxTail(s, c, p, p'.client);
  }

  // ----- A commit

  /** In every run the entry at the head of a client's proposals is accepted, as a changeset
      that is the client's X caught up over what it has not seen. */
  lemma CommitAccepts(init: Text, s: SnapshotData, c: ClientId, p: Peer)
    requires Inv(init, s) && AllNormal(Hist(s)) && PeerOk(init, s, c, p) && SanePeer(p) && p.proposed != []
    ensures Runnable(s) && p.client.waitingForAck && |p.proposed| == 1 && p.proposed[0].clientId == c
    ensures Accepts(s, p.proposed[0]) && Canonical(p.proposed[0].changeset.ops)
    ensures AllPositive(Hist(s)[p.client.serverRev..]) && Positive(p.client.X.ops)
    ensures CaughtUp(s, p.proposed[0]) == Rebase(Hist(s)[p.client.serverRev..], p.client.X)
  {
    var e, r := p.proposed[0], p.client.serverRev;
    InvMeans(init, s);
    assert Flying(init, s, c, p.client, e);
    GoodIsAccepted(init, s, e);
    CatchUpInStages(Hist(s), e.baseRev, r, e.changeset);
  }

  lemma CatchUpInStages(hist: seq<Changeset>, i: nat, r: nat, C: Changeset)
    requires i <= r <= |hist| && AllPositive(hist) && Positive(C.ops)
    ensures AllPositive(hist[i..r]) && AllPositive(hist[r..])
    ensures Rebase(hist[i..], C) == Rebase(hist[r..], Rebase(hist[i..r], C))
  {
    SliceTail(hist, i, r);
    RebaseConcat(hist[i..r], hist[r..], C);
  }

  lemma SliceTail<T>(s: seq<T>, i: nat, r: nat)
    requires i <= r <= |s|
    ensures s[i..r] + s[r..] == s[i..]
  {}

  /** How an accepted entry extends the state: the past stays what it was. */
  ghost predicate Extends(s: SnapshotData, s': SnapshotData, C: Changeset, author: ClientId) {
    && s'.headRev == s.headRev + 1
    && s'.revisionLog == s.revisionLog + [Revision(s.headRev, C, author)]
    && author in s'.clientLastSubmission
    && (forall d :: d != author ==> (d in s'.clientLastSubmission <==> d in s.clientLastSubmission))
    && (forall d :: d != author && d in s.clientLastSubmission ==>
          s'.clientLastSubmission[d] == s.clientLastSubmission[d])
  }

  lemma NextExtends(s: SnapshotData, e: Entry)
    requires Runnable(s) && Admissible(e) && Accepts(s, e)
    ensures Extends(s, Next(s, e), CaughtUp(s, e), e.clientId)
    ensures Result(s, e) == Some(ApplyResult(CaughtUp(s, e), Next(s, e).headRev, e.clientId, false))
  {}

  lemma PastStays(init: Text, s: SnapshotData, s': SnapshotData, C: Changeset, author: ClientId)
    requires Inv(init, s) && Inv(init, s') && Extends(s, s', C, author)
    ensures Hist(s') == Hist(s) + [C]
    ensures forall i, j :: 0 <= i <= j <= s.headRev ==> Hist(s')[i..j] == Hist(s)[i..j]
    ensures forall r: nat :: r <= s.headRev ==> TextAt(init, s', r) == TextAt(init, s, r)
  {
    ChangesSnoc(s.revisionLog, Revision(s.headRev, C, author));
    forall i, j | 0 <= i <= j <= s.headRev
      ensures Hist(s')[i..j] == Hist(s)[i..j]
    {}
    forall r: nat | r <= s.headRev
      ensures TextAt(init, s', r) == TextAt(init, s, r)
    {
      assert Hist(s')[..r] == Hist(s)[..r];
    }
  }

  lemma InboxGrows(s: SnapshotData, s': SnapshotData, C: Changeset, author: ClientId, d: ClientId, p: Peer, p': Peer)
    requires InboxOk(s, d, p) && Extends(s, s', C, author) && s.headRev == |s.revisionLog|
    requires p'.client == p.client
    requires p'.inbox == p.inbox + Notice(ApplyResult(C, s'.headRev, author, false), d)
    ensures InboxOk(s', d, p')
  {}

  lemma AuthorOk(init: Text, s: SnapshotData, s': SnapshotData, c: ClientId, p: Peer, p': Peer)
    requires Inv(init, s) && AllNormal(Hist(s)) && PeerOk(init, s, c, p) && SanePeer(p) && p.proposed != []
    requires Runnable(s) && s' == Next(s, p.proposed[0]) && Inv(init, s')
    requires Extends(s, s', CaughtUp(s, p.proposed[0]), c)
    requires p'.client == p.client && p'.proposed == p.proposed[1..]
    requires p'.inbox == p.inbox + Notice(ApplyResult(CaughtUp(s, p.proposed[0]), s'.headRev, c, false), c)
    ensures PeerOk(init, s', c, p')
  {
    var C, x := CaughtUp(s, p.proposed[0]), p.client;
    CommitAccepts(init, s, c, p);
    PastStays(init, s, s', C, c);
    InboxGrows(s, s', C, c, c, p, p');
    assert Hist(s)[x.serverRev..] == Hist(s)[x.serverRev..s.headRev];
    assert Landed(s', c, x, s.headRev);
  }

  lemma BystanderOk(init: Text, s: SnapshotData, s': SnapshotData, C: Changeset, c: ClientId, d: ClientId,
                    p: Peer, p': Peer)
    requires Inv(init, s) && PeerOk(init, s, d, p) && d != c
    requires Inv(init, s') && Extends(s, s', C, c)
    requires p'.client == p.client && p'.proposed == p.proposed
    requires p'.inbox == p.inbox + Notice(ApplyResult(C, s'.headRev, c, false), d)
    ensures PeerOk(init, s', d, p')
  {
    var x := p.client;
    PastStays(init, s, s', C, c);
    InboxGrows(s, s', C, c, d, p, p');
    if x.waitingForAck && p.proposed != [] {
      assert Flying(init, s', d, x, p.proposed[0]);
    } else if x.waitingForAck {
      var j :| Landed(s, d, x, j);
      assert Landed(s', d, x, j);
    }
  }

  lemma CommitOk(init: Text, sys: System, c: ClientId)
    requires Sane(sys) && Good(init, sys) && Enabled(sys, Commit(c))
    ensures Good(init, Perform(sys, Commit(c)))
  {
    var s, p := sys.server, sys.peers[c];
    var e := p.proposed[0];
    CommitAccepts(init, s, c, p);
    NextInv(init, s, e);
    NextNormal(s, e);
    forall d | d in sys.peers
      ensures PeerOk(init, Next(s, e), d, Told(sys.peers, c, Result(s, e))[d])
    {
      CommitPeerOk(init, sys, c, d);
    }
  }

  lemma CommitPeerOk(init: Text, sys: System, c: ClientId, d: ClientId)
    requires Sane(sys) && Good(init, sys) && Enabled(sys, Commit(c)) && d in sys.peers
    ensures var e := sys.peers[c].proposed[0];
      && Inv(init, Next(sys.server, e))
      && PeerOk(init, Next(sys.server, e), d, Told(sys.peers, c, Result(sys.server, e))[d])
  {
    var s, p := sys.server, sys.peers[c];
    var e := p.proposed[0];
    CommitAccepts(init, s, c, p);
    NextInv(init, s, e);
    var s', C := Next(s, e), CaughtUp(s, e);
    NextExtends(s, e);
    var told := Told(sys.peers, c, Result(s, e))[d];
    if d == c {
      AuthorOk(init, s, s', c, p, told);
    } else {
      BystanderOk(init, s, s', C, c, d, sys.peers[d], told);
    }
  }

  // ----- All runs

  lemma StepGood(init: Text, sys: System, a: Action)
    requires Sane(sys) && Good(init, sys) && Enabled(sys, a)
    ensures Good(init, Perform(sys, a))
  {
    var s := sys.server;
    match a
    case Join(c) =>
      JoinOk(init, sys, c);
      OnePeerGood(init, sys, c, Arrived(sys, c));
    case Leave(c) =>
      LeaveOk(init, sys, c);
    case Edit(c, text, i, j) =>
      var p := sys.peers[c];
      EditOk(init, s, c, p, text, i, j);
      OnePeerGood(init, sys, c, p.(client := p.client.(editor := text, selStart := i, selEnd := j)));
    case Tick(c) =>
      TickOk(init, s, c, sys.peers[c]);
      OnePeerGood(init, sys, c, Ticked(c, sys.peers[c]));
    case Commit(c) =>
      CommitOk(init, sys, c);
    case Deliver(c) =>
      DeliverOk(init, s, c, sys.peers[c]);
      OnePeerGood(init, sys, c, Received(sys.peers[c]));
  }

  lemma OnePeerGood(init: Text, sys: System, c: ClientId, p: Peer)
    requires Good(init, sys) && PeerOk(init, sys.server, c, p)
    ensures Good(init, sys.(peers := sys.peers[c := p]))
  {}

  lemma DeliverOk(init: Text, s: SnapshotData, c: ClientId, p: Peer)
    requires Inv(init, s) && AllNormal(Hist(s)) && PeerOk(init, s, c, p) && SanePeer(p) && p.inbox != []
    ensures PeerOk(init, s, c, Received(p))
  {
    assert p.inbox[0] == NoticeAt(s, c, p.client.serverRev);
    if p.inbox[0].Ack? {
      AckOk(init, s, c, p);
    } else {
      BroadcastOk(init, s, c, p);
    }
  }

  lemma {:induction false} RunGood(init: Text, sys: System, run: seq<Action>)
    requires Sane(sys) && Good(init, sys) && Feasible(sys, run)
    ensures Good(init, Execute(sys, run))
    decreases |run|
  {
    if run != [] {
      PerformSane(sys, run[0]);
      StepGood(init, sys, run[0]);
      RunGood(init, Perform(sys, run[0]), run[1..]);
    }
  }

  /** Safety of every run from an empty system: the server's log folds to its text, and every
      client's base text is the server's text at the client's revision. */
  lemma EveryRunIsSafe(init: Text, run: seq<Action>)
    requires Feasible(Start(init), run)
    ensures var sys := Execute(Start(init), run);
      && Good(init, sys)
      && ApplyAll(init, Hist(sys.server)) == Done(sys.server.headText)
      && forall c :: c in sys.peers ==>
        var x := sys.peers[c].client;
        0 <= x.serverRev <= sys.server.headRev && x.baseText == TextAt(init, sys.server, x.serverRev)
  {
    StartGood(init);
    RunGood(init, Start(init), run);
    InvMeans(init, Execute(Start(init), run).server);
  }

  // ----- A client whose user stopped typing

  predicate EditedBy(a: Action, c: ClientId) {
    a.Edit? && a.c == c
  }

  predicate Untouched(run: seq<Action>, c: ClientId)
    decreases |run|
  {
    run == [] || (!EditedBy(run[0], c) && Untouched(run[1..], c))
  }

  /** The screen of `c`, while its page is open, shows exactly A · X. */
  ghost predicate ShowsAX(sys: System, c: ClientId) {
    c in sys.peers ==> Coherent(sys.peers[c].client) && Settled(sys.peers[c].client)
  }

  /** A step of one client leaves the screens of the others alone. */
  lemma OthersShow(sys: System, a: Action, c: ClientId)
    requires Sane(sys) && Enabled(sys, a) && a.c != c && ShowsAX(sys, c)
    ensures ShowsAX(Perform(sys, a), c)
  {
    var after := Perform(sys, a).peers;
    assert c in after <==> c in sys.peers;
    assert c in sys.peers ==> after[c].client == sys.peers[c].client;
  }

  lemma ShowsOne(sys: System, a: Action, c: ClientId, p: Peer)
    requires Sane(sys) && Enabled(sys, a)
    requires Perform(sys, a).peers == sys.peers[c := p] && Coherent(p.client) && Settled(p.client)
    ensures ShowsAX(Perform(sys, a), c)
  {}

  /** Every step but the user's keeps it so, closing and reopening the page included. */
  lemma StepKeepsSettled(init: Text, sys: System, a: Action, c: ClientId)
    requires Sane(sys) && Good(init, sys) && Enabled(sys, a)
    requires ShowsAX(sys, c) && !EditedBy(a, c)
    ensures ShowsAX(Perform(sys, a), c)
  {
    if a.c != c {
      OthersShow(sys, a, c);
    } else if a.Join? {
      JoinedCoherent(sys.server.headText, sys.server.headRev, Arrived(sys, c).client.nextSubmissionId);
      ShowsOne(sys, a, c, Arrived(sys, c));
    } else if a.Tick? {
      TickKeepsSettled(sys.peers[c].client);
      ShowsOne(sys, a, c, Ticked(c, sys.peers[c]));
    } else if a.Deliver? {
      DeliverKeepsSettled(init, sys.server, c, sys.peers[c]);
      ShowsOne(sys, a, c, Received(sys.peers[c]));
    }
  }

  lemma TickKeepsSettled(x: ClientState)
    requires Coherent(x) && Settled(x)
    ensures Ready(x) && AfterTick(x) == x && !Submits(x)
  {
    TickSubmits(x);
  }

  lemma DeliverKeepsSettled(init: Text, s: SnapshotData, c: ClientId, p: Peer)
    requires Inv(init, s) && AllNormal(Hist(s)) && PeerOk(init, s, c, p) && SanePeer(p) && p.inbox != []
    requires Settled(p.client)
    ensures Coherent(Received(p).client) && Settled(Received(p).client)
  {
    var r := p.client.serverRev;
    assert p.inbox[0] == NoticeAt(s, c, r);
    if p.inbox[0].Ack? {
      AckFolds(p.client, r + 1);
    } else {
      NextRevision(init, s, r);
      BroadcastKeepsSettled(p.client, Hist(s)[r], r + 1);
    }
  }

  /** When the user types nothing more after the timer fired with nothing awaited, then
      whatever else happens the screen stays A · X while the page is open; and with no ACK
      awaited the screen is the base text and the timer submits nothing further. */
  lemma {:induction false} QuietUser(init: Text, sys: System, run: seq<Action>, c: ClientId)
    requires Sane(sys) && Good(init, sys) && Feasible(sys, run)
    requires ShowsAX(sys, c) && Untouched(run, c)
    ensures Good(init, Execute(sys, run)) && ShowsAX(Execute(sys, run), c)
    ensures c in Execute(sys, run).peers ==>
      var x := Execute(sys, run).peers[c].client;
      !Submits(x) && (!x.waitingForAck ==> x.editor == x.baseText)
    decreases |run|
  {
    if run == [] {
      if c in sys.peers {
        var x := sys.peers[c].client;
        assert PeerOk(init, sys.server, c, sys.peers[c]);
        TickKeepsSettled(x);
        IdentityRuns(x.baseText);
      }
    } else {
      StepKeepsSettled(init, sys, run[0], c);
      PerformSane(sys, run[0]);
      StepGood(init, sys, run[0]);
      QuietUser(init, Perform(sys, run[0]), run[1..], c);
    }
  }

  /** The timer, firing with nothing awaited, settles the client. */
  lemma TickSettles(init: Text, sys: System, c: ClientId)
    requires Sane(sys) && Good(init, sys) && Enabled(sys, Tick(c)) && !sys.peers[c].client.waitingForAck
    ensures Coherent(Perform(sys, Tick(c)).peers[c].client)
    ensures Settled(Perform(sys, Tick(c)).peers[c].client)
  {
    TickSubmits(sys.peers[c].client);
  }

  // ----- Convergence

  /** Nothing on its way, nothing awaiting commit, and no timer with anything to submit. */
  predicate Quiescent(sys: System)
    requires Sane(sys)
  {
    forall c :: c in sys.peers ==>
      sys.peers[c].inbox == [] && sys.peers[c].proposed == [] && !Submits(sys.peers[c].client)
  }

  /** Every screen shows the server's text. */
  predicate Converged(sys: System) {
    forall c :: c in sys.peers ==> sys.peers[c].client.editor == sys.server.headText
  }

  /** At quiescence every screen shows the server's text, and every client knows the head
      revision. */
  lemma QuiescentConverged(init: Text, sys: System)
    requires Sane(sys) && Good(init, sys) && Quiescent(sys)
    ensures Converged(sys)
    ensures forall c :: c in sys.peers ==> sys.peers[c].client.serverRev == sys.server.headRev
  {
    forall c | c in sys.peers
      ensures sys.peers[c].client.editor == sys.server.headText && sys.peers[c].client.serverRev == sys.server.headRev
    {
      var x := sys.peers[c].client;
      assert PeerOk(init, sys.server, c, sys.peers[c]);
      assert forall j :: !Landed(sys.server, c, x, j);
      TickSubmits(x);
      IdentityRuns(x.baseText);
      Units(Hist(sys.server));
    }
  }

  /** The steps that move edits along, as opposed to making new ones. */
  predicate Productive(sys: System, a: Action)
    requires Sane(sys)
  {
    Enabled(sys, a) && (a.Commit? || a.Deliver? || (a.Tick? && Submits(sys.peers[a.c].client)))
  }

  ghost predicate AllCoherent(sys: System) {
    forall c :: c in sys.peers ==> Coherent(sys.peers[c].client)
  }

  ghost function Unsettled(sys: System): set<ClientId>
    requires AllCoherent(sys)
  {
    set c | c in sys.peers && !Settled(sys.peers[c].client)
  }

  ghost function InFlight(sys: System): set<ClientId> {
    set c | c in sys.peers && sys.peers[c].proposed != []
  }

  ghost function Unseen(sys: System): set<(ClientId, int)> {
    set c, i | c in sys.peers.Keys && sys.peers[c].client.serverRev <= i < sys.server.headRev :: (c, i)
  }

  /** `count` charges of `each`. */
  function Charge(count: nat, each: nat): nat {
    if count == 0 then 0 else each + Charge(count - 1, each)
  }

  lemma {:induction false} ChargeGrows(u: nat, v: nat, each: nat)
    requires u <= v
    ensures Charge(u, each) <= Charge(v, each)
  {
    if u < v { ChargeGrows(u, v - 1, each); }
  }

  /** An upper bound on the productive steps still possible: a screen with unsent edits costs
      its submission, its commit and one notice to every client. */
  ghost function Rank(sys: System): nat
    requires AllCoherent(sys)
  {
    RankOf(|sys.peers|, |Unsettled(sys)|, |InFlight(sys)|, |Unseen(sys)|)
  }

  function RankOf(n: nat, unsettled: nat, inFlight: nat, unseen: nat): nat {
    Charge(unsettled, n + 2) + Charge(inFlight, n + 1) + unseen
  }

  lemma OneSubmitted(n: nat, unsettled: nat, inFlight: nat, unseen: nat)
    ensures RankOf(n, unsettled, inFlight + 1, unseen) < RankOf(n, unsettled + 1, inFlight, unseen)
  {}

  lemma OneCommitted(n: nat, unsettled: nat, inFlight: nat, unseen: nat, unseen': nat)
    requires unseen' <= unseen + n
    ensures RankOf(n, unsettled, inFlight, unseen') < RankOf(n, unsettled, inFlight + 1, unseen)
  {}

  lemma {:induction false} PairsBound(keys: set<ClientId>, h: int)
    ensures |set c | c in keys :: (c, h)| <= |keys|
    decreases keys
  {
    var pairs := set c | c in keys :: (c, h);
    if k :| k in keys {
      PairsBound(keys - {k}, h);
      assert pairs == (set c | c in keys - {k} :: (c, h)) + {(k, h)};
    } else {
      assert pairs == {};
    }
  }

  lemma GoodCoherent(init: Text, sys: System)
    requires Good(init, sys)
    ensures AllCoherent(sys)
  {
    forall c | c in sys.peers
      ensures Coherent(sys.peers[c].client)
    {
      assert PeerOk(init, sys.server, c, sys.peers[c]);
    }
  }

  /** What a step of one client does to the three sets. */
  lemma OneClientUnsettled(sys: System, c: ClientId, p: Peer)
    requires AllCoherent(sys) && c in sys.peers && Coherent(p.client)
    ensures var sys' := sys.(peers := sys.peers[c := p]);
      && AllCoherent(sys')
      && Unsettled(sys') == (if Settled(p.client) then Unsettled(sys) - {c} else Unsettled(sys) + {c})
  {}

  lemma OneClientInFlight(sys: System, c: ClientId, p: Peer)
    requires c in sys.peers
    ensures var sys' := sys.(peers := sys.peers[c := p]);
      && |sys'.peers| == |sys.peers|
      && InFlight(sys') == (if p.proposed == [] then InFlight(sys) - {c} else InFlight(sys) + {c})
  {
    var sys' := sys.(peers := sys.peers[c := p]);
    assert sys'.peers.Keys == sys.peers.Keys;
    assert |sys'.peers| == |sys'.peers.Keys|;
  }

  lemma OneClientUnseen(sys: System, c: ClientId, p: Peer)
    requires c in sys.peers
    ensures var sys', r := sys.(peers := sys.peers[c := p]), sys.peers[c].client.serverRev;
      && (p.client.serverRev == r ==> Unseen(sys') == Unseen(sys))
      && (p.client.serverRev == r + 1 <= sys.server.headRev ==>
            Unseen(sys') == Unseen(sys) - {(c, r)} && (c, r) in Unseen(sys))
  {
    var sys' := sys.(peers := sys.peers[c := p]);
    assert sys'.peers.Keys == sys.peers.Keys;
  }

  lemma RankAfterTick(sys: System, sys': System, c: ClientId)
    requires AllCoherent(sys) && AllCoherent(sys') && |sys'.peers| == |sys.peers|
    requires Unsettled(sys') == Unsettled(sys) - {c} && c in Unsettled(sys)
    requires InFlight(sys') == InFlight(sys) + {c} && c !in InFlight(sys)
    requires Unseen(sys') == Unseen(sys)
    ensures Rank(sys') < Rank(sys)
  {
    SubmittedSets(|sys.peers|, Unsettled(sys), Unsettled(sys'), InFlight(sys), InFlight(sys'), |Unseen(sys)|, c);
  }

  lemma SubmittedSets(n: nat, u: set<ClientId>, u': set<ClientId>, f: set<ClientId>, f': set<ClientId>,
                      unseen: nat, c: ClientId)
    requires u' == u - {c} && c in u && f' == f + {c} && c !in f
    ensures RankOf(n, |u'|, |f'|, unseen) < RankOf(n, |u|, |f|, unseen)
  {
    OneLess(u, u', c);
    OneLess(f', f, c);
    OneSubmitted(n, |u'|, |f|, unseen);
  }

  lemma OneLess<T>(s: set<T>, t: set<T>, x: T)
    requires t == s - {x} && x in s
    ensures |s| == |t| + 1
  {}

  lemma RankAfterCommit(sys: System, sys': System, c: ClientId)
    requires AllCoherent(sys) && AllCoherent(sys') && |sys'.peers| == |sys.peers|
    requires Unsettled(sys') == Unsettled(sys)
    requires InFlight(sys') == InFlight(sys) - {c} && c in InFlight(sys)
    requires |Unseen(sys')| <= |Unseen(sys)| + |sys.peers|
    ensures Rank(sys') < Rank(sys)
  {
    OneLess(InFlight(sys), InFlight(sys'), c);
    OneCommitted(|sys.peers|, |Unsettled(sys)|, |InFlight(sys')|, |Unseen(sys)|, |Unseen(sys')|);
  }

  lemma RankAfterDeliver(sys: System, c: ClientId, p: Peer)
    requires AllCoherent(sys) && c in sys.peers && Coherent(p.client)
    requires Settled(sys.peers[c].client) ==> Settled(p.client)
    requires p.proposed == sys.peers[c].proposed
    requires p.client.serverRev == sys.peers[c].client.serverRev + 1 <= sys.server.headRev
    ensures var sys' := sys.(peers := sys.peers[c := p]);
      AllCoherent(sys') && |sys'.peers| == |sys.peers| && Rank(sys') < Rank(sys)
  {
    var sys' := sys.(peers := sys.peers[c := p]);
    OneClientUnsettled(sys, c, p);
    OneClientInFlight(sys, c, p);
    OneClientUnseen(sys, c, p);
    assert InFlight(sys') == InFlight(sys);
    RankAfterSeen(sys, sys', (c, sys.peers[c].client.serverRev));
  }

  lemma RankAfterSeen(sys: System, sys': System, x: (ClientId, int))
    requires AllCoherent(sys) && AllCoherent(sys') && |sys'.peers| == |sys.peers|
    requires Unsettled(sys') <= Unsettled(sys) && InFlight(sys') == InFlight(sys)
    requires Unseen(sys') == Unseen(sys) - {x} && x in Unseen(sys)
    ensures Rank(sys') < Rank(sys)
  {
    SubsetSize(Unsettled(sys'), Unsettled(sys));
    ChargeGrows(|Unsettled(sys')|, |Unsettled(sys)|, |sys.peers| + 2);
    assert |Unseen(sys')| == |Unseen(sys)| - 1;
  }

  lemma TickDescends(init: Text, sys: System, c: ClientId)
    requires Sane(sys) && Good(init, sys) && Productive(sys, Tick(c))
    ensures AllCoherent(sys) && AllCoherent(Perform(sys, Tick(c)))
    ensures var sys' := Perform(sys, Tick(c));
      |sys'.peers| == |sys.peers| && Rank(sys') < Rank(sys)
  {
    var p, sys' := sys.peers[c], Perform(sys, Tick(c));
    GoodCoherent(init, sys);
    assert PeerOk(init, sys.server, c, p);
    TickSubmits(p.client);
    assert sys' == sys.(peers := sys.peers[c := Ticked(c, p)]);
    SubmissionDescends(sys, sys', c, Ticked(c, p));
  }

  /** One screen submitted: settled now, and in flight. */
  lemma SubmissionDescends(sys: System, sys': System, c: ClientId, p: Peer)
    requires AllCoherent(sys) && c in sys.peers && Coherent(p.client)
    requires !Settled(sys.peers[c].client) && Settled(p.client)
    requires sys.peers[c].proposed == [] && p.proposed != []
    requires p.client.serverRev == sys.peers[c].client.serverRev
    requires sys' == sys.(peers := sys.peers[c := p])
    ensures AllCoherent(sys') && |sys'.peers| == |sys.peers| && Rank(sys') < Rank(sys)
  {
    OneClientUnsettled(sys, c, p);
    OneClientInFlight(sys, c, p);
    OneClientUnseen(sys, c, p);
    RankAfterTick(sys, sys', c);
  }

  /** What a commit does to them: one entry fewer in flight, one more revision unseen by
      everybody. */
  lemma CommitSets(sys: System, c: ClientId, server: SnapshotData, r: Option<ApplyResult>)
    requires AllCoherent(sys) && c in sys.peers && |sys.peers[c].proposed| == 1
    ensures var sys' := sys.(server := server, peers := Told(sys.peers, c, r));
      && AllCoherent(sys') && Unsettled(sys') == Unsettled(sys)
      && InFlight(sys') == InFlight(sys) - {c} && c in InFlight(sys)
  {
    var told := Told(sys.peers, c, r);
    assert forall d :: d in told <==> d in sys.peers;
    assert forall d :: d in sys.peers ==> told[d].client == sys.peers[d].client;
  }

  lemma CommitUnseen(sys: System, c: ClientId, server: SnapshotData, r: Option<ApplyResult>)
    requires c in sys.peers && sys.peers[c].proposed != []
    requires server.headRev == sys.server.headRev + 1
    ensures var sys' := sys.(server := server, peers := Told(sys.peers, c, r));
      |sys'.peers| == |sys.peers| && |Unseen(sys')| <= |Unseen(sys)| + |sys.peers|
  {
    var sys' := sys.(server := server, peers := Told(sys.peers, c, r));
    assert sys'.peers.Keys == sys.peers.Keys;
    assert |sys'.peers| == |sys'.peers.Keys|;
    var added := set d | d in sys.peers.Keys :: (d, sys.server.headRev);
    assert Unseen(sys') <= Unseen(sys) + added;
    SubsetSize(Unseen(sys'), Unseen(sys) + added);
    PairsBound(sys.peers.Keys, sys.server.headRev);
  }

  lemma CommitDescends(init: Text, sys: System, c: ClientId)
    requires Sane(sys) && Good(init, sys) && Productive(sys, Commit(c))
    ensures AllCoherent(sys) && AllCoherent(Perform(sys, Commit(c)))
    ensures var sys' := Perform(sys, Commit(c));
      |sys'.peers| == |sys.peers| && Rank(sys') < Rank(sys)
  {
    GoodCoherent(init, sys);
    CommitAccepts(init, sys.server, c, sys.peers[c]);
    var e := sys.peers[c].proposed[0];
    CommitSets(sys, c, Next(sys.server, e), Result(sys.server, e));
    CommitUnseen(sys, c, Next(sys.server, e), Result(sys.server, e));
    RankAfterCommit(sys, sys.(server := Next(sys.server, e), peers := Told(sys.peers, c, Result(sys.server, e))), c);
  }

  lemma {:induction false} SubsetSize<T>(s: set<T>, t: set<T>)
    requires s <= t
    ensures |s| <= |t|
    decreases s
  {
    if x :| x in s {
      SubsetSize(s - {x}, t - {x});
    }
  }

  lemma DeliverDescends(init: Text, sys: System, c: ClientId)
    requires Sane(sys) && Good(init, sys) && Productive(sys, Deliver(c))
    ensures AllCoherent(sys) && AllCoherent(Perform(sys, Deliver(c)))
    ensures var sys' := Perform(sys, Deliver(c));
      |sys'.peers| == |sys.peers| && Rank(sys') < Rank(sys)
  {
    GoodCoherent(init, sys);
    var p := sys.peers[c];
    assert PeerOk(init, sys.server, c, p);
    DeliverAdvances(init, sys.server, c, p);
    RankAfterDeliver(sys, c, Received(p));
  }

  lemma DeliverAdvances(init: Text, s: SnapshotData, c: ClientId, p: Peer)
    requires Inv(init, s) && AllNormal(Hist(s)) && PeerOk(init, s, c, p) && SanePeer(p) && p.inbox != []
    ensures Coherent(Received(p).client) && (Settled(p.client) ==> Settled(Received(p).client))
    ensures Received(p).client.serverRev == p.client.serverRev + 1 <= s.headRev
  {
    var r := p.client.serverRev;
    assert p.inbox[0] == NoticeAt(s, c, r);
    if p.inbox[0].Ack? {
      AckFolds(p.client, r + 1);
    } else {
      NextRevision(init, s, r);
      BroadcastKeepsView(p.client, Hist(s)[r], r + 1);
    }
    if Settled(p.client) {
      DeliverKeepsSettled(init, s, c, p);
    }
  }

  lemma ProductiveDescends(init: Text, sys: System, a: Action)
    requires Sane(sys) && Good(init, sys) && Productive(sys, a)
    ensures AllCoherent(sys) && AllCoherent(Perform(sys, a))
    ensures |Perform(sys, a).peers| == |sys.peers| && Rank(Perform(sys, a)) < Rank(sys)
  {
    match a
    case Tick(c) => TickDescends(init, sys, c);
    case Commit(c) => CommitDescends(init, sys, c);
    case Deliver(c) => DeliverDescends(init, sys, c);
  }

  predicate ProductiveRun(sys: System, run: seq<Action>)
    requires Sane(sys)
    decreases |run|
  {
    run == [] ||
    (Productive(sys, run[0]) && (PerformSane(sys, run[0]); ProductiveRun(Perform(sys, run[0]), run[1..])))
  }

  lemma {:induction false} ProductiveFeasible(sys: System, run: seq<Action>)
    requires Sane(sys) && ProductiveRun(sys, run)
    ensures Feasible(sys, run)
    decreases |run|
  {
    if run != [] {
      PerformSane(sys, run[0]);
      ProductiveFeasible(Perform(sys, run[0]), run[1..]);
    }
  }

  /** Once nobody types, every order of submits, commits and deliveries comes to an end, within
      a bound known at the start. */
  lemma {:induction false} ProductiveRunsEnd(init: Text, sys: System, run: seq<Action>)
    requires Sane(sys) && Good(init, sys) && ProductiveRun(sys, run)
    ensures AllCoherent(sys) && |run| <= Rank(sys)
    decreases |run|
  {
    GoodCoherent(init, sys);
    if run != [] {
      ProductiveDescends(init, sys, run[0]);
      PerformSane(sys, run[0]);
      StepGood(init, sys, run[0]);
      ProductiveRunsEnd(init, Perform(sys, run[0]), run[1..]);
    }
  }

  lemma StuckIsQuiescent(sys: System)
    requires Sane(sys) && forall a :: !Productive(sys, a)
    ensures Quiescent(sys)
  {
    forall c | c in sys.peers
      ensures sys.peers[c].inbox == [] && sys.peers[c].proposed == [] && !Submits(sys.peers[c].client)
    {
      assert !Productive(sys, Deliver(c)) && !Productive(sys, Commit(c)) && !Productive(sys, Tick(c));
    }
  }

  /** Whatever order was taken, where it cannot go on every screen shows the head text. */
  lemma StuckMeansConverged(init: Text, sys: System, run: seq<Action>)
    requires Sane(sys) && Good(init, sys) && ProductiveRun(sys, run)
    ensures Feasible(sys, run)
    ensures (forall a :: !Productive(Execute(sys, run), a)) ==> Converged(Execute(sys, run))
  {
    ProductiveFeasible(sys, run);
    RunGood(init, sys, run);
    var end := Execute(sys, run);
    if forall a :: !Productive(end, a) {
      StuckIsQuiescent(end);
      QuiescentConverged(init, end);
    }
  }

  lemma Prepended(sys: System, a: Action, rest: seq<Action>)
    requires Sane(sys) && Productive(sys, a) && Sane(Perform(sys, a))
    requires ProductiveRun(Perform(sys, a), rest) && Feasible(Perform(sys, a), rest)
    ensures ProductiveRun(sys, [a] + rest) && Feasible(sys, [a] + rest)
    ensures Execute(sys, [a] + rest) == Execute(Perform(sys, a), rest)
  {
    assert ([a] + rest)[1..] == rest;
  }

  /** From every state a run can reach, submits, commits and deliveries alone can bring the
      head text to every screen. */
  lemma CanConverge(init: Text, sys: System) returns (run: seq<Action>)
    requires Sane(sys) && Good(init, sys)
    ensures ProductiveRun(sys, run) && Feasible(sys, run) && Converged(Execute(sys, run))
    decreases if AllCoherent(sys) then Rank(sys) else 0
  {
    GoodCoherent(init, sys);
    if a :| Productive(sys, a) {
      ProductiveDescends(init, sys, a);
      PerformSane(sys, a);
      StepGood(init, sys, a);
      var rest := CanConverge(init, Perform(sys, a));
      Prepended(sys, a, rest);
      run := [a] + rest;
    } else {
      run := [];
      StuckIsQuiescent(sys);
      QuiescentConverged(init, sys);
    }
  }
}
