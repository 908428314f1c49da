/** The server's side of the protocol (internal/server/websocket.go): the gate in front of the
    log, and who is told what after a commit. */
module Server {
  import opened Texts
  import opened Changesets
  import opened Fsm
  import opened Client

  datatype Message =
    | Ack(newRev: int)
    | Broadcast(changeset: Changeset, newRev: int)
    | Refused(fault: Fault)

  /** What `onCommit` appends to the channel of the connected client `c`. */
  function Notice(r: ApplyResult, c: ClientId): seq<Message> {
    if c == r.clientId then [Ack(r.newRev)]
    else if r.isDuplicate then []
    else [Broadcast(r.cPrime, r.newRev)]
  }

  /** A submission as it goes over the wire: the browser writes its own id into it. */
  datatype SubmitMsg = SubmitMsg(clientId: ClientId, submission: Submission)

  /** The log entry a submission under the id `c` becomes. */
  function EntryOf(c: ClientId, m: Submission): Entry {
    Entry(c, m.submissionId, m.baseRev, m.changeset)
  }

  class Node {
    /** Connected clients and what was put on their channels so far. */
    var clients: map<ClientId, seq<Message>>

    constructor ()
      ensures clients == map[]
    {
      clients := map[];
    }

    method Send(c: ClientId, m: Message)
      requires c in clients
      modifies this
      ensures clients == old(clients)[c := old(clients)[c] + [m]]
    {
      clients := clients[c := clients[c] + [m]];
    }

    method OnCommit(result: ApplyResult)
      modifies this
      ensures clients.Keys == old(clients).Keys
      ensures forall c :: c in clients ==> clients[c] == old(clients)[c] + Notice(result, c)
    {
      if result.clientId in clients {
        Send(result.clientId, Ack(result.newRev));
      }
      if result.isDuplicate {
        return;
      }
      var todo := clients.Keys;
      while todo != {}
        invariant todo <= clients.Keys == old(clients).Keys
        invariant forall c :: c in clients ==>
          clients[c] ==
            if c in todo && c != result.clientId then old(clients)[c] else old(clients)[c] + Notice(result, c)
        decreases todo
      {
        var c :| c in todo;
        todo := todo - {c};
        if c != result.clientId {
          Send(c, Broadcast(result.cPrime, result.newRev));
        }
      }
    }

    /** The gate: an invalid changeset is answered with an error, on the connection `c` it came
        over, and never proposed. The entry names the client that the message names, which
        nothing compares with the connection. */
    method HandleSubmit(c: ClientId, msg: SubmitMsg) returns (proposed: Option<Entry>)
      requires c in clients
      modifies this
      ensures Valid(msg.submission.changeset) ==>
        proposed == Some(EntryOf(msg.clientId, msg.submission)) && clients == old(clients)
      ensures !Valid(msg.submission.changeset) ==> proposed == None && exists f ::
        f != NoFault && clients == old(clients)[c := old(clients)[c] + [Refused(f)]]
    {
      var m := msg.submission;
      var f := Validate(m.changeset);
      if f != NoFault {
        Send(c, Refused(f));
        return None;
      }
      return Some(Entry(msg.clientId, m.submissionId, m.baseRev, m.changeset));
    }
  }
}
