/**
  The durable approval store behind its lock: what its operations promise over every interleaving of
  any number of clients and processes, with crashes and I/O failures at any step.
*/
module ApprovalFile {
  import opened Common
  import opened Texts
  import opened LockFile
  import opened ApprovalStore

  type Approvals = seq<Approval>
  type ApprovalFileState = State<Approvals, Op, Reply>

  /** What an operation does with the loaded records; it rewrites the file exactly if it changes one. */
  function Published(runtimeId: Text, records: Approvals, op: Op): Effect<Approvals, Reply> {
    var (after, reply) := ApprovalStore.Apply(records, runtimeId, op);
    Effect(after, reply, reply.Granted? || reply == Revoked(true) || reply.Approved?)
  }

  function Operations(runtimeId: Text): Meaning<Approvals, Op, Reply> {
    (records, op) => Published(runtimeId, records, op)
  }

  /** The file is rewritten exactly if a record was added or changed. */
  lemma WritesExactlyChanges(runtimeId: Text, records: Approvals, op: Op)
    ensures var e := Published(runtimeId, records, op); e.writes <==> e.contents != records
  {
  }

  lemma ApprovalsAreHonest(runtimeId: Text)
    ensures Honest(Operations(runtimeId))
  {
  }

  function OpsOf(log: seq<Entry<Op, Reply>>): (ops: seq<Op>)
    ensures |ops| == |log|
  {
    seq(|log|, i requires 0 <= i < |log| => log[i].op)
  }

  lemma OpsOfPrefix(log: seq<Entry<Op, Reply>>, n: nat)
    requires n <= |log|
    ensures OpsOf(log)[..n] == OpsOf(log[..n])
  {
  }

  lemma RepliesMatchPrefix(runtimeId: Text, init: Approvals, log: seq<Entry<Op, Reply>>, n: nat)
    requires RepliesMatch(Operations(runtimeId), init, log) && n <= |log|
    ensures RepliesMatch(Operations(runtimeId), init, log[..n])
  {
    forall i | 0 <= i < n
      ensures Operations(runtimeId)(Replay(Operations(runtimeId), init, log[..n][..i]), log[..n][i].op).reply == log[..n][i].reply
    {
      assert log[..n][..i] == log[..i] && log[..n][i] == log[i];
    }
  }

  /** This run has exactly the logged replies, and ends in what replaying the log gives. */
  ghost predicate RunsAs(runtimeId: Text, init: Approvals, log: seq<Entry<Op, Reply>>, end: ApprovalStore.Outcome) {
    && |end.replies| == |log| && end.records == Replay(Operations(runtimeId), init, log)
    && forall i :: 0 <= i < |log| ==> end.replies[i] == log[i].reply
  }

  lemma RunsAsPush(runtimeId: Text, init: Approvals, log: seq<Entry<Op, Reply>>, before: ApprovalStore.Outcome)
    requires log != [] && RunsAs(runtimeId, init, log[..|log| - 1], before)
    requires var e := log[|log| - 1];
             Published(runtimeId, Replay(Operations(runtimeId), init, log[..|log| - 1]), e.op).reply == e.reply
    ensures var (after, reply) := ApprovalStore.Apply(before.records, runtimeId, log[|log| - 1].op);
            RunsAs(runtimeId, init, log, ApprovalStore.Outcome.Outcome(after, before.replies + [reply]))
  {
    var n := |log| - 1;
    var (after, reply) := ApprovalStore.Apply(before.records, runtimeId, log[n].op);
    var replies := before.replies + [reply];
    forall i | 0 <= i < |log| ensures replies[i] == log[i].reply {
      assert i < n ==> before.replies[i] == log[..n][i].reply;
    }
  }

  /** The committed operations are a run of the store, with exactly the logged replies. */
  lemma {:induction false} LogIsRun(runtimeId: Text, init: Approvals, log: seq<Entry<Op, Reply>>)
    requires RepliesMatch(Operations(runtimeId), init, log)
    ensures RunsAs(runtimeId, init, log, Run(init, runtimeId, OpsOf(log)))
  {
    if log != [] {
      var n := |log| - 1;
      RepliesMatchPrefix(runtimeId, init, log, n);
      LogIsRun(runtimeId, init, log[..n]);
      var before := Run(init, runtimeId, OpsOf(log[..n]));
      OpsOfPrefix(log, n);
      assert Operations(runtimeId)(Replay(Operations(runtimeId), init, log[..n]), log[n].op).reply == log[n].reply;
      RunsAsPush(runtimeId, init, log, before);
    }
  }

  /** What every state reached from a loadable file says. */
  lemma ReachedFile(runtimeId: Text, init: Approvals, s: ApprovalFileState, steps: seq<Step<Op>>, end: ApprovalFileState)
    requires Init(s) && s.file == Holds(init) && Path(Operations(runtimeId), s, steps, end)
    ensures Logged(end) && end.file == Holds(Run(init, runtimeId, OpsOf(end.log)).records)
    ensures forall i :: 0 <= i < |end.log| ==> Run(init, runtimeId, OpsOf(end.log)).replies[i] == end.log[i].reply
  {
    ApprovalsAreHonest(runtimeId);
    Refines(Operations(runtimeId), init, s, steps, end);
    LogIsRun(runtimeId, init, end.log);
  }

  /** Whatever crashes, the file on disk is always one that the loader accepts. */
  lemma FileAlwaysLoads(runtimeId: Text, init: Approvals, s: ApprovalFileState, steps: seq<Step<Op>>, end: ApprovalFileState)
    requires NonEmpty(runtimeId) && ValidState(init, runtimeId)
    requires Init(s) && s.file == Holds(init) && Path(Operations(runtimeId), s, steps, end)
    ensures end.file.Holds? && ValidState(end.file.contents, runtimeId)
  {
    ReachedFile(runtimeId, init, s, steps, end);
    EveryWrittenStateLoads(init, runtimeId, OpsOf(end.log));
  }

  lemma LongerRunKeeps(runtimeId: Text, init: Approvals, log: seq<Entry<Op, Reply>>, n: nat)
    requires n <= |log|
    ensures Kept(Run(init, runtimeId, OpsOf(log[..n])).records, Run(init, runtimeId, OpsOf(log)).records)
  {
    OpsOfPrefix(log, n);
    var front, rest := OpsOf(log[..n]), OpsOf(log)[n..];
    assert OpsOf(log) == front + rest;
    ConsumedAndRevokedAreFinal(init, runtimeId, front, rest);
  }

  /** On disk no record is ever dropped, and a consumed or revoked one never changes again. */
  lemma UsedStaysUsedOnDisk(runtimeId: Text, init: Approvals, s: ApprovalFileState, steps: seq<Step<Op>>,
                            mid: ApprovalFileState, rest: seq<Step<Op>>, end: ApprovalFileState)
    requires Init(s) && s.file == Holds(init) && Path(Operations(runtimeId), s, steps, mid)
    requires Path(Operations(runtimeId), mid, rest, end)
    ensures mid.file.Holds? && end.file.Holds? && Kept(mid.file.contents, end.file.contents)
  {
    PathTrans(Operations(runtimeId), s, steps, mid, rest, end);
    LogGrows(Operations(runtimeId), mid, rest, end);
    ReachedFile(runtimeId, init, s, steps, mid);
    ReachedFile(runtimeId, init, s, steps + rest, end);
    LongerRunKeeps(runtimeId, init, end.log, |mid.log|);
  }

  /** The client's operation has taken effect and approves a call; its answer may be out or still to come. */
  predicate ApprovedFor(client: Client<Approvals, Op, Reply>) {
    Succeeded(client) && client.phase.outcome.reply.Approved?
  }

  /** No two clients, of whatever processes, are approved by one record. */
  lemma ApprovedClientsAreDistinct(runtimeId: Text, init: Approvals, s: ApprovalFileState, steps: seq<Step<Op>>,
                                   end: ApprovalFileState, c: Cid, d: Cid)
    requires NonEmpty(runtimeId) && ValidState(init, runtimeId)
    requires Init(s) && s.file == Holds(init) && Path(Operations(runtimeId), s, steps, end)
    requires c in end.clients && d in end.clients && c != d
    requires ApprovedFor(end.clients[c]) && ApprovedFor(end.clients[d])
    ensures end.clients[c].phase.outcome.reply.approval.approvalId != end.clients[d].phase.outcome.reply.approval.approvalId
  {
    ReachedFile(runtimeId, init, s, steps, end);
    assert InLog(end.log, c) && InLog(end.log, d);
    var i :| 0 <= i < |end.log| && end.log[i].client == c;
    var j :| 0 <= j < |end.log| && end.log[j].client == d;
    var ops := OpsOf(end.log);
    if i < j {
      ApprovalsAreDistinct(init, runtimeId, ops, i, j);
    } else {
      ApprovalsAreDistinct(init, runtimeId, ops, j, i);
    }
  }

  predicate IsUse(op: Op, reply: Reply, key: Key) {
    reply.Approved? && CallKey(op) == Some(key)
  }

  /** The clients whose calls for this task, agent, tool and payload were approved. */
  ghost function ApprovedClients(s: ApprovalFileState, key: Key): set<Cid> {
    set c | c in s.clients && Succeeded(s.clients[c]) && IsUse(s.clients[c].op, s.clients[c].phase.outcome.reply, key)
  }

  function LoggedClients(log: seq<Entry<Op, Reply>>, key: Key): (clients: set<Cid>)
    ensures forall i :: 0 <= i < |log| && IsUse(log[i].op, log[i].reply, key) ==> log[i].client in clients
  {
    if log == [] then {}
    else
      var e := log[|log| - 1];
      var before := LoggedClients(log[..|log| - 1], key);
      assert forall i :: 0 <= i < |log| - 1 ==> log[i] == log[..|log| - 1][i];
      before + if IsUse(e.op, e.reply, key) then {e.client} else {}
  }

  lemma {:induction false} LoggedClientsAreUses(log: seq<Entry<Op, Reply>>, replies: seq<Reply>, key: Key)
    requires |replies| == |log| && forall i :: 0 <= i < |log| ==> replies[i] == log[i].reply
    ensures |LoggedClients(log, key)| <= Uses(OpsOf(log), replies, key)
  {
    if log != [] {
      var n := |log| - 1;
      LoggedClientsAreUses(log[..n], replies[..n], key);
      OpsOfPrefix(log, n);
    }
  }

  lemma SubsetSize(a: set<Cid>, b: set<Cid>)
    requires a <= b
    ensures |a| <= |b|
  {
    assert b == a + (b - a);
  }

  /**
    From an empty file: the clients whose calls for a task, agent, tool and payload were approved never
    outnumber the approvals granted for it.
  */
  lemma ApprovedClientsAreGranted(runtimeId: Text, s: ApprovalFileState, steps: seq<Step<Op>>, end: ApprovalFileState, key: Key)
    requires Init(s) && s.file == Holds([]) && Path(Operations(runtimeId), s, steps, end)
    ensures |ApprovedClients(end, key)| <= GrantedOps(OpsOf(end.log), Run([], runtimeId, OpsOf(end.log)).replies, key)
  {
    ReachedFile(runtimeId, [], s, steps, end);
    var ops := OpsOf(end.log);
    UsesAreGranted(runtimeId, ops, key);
    LoggedClientsAreUses(end.log, Run([], runtimeId, ops).replies, key);
    forall c | c in ApprovedClients(end, key) ensures c in LoggedClients(end.log, key) {
      assert InLog(end.log, c);
      var i :| 0 <= i < |end.log| && end.log[i].client == c;
    }
    SubsetSize(ApprovedClients(end, key), LoggedClients(end.log, key));
  }

  /** This entry of the log granted the approval with this id for exactly this call. */
  predicate GrantEntry(e: Entry<Op, Reply>, call: Op, id: Text) {
    e.op.Approve? && e.reply.Granted? && e.op.id == id && GrantKey(e.op).Some? && GrantKey(e.op) == CallKey(call)
  }

  /** Before entry `k` of the log the approval was granted for exactly this call, and not revoked. */
  predicate FollowsGrant(log: seq<Entry<Op, Reply>>, k: nat, call: Op, id: Text)
    requires k <= |log|
  {
    && (exists j :: 0 <= j < k && GrantEntry(log[j], call, id))
    && (forall i :: 0 <= i < k ==> !Revokes(log[i].op, log[i].reply, id))
  }

  lemma {:induction false} LoggedCallFollowsGrant(runtimeId: Text, log: seq<Entry<Op, Reply>>, k: nat)
    requires NonEmpty(runtimeId) && k < |log| && log[k].reply.Approved?
    requires forall i :: 0 <= i < |log| ==> Run([], runtimeId, OpsOf(log)).replies[i] == log[i].reply
    ensures FollowsGrant(log, k, log[k].op, log[k].reply.approval.approvalId)
  {
    var ops, id := OpsOf(log), log[k].reply.approval.approvalId;
    var replies := Run([], runtimeId, ops).replies;
    ApprovedFollowsGrant(runtimeId, ops, k);
    var j :| 0 <= j < k && GrantFor(ops, replies, j, ops[k], id);
    assert GrantEntry(log[j], log[k].op, id);
    forall i | 0 <= i < k ensures !Revokes(log[i].op, log[i].reply, id) {
      assert !Revokes(ops[i], replies[i], id);
    }
  }

  /**
    From an empty file: a client is approved only if another client was granted, earlier, the approval
    it names for exactly this task, agent, tool and payload, and no client had revoked it by then.
  */
  lemma {:induction false} ApprovedClientFollowsGrant(runtimeId: Text, s: ApprovalFileState, steps: seq<Step<Op>>,
                                                      end: ApprovalFileState, c: Cid)
    requires NonEmpty(runtimeId) && Init(s) && s.file == Holds([]) && Path(Operations(runtimeId), s, steps, end)
    requires c in end.clients && ApprovedFor(end.clients[c])
    ensures exists k :: 0 <= k < |end.log| && end.log[k].client == c &&
                        FollowsGrant(end.log, k, end.clients[c].op, end.clients[c].phase.outcome.reply.approval.approvalId)
  {
    ReachedFile(runtimeId, [], s, steps, end);
    assert InLog(end.log, c);
    var k :| 0 <= k < |end.log| && end.log[k].client == c;
    LoggedCallFollowsGrant(runtimeId, end.log, k);
  }
}
