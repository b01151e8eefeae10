/**
  The durable approval store (src/policies/json-file-tool-approval-store.ts): every operation loads
  the file, changes the loaded records and publishes them with one atomic rename, under a lock.  Here is
  what the operations mean; ApprovalFile puts them behind the lock.

  Instants are integers (milliseconds); `None` is a clock that gives no valid time.
*/
module ApprovalStore {
  import opened Common
  import opened Texts
  import opened Digests

  datatype Approval = Approval(approvalId: Text, runtimeId: Text, taskId: Text, agentId: Text, toolName: Text,
                               payloadDigest: Text, grantedAt: int, expiresAt: Option<int>,
                               consumedAt: Option<int>, revokedAt: Option<int>)

  /** What String.prototype.trim removes. */
  predicate IsWhitespace(u: Unit) {
    9 <= u <= 13 || u == 32 || u == 160 || u == 0x1680 || 0x2000 <= u <= 0x200a || u == 0x2028 || u == 0x2029 ||
    u == 0x202f || u == 0x205f || u == 0x3000 || u == 0xfeff
  }

  /** requireNonEmpty */
  predicate NonEmpty(t: Text) {
    exists i :: 0 <= i < |t| && !IsWhitespace(t[i])
  }

  predicate Open(r: Approval) {
    r.consumedAt.None? && r.revokedAt.None?
  }

  // ---------------------------------------------------------------------------------------
  // Loading

  /** validateRecord */
  predicate ValidRecord(r: Approval, runtimeId: Text) {
    && NonEmpty(r.approvalId) && NonEmpty(r.runtimeId) && NonEmpty(r.taskId) && NonEmpty(r.agentId) && NonEmpty(r.toolName)
    && IsSha256Hex(r.payloadDigest)
    && r.runtimeId == runtimeId
    && (r.expiresAt.Some? ==> r.expiresAt.value > r.grantedAt)
    && (r.consumedAt.Some? ==> r.consumedAt.value >= r.grantedAt)
    && (r.consumedAt.Some? && r.expiresAt.Some? ==> r.consumedAt.value < r.expiresAt.value)
    && (r.revokedAt.Some? ==> r.revokedAt.value >= r.grantedAt)
    && !(r.consumedAt.Some? && r.revokedAt.Some?)
  }

  /** Exactly the states that loadState accepts. */
  predicate ValidState(records: seq<Approval>, runtimeId: Text) {
    && (forall i :: 0 <= i < |records| ==> ValidRecord(records[i], runtimeId))
    && (forall i, j :: 0 <= i < j < |records| ==> records[i].approvalId != records[j].approvalId)
  }

  method LoadState(parsed: seq<Approval>, runtimeId: Text) returns (approvals: Option<seq<Approval>>)
    ensures approvals == if ValidState(parsed, runtimeId) then Some(parsed) else None
  {
    for i := 0 to |parsed|
      invariant forall k :: 0 <= k < i ==> ValidRecord(parsed[k], runtimeId)
    {
      if !ValidRecord(parsed[i], runtimeId) {
        return None;
      }
    }
    var ids: set<Text> := {};
    for i := 0 to |parsed|
      invariant forall k :: 0 <= k < i ==> parsed[k].approvalId in ids
      invariant forall id :: id in ids ==> exists k :: 0 <= k < i && parsed[k].approvalId == id
      invariant forall j, k :: 0 <= j < k < i ==> parsed[j].approvalId != parsed[k].approvalId
    {
      if parsed[i].approvalId in ids {
        var k :| 0 <= k < i && parsed[k].approvalId == parsed[i].approvalId;
        return None;
      }
      ids := ids + {parsed[i].approvalId};
    }
    return Some(parsed);
  }

  // ---------------------------------------------------------------------------------------
  // Operations

  datatype Expiry = Never | AtInstant(t: int) | Malformed

  /** A payload that cannot be digested has no digest. */
  datatype Op =
    | Approve(id: Text, taskId: Text, agentId: Text, toolName: Text, digest: Option<Digest>, expires: Expiry, now: Option<int>)
    | Revoke(id: Text, now: Option<int>)
    | Consume(runtimeId: Text, taskId: Text, agentId: Text, toolName: Text, digest: Option<Digest>, now: Option<int>)

  /** Refused is a thrown error. */
  datatype Reply = Refused | Granted(record: Approval) | Revoked(done: bool) | Approved(approval: Approval) | Denied

  /** The place of the record with an id, or the number of records. */
  function FindId(records: seq<Approval>, id: Text): (i: nat)
    ensures i <= |records|
    ensures i < |records| ==> records[i].approvalId == id
    ensures forall k :: 0 <= k < i ==> records[k].approvalId != id
  {
    if records == [] || records[0].approvalId == id then 0
    else
      var i := FindId(records[1..], id);
      assert forall k :: 1 <= k < i + 1 ==> records[k] == records[1..][k - 1];
      i + 1
  }

  /** Whether a record may be used now for a call. */
  predicate Usable(r: Approval, runtimeId: Text, taskId: Text, agentId: Text, toolName: Text, digest: Digest, now: int) {
    && r.runtimeId == runtimeId && r.taskId == taskId && r.agentId == agentId && r.toolName == toolName
    && r.payloadDigest == digest && Open(r)
    && r.grantedAt <= now && (r.expiresAt.Some? ==> r.expiresAt.value > now)
  }

  function FindUsable(records: seq<Approval>, op: Op): (i: nat)
    requires op.Consume? && op.digest.Some? && op.now.Some?
    ensures i <= |records|
    ensures i < |records| ==>
      Usable(records[i], op.runtimeId, op.taskId, op.agentId, op.toolName, op.digest.value, op.now.value)
    ensures forall k :: 0 <= k < i ==>
      !Usable(records[k], op.runtimeId, op.taskId, op.agentId, op.toolName, op.digest.value, op.now.value)
  {
    if records == [] || Usable(records[0], op.runtimeId, op.taskId, op.agentId, op.toolName, op.digest.value, op.now.value) then 0
    else
      var i := FindUsable(records[1..], op);
      assert forall k :: 1 <= k < i + 1 ==> records[k] == records[1..][k - 1];
      i + 1
  }

  function NewRecord(op: Op, runtimeId: Text): Approval
    requires op.Approve? && op.digest.Some? && op.now.Some?
  {
    Approval(op.id, runtimeId, op.taskId, op.agentId, op.toolName, op.digest.value, op.now.value,
             if op.expires.AtInstant? then Some(op.expires.t) else None, None, None)
  }

  /** What an operation makes of the loaded records, and its answer. */
  function Apply(records: seq<Approval>, runtimeId: Text, op: Op): (seq<Approval>, Reply) {
    match op
    case Approve(id, taskId, agentId, toolName, digest, expires, now) =>
      if !(NonEmpty(taskId) && NonEmpty(agentId) && NonEmpty(toolName) && NonEmpty(id)) || digest.None? then (records, Refused)
      else if FindId(records, id) < |records| || now.None? then (records, Refused)
      else if expires.Malformed? || (expires.AtInstant? && expires.t <= now.value) then (records, Refused)
      else (records + [NewRecord(op, runtimeId)], Granted(NewRecord(op, runtimeId)))
    case Revoke(id, now) =>
      var i := FindId(records, id);
      if !NonEmpty(id) then (records, Refused)
      else if i == |records| || !Open(records[i]) then (records, Revoked(false))
      else if now.None? || now.value < records[i].grantedAt then (records, Refused)
      else (records[i := records[i].(revokedAt := now)], Revoked(true))
    case Consume(callerId, taskId, agentId, toolName, digest, now) =>
      if !(NonEmpty(callerId) && NonEmpty(taskId) && NonEmpty(agentId) && NonEmpty(toolName)) || digest.None? then
        (records, Denied)
      else if callerId != runtimeId || now.None? then (records, Denied)
      else
        var i := FindUsable(records, op);
        if i == |records| then (records, Denied)
        else (records[i := records[i].(consumedAt := now)], Approved(records[i].(consumedAt := now)))
  }

  // ---------------------------------------------------------------------------------------
  // The store over its file

  class JsonFileToolApprovalStore {
    const runtimeId: Text
    /** The records in the file; an absent file holds none. */
    var file: seq<Approval>

    constructor (runtimeId: Text, file: seq<Approval>)
      requires NonEmpty(runtimeId)
      ensures this.runtimeId == runtimeId && this.file == file
    {
      this.runtimeId, this.file := runtimeId, file;
    }

    method Approve(op: Op) returns (reply: Reply)
      requires op.Approve?
      modifies this
      ensures ValidState(old(file), runtimeId) ==> (file, reply) == Apply(old(file), runtimeId, op)
      ensures !ValidState(old(file), runtimeId) ==> file == old(file) && reply == Refused
    {
      if !(NonEmpty(op.taskId) && NonEmpty(op.agentId) && NonEmpty(op.toolName) && NonEmpty(op.id)) || op.digest.None? {
        return Refused;
      }
      var state := LoadState(file, runtimeId);
      if state.None? {
        return Refused;
      }
      var approvals := state.value;
      if FindId(approvals, op.id) < |approvals| || op.now.None? {
        return Refused;
      }
      if op.expires.Malformed? || (op.expires.AtInstant? && op.expires.t <= op.now.value) {
        return Refused;
      }
      var record := NewRecord(op, runtimeId);
      file := approvals + [record];
      return Granted(record);
    }

    method Revoke(op: Op) returns (reply: Reply)
      requires op.Revoke?
      modifies this
      ensures ValidState(old(file), runtimeId) ==> (file, reply) == Apply(old(file), runtimeId, op)
      ensures !ValidState(old(file), runtimeId) ==> file == old(file) && reply == Refused
    {
      if !NonEmpty(op.id) {
        return Refused;
      }
      var state := LoadState(file, runtimeId);
      if state.None? {
        return Refused;
      }
      var approvals := state.value;
      var index := FindId(approvals, op.id);
      if index == |approvals| || !Open(approvals[index]) {
        return Revoked(false);
      }
      if op.now.None? || op.now.value < approvals[index].grantedAt {
        return Refused;
      }
      file := approvals[index := approvals[index].(revokedAt := op.now)];
      return Revoked(true);
    }

    method Consume(op: Op) returns (reply: Reply)
      requires op.Consume?
      modifies this
      ensures ValidState(old(file), runtimeId) ==> (file, reply) == Apply(old(file), runtimeId, op)
      ensures !ValidState(old(file), runtimeId) ==> file == old(file) && (reply == Refused || reply == Denied)
    {
      if !(NonEmpty(op.runtimeId) && NonEmpty(op.taskId) && NonEmpty(op.agentId) && NonEmpty(op.toolName))
         || op.digest.None? || op.runtimeId != runtimeId {
        return Denied;
      }
      var state := LoadState(file, runtimeId);
      if state.None? {
        return Refused;
      }
      if op.now.None? {
        return Denied;
      }
      var approvals := state.value;
      for index := 0 to |approvals|
        invariant file == old(file)
        invariant forall k :: 0 <= k < index ==>
          !Usable(approvals[k], op.runtimeId, op.taskId, op.agentId, op.toolName, op.digest.value, op.now.value)
      {
        if Usable(approvals[index], op.runtimeId, op.taskId, op.agentId, op.toolName, op.digest.value, op.now.value) {
          var consumed := approvals[index].(consumedAt := op.now);
          file := approvals[index := consumed];
          return Approved(consumed);
        }
      }
      return Denied;
    }
  }

  // ---------------------------------------------------------------------------------------
  // Every written state loads again

  lemma ApplyKeepsValid(records: seq<Approval>, runtimeId: Text, op: Op)
    requires NonEmpty(runtimeId) && ValidState(records, runtimeId)
    ensures ValidState(Apply(records, runtimeId, op).0, runtimeId)
  {
  }

  // ---------------------------------------------------------------------------------------
  // Runs

  datatype Outcome = Outcome(records: seq<Approval>, replies: seq<Reply>)

  /** The records after these operations, and the answer to each. */
  function Run(records: seq<Approval>, runtimeId: Text, ops: seq<Op>): (end: Outcome)
    ensures |end.replies| == |ops|
    decreases |ops|
  {
    if ops == [] then Outcome(records, [])
    else
      var n := |ops| - 1;
      var before := Run(records, runtimeId, ops[..n]);
      var (after, reply) := Apply(before.records, runtimeId, ops[n]);
      Outcome(after, before.replies + [reply])
  }

  lemma {:induction false} EveryWrittenStateLoads(records: seq<Approval>, runtimeId: Text, ops: seq<Op>)
    requires NonEmpty(runtimeId) && ValidState(records, runtimeId)
    ensures ValidState(Run(records, runtimeId, ops).records, runtimeId)
    decreases |ops|
  {
    if ops != [] {
      var n := |ops| - 1;
      EveryWrittenStateLoads(records, runtimeId, ops[..n]);
      ApplyKeepsValid(Run(records, runtimeId, ops[..n]).records, runtimeId, ops[n]);
    }
  }

  /** Once used or revoked, a record stays as it is; and no record is ever dropped. */
  predicate Kept(before: seq<Approval>, after: seq<Approval>) {
    && |before| <= |after|
    && forall i :: 0 <= i < |before| ==>
         && after[i].(consumedAt := None, revokedAt := None) == before[i].(consumedAt := None, revokedAt := None)
         && (!Open(before[i]) ==> after[i] == before[i])
  }

  lemma ApplyKeeps(records: seq<Approval>, runtimeId: Text, op: Op)
    ensures Kept(records, Apply(records, runtimeId, op).0)
  {
  }

  lemma KeptTransitive(a: seq<Approval>, b: seq<Approval>, c: seq<Approval>)
    requires Kept(a, b) && Kept(b, c)
    ensures Kept(a, c)
  {
    forall i | 0 <= i < |a|
      ensures c[i].(consumedAt := None, revokedAt := None) == a[i].(consumedAt := None, revokedAt := None)
      ensures !Open(a[i]) ==> c[i] == a[i]
    {
      assert b[i].(consumedAt := None, revokedAt := None) == a[i].(consumedAt := None, revokedAt := None);
    }
  }

  /** Over any run, consumed and revoked are final. */
  lemma {:induction false} ConsumedAndRevokedAreFinal(records: seq<Approval>, runtimeId: Text, ops: seq<Op>, more: seq<Op>)
    ensures Kept(Run(records, runtimeId, ops).records, Run(records, runtimeId, ops + more).records)
    decreases |more|
  {
    if more == [] {
      assert ops + more == ops;
    } else {
      var n := |more| - 1;
      ConsumedAndRevokedAreFinal(records, runtimeId, ops, more[..n]);
      var all := ops + more;
      assert all[..|all| - 1] == ops + more[..n];
      var before := Run(records, runtimeId, ops + more[..n]).records;
      ApplyKeeps(before, runtimeId, more[n]);
      KeptTransitive(Run(records, runtimeId, ops).records, before, Run(records, runtimeId, all).records);
    }
  }

  // ---------------------------------------------------------------------------------------
  // One grant, one use

  /** What a grant is for. */
  datatype Key = Key(taskId: Text, agentId: Text, toolName: Text, digest: Text)

  function KeyOf(r: Approval): Key {
    Key(r.taskId, r.agentId, r.toolName, r.payloadDigest)
  }

  function Grants(records: seq<Approval>, key: Key): nat {
    if records == [] then 0
    else Grants(records[..|records| - 1], key) + if KeyOf(records[|records| - 1]) == key then 1 else 0
  }

  function Spent(records: seq<Approval>, key: Key): nat {
    if records == [] then 0
    else
      var r := records[|records| - 1];
      Spent(records[..|records| - 1], key) + if KeyOf(r) == key && r.consumedAt.Some? then 1 else 0
  }

  /** What a call asks for. */
  function CallKey(op: Op): Option<Key> {
    if op.Consume? && op.digest.Some? then Some(Key(op.taskId, op.agentId, op.toolName, op.digest.value)) else None
  }

  /** What an approval is asked for. */
  function GrantKey(op: Op): Option<Key> {
    if op.Approve? && op.digest.Some? then Some(Key(op.taskId, op.agentId, op.toolName, op.digest.value)) else None
  }

  /** Approved calls for this task, agent, tool and payload. */
  function Uses(ops: seq<Op>, replies: seq<Reply>, key: Key): nat
    requires |ops| == |replies|
  {
    if ops == [] then 0
    else
      var n := |ops| - 1;
      Uses(ops[..n], replies[..n], key) + if replies[n].Approved? && CallKey(ops[n]) == Some(key) then 1 else 0
  }

  /** Granted approvals for this task, agent, tool and payload. */
  function GrantedOps(ops: seq<Op>, replies: seq<Reply>, key: Key): nat
    requires |ops| == |replies|
  {
    if ops == [] then 0
    else
      var n := |ops| - 1;
      GrantedOps(ops[..n], replies[..n], key) + if replies[n].Granted? && GrantKey(ops[n]) == Some(key) then 1 else 0
  }

  lemma {:induction false} SpentUpdate(records: seq<Approval>, i: nat, r: Approval, key: Key)
    requires i < |records| && KeyOf(r) == KeyOf(records[i])
    ensures Grants(records[i := r], key) == Grants(records, key)
    ensures Spent(records[i := r], key) == Spent(records, key)
      + (if KeyOf(r) == key && r.consumedAt.Some? then 1 else 0)
      - (if KeyOf(r) == key && records[i].consumedAt.Some? then 1 else 0)
  {
    var n := |records| - 1;
    if i < n {
      SpentUpdate(records[..n], i, r, key);
      assert records[i := r][..n] == records[..n][i := r];
    } else {
      assert records[i := r][..n] == records[..n];
    }
  }

  lemma GrantPush(records: seq<Approval>, r: Approval, key: Key)
    requires r.consumedAt.None?
    ensures Spent(records + [r], key) == Spent(records, key)
    ensures Grants(records + [r], key) == Grants(records, key) + if KeyOf(r) == key then 1 else 0
  {
    assert (records + [r])[..|records|] == records;
  }

  /** An operation spends as many records for a key as it approves calls for it, and adds as many as it grants for it. */
  lemma ApplySpends(records: seq<Approval>, runtimeId: Text, op: Op, key: Key)
    ensures var (after, reply) := Apply(records, runtimeId, op);
            && Spent(after, key) == Spent(records, key) + (if reply.Approved? && CallKey(op) == Some(key) then 1 else 0)
            && Grants(after, key) == Grants(records, key) + (if reply.Granted? && GrantKey(op) == Some(key) then 1 else 0)
  {
    var (after, reply) := Apply(records, runtimeId, op);
    match reply {
      case Granted(record) => GrantPush(records, record, key);
      case Revoked(done) =>
        if done {
          var i := FindId(records, op.id);
          SpentUpdate(records, i, after[i], key);
        }
      case Approved(approval) =>
        var i := FindUsable(records, op);
        SpentUpdate(records, i, after[i], key);
      case _ =>
    }
  }

  lemma {:induction false} SpentAtMostGranted(records: seq<Approval>, key: Key)
    ensures Spent(records, key) <= Grants(records, key)
  {
    if records != [] {
      SpentAtMostGranted(records[..|records| - 1], key);
    }
  }

  /**
    From an empty file: the calls approved for a task, agent, tool and payload are exactly the records
    consumed for it, and so never outnumber the approvals granted for it.
  */
  lemma {:induction false} UsesAreGranted(runtimeId: Text, ops: seq<Op>, key: Key)
    ensures var end := Run([], runtimeId, ops);
            Uses(ops, end.replies, key) == Spent(end.records, key) <= Grants(end.records, key) == GrantedOps(ops, end.replies, key)
    decreases |ops|
  {
    var end := Run([], runtimeId, ops);
    SpentAtMostGranted(end.records, key);
    if ops != [] {
      var n := |ops| - 1;
      UsesAreGranted(runtimeId, ops[..n], key);
      var before := Run([], runtimeId, ops[..n]);
      ApplySpends(before.records, runtimeId, ops[n], key);
      assert end.replies[..n] == before.replies;
    }
  }

  /** An id, and the place of its record once it was used. */
  predicate UsedAt(records: seq<Approval>, i: nat, id: Text) {
    i < |records| && records[i].approvalId == id && records[i].consumedAt.Some?
  }

  lemma {:induction false} ApprovedWereUsed(records: seq<Approval>, runtimeId: Text, ops: seq<Op>, k: nat)
    requires NonEmpty(runtimeId) && ValidState(records, runtimeId)
    requires k < |ops| && Run(records, runtimeId, ops).replies[k].Approved?
    ensures var end := Run(records, runtimeId, ops);
            exists i :: UsedAt(end.records, i, end.replies[k].approval.approvalId)
    decreases |ops|
  {
    var n := |ops| - 1;
    var before, end := Run(records, runtimeId, ops[..n]), Run(records, runtimeId, ops);
    var op := ops[n];
    if k < n {
      ApprovedWereUsed(records, runtimeId, ops[..n], k);
      var i :| UsedAt(before.records, i, before.replies[k].approval.approvalId);
      ApplyKeeps(before.records, runtimeId, op);
      assert UsedAt(end.records, i, end.replies[k].approval.approvalId);
    } else {
      var i := FindUsable(before.records, op);
      assert UsedAt(end.records, i, end.replies[k].approval.approvalId);
    }
  }

  /** No two approved calls, of whatever processes, were approved by one record. */
  lemma {:induction false} ApprovalsAreDistinct(records: seq<Approval>, runtimeId: Text, ops: seq<Op>, j: nat, k: nat)
    requires NonEmpty(runtimeId) && ValidState(records, runtimeId)
    requires j < k < |ops|
    requires var replies := Run(records, runtimeId, ops).replies; replies[j].Approved? && replies[k].Approved?
    ensures var replies := Run(records, runtimeId, ops).replies;
            replies[j].approval.approvalId != replies[k].approval.approvalId
    decreases |ops|
  {
    var n := |ops| - 1;
    var before, end := Run(records, runtimeId, ops[..n]), Run(records, runtimeId, ops);
    if k < n {
      ApprovalsAreDistinct(records, runtimeId, ops[..n], j, k);
    } else {
      ApprovedWereUsed(records, runtimeId, ops[..n], j);
      EveryWrittenStateLoads(records, runtimeId, ops[..n]);
      var i :| UsedAt(before.records, i, before.replies[j].approval.approvalId);
      var m := FindUsable(before.records, ops[n]);
      assert i != m;
    }
  }

  // ---------------------------------------------------------------------------------------
  // A grant is for one call

  /** The record grants exactly this call: same runtime, task, agent, tool and payload, and it is open and current. */
  predicate GrantsCall(r: Approval, runtimeId: Text, key: Key, now: int) {
    && r.runtimeId == runtimeId && KeyOf(r) == key
    && r.consumedAt == None && r.revokedAt == None
    && r.grantedAt <= now && (r.expiresAt == None || r.expiresAt.value > now)
  }

  predicate ProperCall(op: Op, runtimeId: Text) {
    && op.Consume? && op.runtimeId == runtimeId && op.now.Some? && op.digest.Some?
    && NonEmpty(op.runtimeId) && NonEmpty(op.taskId) && NonEmpty(op.agentId) && NonEmpty(op.toolName)
  }

  /** A call is approved exactly if some record grants exactly this call; that record alone is consumed, now. */
  lemma ApprovedExactlyIfGranted(records: seq<Approval>, runtimeId: Text, op: Op)
    requires op.Consume?
    ensures var (after, reply) := Apply(records, runtimeId, op);
            && (reply.Approved? <==>
                 ProperCall(op, runtimeId) &&
                 exists i :: 0 <= i < |records| && GrantsCall(records[i], runtimeId, CallKey(op).value, op.now.value))
            && (reply.Approved? ==>
                 exists i :: 0 <= i < |records| && GrantsCall(records[i], runtimeId, CallKey(op).value, op.now.value) &&
                             reply.approval == records[i].(consumedAt := op.now) && after == records[i := reply.approval])
            && (!reply.Approved? ==> reply == Denied && after == records)
  {
    if ProperCall(op, runtimeId) {
      var i := FindUsable(records, op);
      if i < |records| {
        assert GrantsCall(records[i], runtimeId, CallKey(op).value, op.now.value);
      }
      forall k | 0 <= k < i ensures !GrantsCall(records[k], runtimeId, CallKey(op).value, op.now.value) {
        assert !Usable(records[k], op.runtimeId, op.taskId, op.agentId, op.toolName, op.digest.value, op.now.value);
      }
    }
  }

  /** An approval is granted exactly for a complete request with a new id and an expiry still to come; nothing else is touched. */
  lemma ApproveGrantsExactly(records: seq<Approval>, runtimeId: Text, op: Op)
    requires op.Approve?
    ensures var (after, reply) := Apply(records, runtimeId, op);
            && (reply.Granted? <==>
                 && NonEmpty(op.id) && NonEmpty(op.taskId) && NonEmpty(op.agentId) && NonEmpty(op.toolName)
                 && op.digest.Some? && op.now.Some?
                 && (forall i :: 0 <= i < |records| ==> records[i].approvalId != op.id)
                 && (op.expires == Never || (op.expires.AtInstant? && op.expires.t > op.now.value)))
            && (reply.Granted? ==>
                 && after == records + [reply.record]
                 && reply.record.approvalId == op.id && reply.record.runtimeId == runtimeId
                 && KeyOf(reply.record) == Key(op.taskId, op.agentId, op.toolName, op.digest.value)
                 && reply.record.grantedAt == op.now.value && Open(reply.record)
                 && reply.record.expiresAt == (if op.expires == Never then None else Some(op.expires.t)))
            && (!reply.Granted? ==> reply == Refused && after == records)
  {
    if FindId(records, op.id) < |records| {
      assert records[FindId(records, op.id)].approvalId == op.id;
    }
  }

  /** A revocation works exactly on an open record of that id, not before its grant; it marks that record and no other. */
  lemma RevokeWorksExactly(records: seq<Approval>, runtimeId: Text, op: Op)
    requires op.Revoke? && ValidState(records, runtimeId)
    ensures var (after, reply) := Apply(records, runtimeId, op);
            && (reply == Revoked(true) <==>
                 NonEmpty(op.id) && op.now.Some? &&
                 exists i :: 0 <= i < |records| && records[i].approvalId == op.id && records[i].consumedAt == None &&
                             records[i].revokedAt == None && records[i].grantedAt <= op.now.value)
            && (reply == Revoked(true) ==>
                 exists i :: 0 <= i < |records| && records[i].approvalId == op.id &&
                             after == records[i := records[i].(revokedAt := op.now)])
            && (reply != Revoked(true) ==> after == records && (reply == Refused || reply == Revoked(false)))
  {
    var k := FindId(records, op.id);
    if i :| 0 <= i < |records| && records[i].approvalId == op.id {
      assert k == i;
    }
  }

  /** A record that somebody changed against its own rules no longer loads; nor does one written twice. */
  lemma TamperedRecordIsRefused(r: Approval, runtimeId: Text, other: Text, t: int, u: int)
    requires ValidRecord(r, runtimeId)
    ensures other != runtimeId ==> !ValidRecord(r.(runtimeId := other), runtimeId)
    ensures t <= r.grantedAt ==> !ValidRecord(r.(expiresAt := Some(t)), runtimeId)
    ensures t < r.grantedAt ==> !ValidRecord(r.(consumedAt := Some(t)), runtimeId) && !ValidRecord(r.(revokedAt := Some(t)), runtimeId)
    ensures r.expiresAt.Some? && t >= r.expiresAt.value ==> !ValidRecord(r.(consumedAt := Some(t)), runtimeId)
    ensures !ValidRecord(r.(consumedAt := Some(t), revokedAt := Some(u)), runtimeId)
    ensures !IsSha256Hex(other) ==> !ValidRecord(r.(payloadDigest := other), runtimeId)
    ensures !NonEmpty(other) ==> !ValidRecord(r.(approvalId := other), runtimeId) && !ValidRecord(r.(taskId := other), runtimeId) &&
                                 !ValidRecord(r.(agentId := other), runtimeId) && !ValidRecord(r.(toolName := other), runtimeId)
    ensures !ValidState([r, r], runtimeId)
  {
    assert [r, r][0].approvalId == [r, r][1].approvalId;
  }

  /** A record as it was granted. */
  function AsGranted(r: Approval): Approval {
    r.(consumedAt := None, revokedAt := None)
  }

  /** The approval operation with this number granted this record. */
  predicate GrantedBy(ops: seq<Op>, replies: seq<Reply>, j: nat, r: Approval) {
    && j < |ops| && j < |replies| && ops[j].Approve? && replies[j] == Granted(AsGranted(r))
    && ops[j].id == r.approvalId && GrantKey(ops[j]) == Some(KeyOf(r)) && ops[j].now == Some(r.grantedAt)
    && r.expiresAt == (if ops[j].expires.AtInstant? then Some(ops[j].expires.t) else None) && !ops[j].expires.Malformed?
  }

  predicate WasGranted(ops: seq<Op>, replies: seq<Reply>, r: Approval) {
    exists j :: 0 <= j < |ops| && GrantedBy(ops, replies, j, r)
  }

  predicate AllGranted(ops: seq<Op>, replies: seq<Reply>, records: seq<Approval>) {
    forall i :: 0 <= i < |records| ==> WasGranted(ops, replies, records[i])
  }

  lemma OldRecordWasGranted(ops: seq<Op>, replies: seq<Reply>, r: Approval, op: Op, reply: Reply, r': Approval)
    requires WasGranted(ops, replies, r) && AsGranted(r') == AsGranted(r)
    ensures WasGranted(ops + [op], replies + [reply], r')
  {
    var j :| 0 <= j < |ops| && GrantedBy(ops, replies, j, r);
    StaysGranted(ops, replies, j, r, op, reply, r');
  }

  lemma NewRecordWasGranted(ops: seq<Op>, replies: seq<Reply>, op: Op, runtimeId: Text)
    requires |ops| == |replies| && op.Approve? && op.digest.Some? && op.now.Some? && !op.expires.Malformed?
    ensures WasGranted(ops + [op], replies + [Granted(NewRecord(op, runtimeId))], NewRecord(op, runtimeId))
  {
    assert GrantedBy(ops + [op], replies + [Granted(NewRecord(op, runtimeId))], |ops|, NewRecord(op, runtimeId));
  }

  lemma GrantedPush(ops: seq<Op>, before: Outcome, op: Op, runtimeId: Text)
    requires |ops| == |before.replies| && AllGranted(ops, before.replies, before.records)
    ensures var (after, reply) := Apply(before.records, runtimeId, op);
            AllGranted(ops + [op], before.replies + [reply], after)
  {
    var (after, reply) := Apply(before.records, runtimeId, op);
    ApplyKeeps(before.records, runtimeId, op);
    forall i | 0 <= i < |after| ensures WasGranted(ops + [op], before.replies + [reply], after[i]) {
      if i < |before.records| {
        OldRecordWasGranted(ops, before.replies, before.records[i], op, reply, after[i]);
      } else {
        NewRecordWasGranted(ops, before.replies, op, runtimeId);
      }
    }
  }

  /** In a store that began empty every record goes back to an approval with its values. */
  lemma {:induction false} RecordsWereGranted(runtimeId: Text, ops: seq<Op>)
    ensures var end := Run([], runtimeId, ops); AllGranted(ops, end.replies, end.records)
    decreases |ops|
  {
    if ops != [] {
      var n := |ops| - 1;
      RecordsWereGranted(runtimeId, ops[..n]);
      GrantedPush(ops[..n], Run([], runtimeId, ops[..n]), ops[n], runtimeId);
      assert ops == ops[..n] + [ops[n]];
    }
  }

  lemma StaysGranted(ops: seq<Op>, replies: seq<Reply>, j: nat, r: Approval, op: Op, reply: Reply, r': Approval)
    requires GrantedBy(ops, replies, j, r) && AsGranted(r') == AsGranted(r)
    ensures GrantedBy(ops + [op], replies + [reply], j, r')
  {
    assert AsGranted(r).approvalId == r'.approvalId && AsGranted(r).grantedAt == r'.grantedAt;
    assert KeyOf(AsGranted(r)) == KeyOf(r') && AsGranted(r).expiresAt == r'.expiresAt;
  }

  lemma {:induction false} RunPrefix(records: seq<Approval>, runtimeId: Text, ops: seq<Op>, m: nat)
    requires m <= |ops|
    ensures Run(records, runtimeId, ops[..m]).replies == Run(records, runtimeId, ops).replies[..m]
    decreases |ops|
  {
    if m == |ops| {
      assert ops[..m] == ops;
    } else {
      var n := |ops| - 1;
      RunPrefix(records, runtimeId, ops[..n], m);
      assert ops[..n][..m] == ops[..m];
    }
  }

  /** An id, and the place of its record once it was revoked. */
  predicate RevokedAt(records: seq<Approval>, i: nat, id: Text) {
    i < |records| && records[i].approvalId == id && records[i].revokedAt.Some?
  }

  predicate Revokes(op: Op, reply: Reply, id: Text) {
    op.Revoke? && op.id == id && reply == Revoked(true)
  }

  lemma {:induction false} RevokedWereRevoked(records: seq<Approval>, runtimeId: Text, ops: seq<Op>, k: nat, id: Text)
    requires k < |ops| && Revokes(ops[k], Run(records, runtimeId, ops).replies[k], id)
    ensures exists i :: RevokedAt(Run(records, runtimeId, ops).records, i, id)
    decreases |ops|
  {
    var n := |ops| - 1;
    var before, end := Run(records, runtimeId, ops[..n]), Run(records, runtimeId, ops);
    if k < n {
      RevokedWereRevoked(records, runtimeId, ops[..n], k, id);
      var i :| RevokedAt(before.records, i, id);
      ApplyKeeps(before.records, runtimeId, ops[n]);
      assert RevokedAt(end.records, i, id);
    } else {
      assert RevokedAt(end.records, FindId(before.records, id), id);
    }
  }

  /** The approval with this number is for exactly this call, and has this id. */
  predicate GrantFor(ops: seq<Op>, replies: seq<Reply>, j: nat, call: Op, id: Text) {
    && j < |ops| && j < |replies| && ops[j].Approve? && replies[j].Granted? && ops[j].id == id
    && GrantKey(ops[j]).Some? && GrantKey(ops[j]) == CallKey(call)
  }

  /** The record that the last call of a run consumes. */
  lemma {:induction false} LastCallFollowsGrant(runtimeId: Text, ops: seq<Op>)
    requires NonEmpty(runtimeId) && ops != [] && Run([], runtimeId, ops).replies[|ops| - 1].Approved?
    ensures var n, end := |ops| - 1, Run([], runtimeId, ops);
            var id := end.replies[n].approval.approvalId;
            && (exists j :: 0 <= j < n && GrantFor(ops[..n], Run([], runtimeId, ops[..n]).replies, j, ops[n], id))
            && (forall i :: 0 <= i < n ==> !Revokes(ops[i], Run([], runtimeId, ops[..n]).replies[i], id))
  {
    var n := |ops| - 1;
    var before, call := Run([], runtimeId, ops[..n]), ops[n];
    var id := Run([], runtimeId, ops).replies[n].approval.approvalId;
    var m := FindUsable(before.records, call);
    RecordsWereGranted(runtimeId, ops[..n]);
    assert WasGranted(ops[..n], before.replies, before.records[m]);
    var j :| 0 <= j < n && GrantedBy(ops[..n], before.replies, j, before.records[m]);
    assert GrantFor(ops[..n], before.replies, j, call, id);
    EveryWrittenStateLoads([], runtimeId, ops[..n]);
    assert forall x :: RevokedAt(before.records, x, id) ==> x == m;
    forall i | 0 <= i < n ensures !Revokes(ops[i], before.replies[i], id) {
      if Revokes(ops[i], before.replies[i], id) {
        assert ops[..n][i] == ops[i];
        RevokedWereRevoked([], runtimeId, ops[..n], i, id);
      }
    }
  }

  /**
    From an empty file: a call is approved only under an earlier approval, not revoked before, that was
    granted for exactly its task, agent, tool and payload.
  */
  lemma {:induction false} ApprovedFollowsGrant(runtimeId: Text, ops: seq<Op>, k: nat)
    requires NonEmpty(runtimeId) && k < |ops| && Run([], runtimeId, ops).replies[k].Approved?
    ensures var replies := Run([], runtimeId, ops).replies;
            var id := replies[k].approval.approvalId;
            && (exists j :: 0 <= j < k && GrantFor(ops, replies, j, ops[k], id))
            && (forall i :: 0 <= i < k ==> !Revokes(ops[i], replies[i], id))
  {
    var replies, front := Run([], runtimeId, ops).replies, ops[..k + 1];
    RunPrefix([], runtimeId, ops, k + 1);
    RunPrefix([], runtimeId, ops, k);
    assert front[..k] == ops[..k] && Run([], runtimeId, front).replies[k] == replies[k];
    LastCallFollowsGrant(runtimeId, front);
    var id, before := replies[k].approval.approvalId, Run([], runtimeId, ops[..k]).replies;
    var j :| 0 <= j < k && GrantFor(ops[..k], before, j, ops[k], id);
    assert GrantFor(ops, replies, j, ops[k], id);
    forall i | 0 <= i < k ensures !Revokes(ops[i], replies[i], id) {
      assert before[i] == replies[i] && front[i] == ops[i];
    }
  }

  /** Nothing done to this id: it was neither revoked nor used. */
  predicate Untouched(op: Op, reply: Reply, id: Text) {
    !Revokes(op, reply, id) && !(reply.Approved? && reply.approval.approvalId == id)
  }

  lemma UntouchedStays(records: seq<Approval>, runtimeId: Text, op: Op, i: nat)
    requires i < |records| && Untouched(op, Apply(records, runtimeId, op).1, records[i].approvalId)
    ensures Apply(records, runtimeId, op).0[i] == records[i]
  {
  }

  lemma {:induction false} UntouchedStaysOverRuns(records: seq<Approval>, runtimeId: Text, ops: seq<Op>, i: nat)
    requires i < |records|
    requires forall k :: 0 <= k < |ops| ==> Untouched(ops[k], Run(records, runtimeId, ops).replies[k], records[i].approvalId)
    ensures i < |Run(records, runtimeId, ops).records| && Run(records, runtimeId, ops).records[i] == records[i]
    decreases |ops|
  {
    if ops != [] {
      var n := |ops| - 1;
      var before, end := Run(records, runtimeId, ops[..n]), Run(records, runtimeId, ops);
      forall k | 0 <= k < n ensures Untouched(ops[..n][k], before.replies[k], records[i].approvalId) {
        assert end.replies[k] == before.replies[k];
        assert Untouched(ops[k], end.replies[k], records[i].approvalId);
      }
      UntouchedStaysOverRuns(records, runtimeId, ops[..n], i);
      assert Untouched(ops[n], end.replies[n], records[i].approvalId);
      UntouchedStays(before.records, runtimeId, ops[n], i);
    }
  }

  /** A granted approval can be used: as long as it was neither revoked nor used, a call for it in time is approved. */
  lemma {:induction false} GrantCanBeUsed(records: seq<Approval>, runtimeId: Text, grant: Op, ops: seq<Op>, call: Op)
    requires grant.Approve? && Apply(records, runtimeId, grant).1.Granted?
    requires var granted := Apply(records, runtimeId, grant).0;
             forall k :: 0 <= k < |ops| ==> Untouched(ops[k], Run(granted, runtimeId, ops).replies[k], grant.id)
    requires ProperCall(call, runtimeId) && CallKey(call) == GrantKey(grant)
    requires grant.now.value <= call.now.value && (grant.expires.AtInstant? ==> grant.expires.t > call.now.value)
    ensures Apply(Run(Apply(records, runtimeId, grant).0, runtimeId, ops).records, runtimeId, call).1.Approved?
  {
    var granted, i := Apply(records, runtimeId, grant).0, |records|;
    UntouchedStaysOverRuns(granted, runtimeId, ops, i);
    var end := Run(granted, runtimeId, ops).records;
    assert GrantsCall(end[i], runtimeId, CallKey(call).value, call.now.value);
    ApprovedExactlyIfGranted(end, runtimeId, call);
  }
}
