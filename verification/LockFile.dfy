/**
  How the JSON file stores make their operations atomic: an in-process queue, a lock directory
  created by mkdir, one read of the file, a temporary file, one rename, and the lock's removal
  (src/tasks/task-claim-store.ts:106-185, src/policies/json-file-tool-approval-store.ts:215-278).

  The machine below interleaves any number of clients in any number of processes, crashes and I/O
  failures, over any kind of contents `C`, operations `O` and replies `R`.  `Refines` shows that the
  file only ever holds the result of the committed operations in their order, and that every reply is
  the reply of an atomic operation at one point of it.  ClaimFile and ApprovalFile are its two uses.
*/
module LockFile {
  import opened Common

  type Pid = nat
  type Cid = nat

  /** What a store's operations mean on loaded contents. */
  type Meaning<!C, !O, R> = (C, O) -> Effect<C, R>

  /** An operation that does not rewrite the file leaves the contents as they were. */
  ghost predicate Honest<C(!new), O(!new), R>(apply: Meaning<C, O, R>) {
    forall contents, op :: !apply(contents, op).writes ==> apply(contents, op).contents == contents
  }

  /** A missing file reads as empty; what the store does not accept is corrupt. */
  datatype File<C> = Corrupt | Holds(contents: C)

  datatype Outcome<R> = Replied(reply: R) | Failed

  datatype Phase<C, R> =
    | Waiting                                          // queued, or retrying mkdir
    | Entered                                          // holds the lock directory, has read nothing
    | Loaded(contents: C)
    | Staged(next: C, reply: R)                        // the temporary file is complete
    | Leaving(outcome: Outcome<R>)                     // about to remove the lock directory
    | Returned(outcome: Outcome<R>)

  datatype Client<C, O, R> = Client(proc: Pid, op: O, phase: Phase<C, R>)

  datatype Entry<O, R> = Entry(client: Cid, op: O, reply: R)

  /** Clients are numbered in the order of their submission; `log` lists the committed operations. */
  datatype State<C, O, R> = State(
    file: File<C>,
    lockDir: bool,
    down: set<Pid>,
    clients: map<Cid, Client<C, O, R>>,
    nextCid: Cid,
    log: seq<Entry<O, R>>)

  datatype Step<O> =
    | Submit(p: Pid, op: O)
    | Mkdir(c: Cid)
    | GiveUp(c: Cid)                                   // STORAGE_LOCKED after the lock timeout, or mkdir fails
    | Read(c: Cid, ok: bool)                           // mkdir of the parent directory and readFile may fail
    | WriteTemp(c: Cid, ok: bool)
    | Rename(c: Cid, ok: bool)
    | Rmdir(c: Cid, ok: bool)
    | Crash(p: Pid)

  predicate Runs<C, O, R>(s: State<C, O, R>, c: Cid) {
    c in s.clients && s.clients[c].proc !in s.down
  }

  /** serializeFileOperation: an operation starts when the earlier ones of its process have settled. */
  predicate AtHead<C, O, R>(s: State<C, O, R>, c: Cid)
    requires c in s.clients
  {
    forall d :: d in s.clients && d < c && s.clients[d].proc == s.clients[c].proc ==> s.clients[d].phase.Returned?
  }

  predicate Enabled<C, O, R>(s: State<C, O, R>, step: Step<O>) {
    match step
    case Submit(p, _) => p !in s.down
    case Mkdir(c) => Runs(s, c) && s.clients[c].phase.Waiting? && AtHead(s, c) && !s.lockDir
    case GiveUp(c) => Runs(s, c) && s.clients[c].phase.Waiting? && AtHead(s, c)
    case Read(c, _) => Runs(s, c) && s.clients[c].phase.Entered?
    case WriteTemp(c, _) => Runs(s, c) && s.clients[c].phase.Loaded?
    case Rename(c, _) => Runs(s, c) && s.clients[c].phase.Staged?
    case Rmdir(c, _) => Runs(s, c) && s.clients[c].phase.Leaving?
    case Crash(p) => true
  }

  function Goto<C, O, R>(s: State<C, O, R>, c: Cid, phase: Phase<C, R>): State<C, O, R>
    requires c in s.clients
  {
    s.(clients := s.clients[c := s.clients[c].(phase := phase)])
  }

  function Commit<C, O, R>(s: State<C, O, R>, c: Cid, reply: R): State<C, O, R>
    requires c in s.clients
  {
    Goto(s, c, Leaving(Replied(reply))).(log := s.log + [Entry(c, s.clients[c].op, reply)])
  }

  function Next<C, O, R>(apply: Meaning<C, O, R>, s: State<C, O, R>, step: Step<O>): State<C, O, R>
    requires Enabled(s, step)
  {
    match step
    case Submit(p, op) => s.(clients := s.clients[s.nextCid := Client(p, op, Waiting)], nextCid := s.nextCid + 1)
    case Mkdir(c) => Goto(s, c, Entered).(lockDir := true)
    case GiveUp(c) => Goto(s, c, Returned(Failed))
    case Read(c, ok) =>
      if !ok || s.file.Corrupt? then Goto(s, c, Leaving(Failed)) else Goto(s, c, Loaded(s.file.contents))
    case WriteTemp(c, ok) =>
      var e := apply(s.clients[c].phase.contents, s.clients[c].op);
      if !e.writes then Commit(s, c, e.reply)
      else if ok then Goto(s, c, Staged(e.contents, e.reply))
      else Goto(s, c, Leaving(Failed))
    case Rename(c, ok) =>
      if ok then Commit(s, c, s.clients[c].phase.reply).(file := Holds(s.clients[c].phase.next))
      else Goto(s, c, Leaving(Failed))
    case Rmdir(c, ok) =>
      Goto(s, c, Returned(s.clients[c].phase.outcome)).(lockDir := if ok then false else s.lockDir)
    case Crash(p) => s.(down := s.down + {p})
  }

  ghost predicate Init<C, O, R>(s: State<C, O, R>) {
    !s.lockDir && s.down == {} && s.clients == map[] && s.nextCid == 0 && s.log == []
  }

  ghost predicate Path<C, O, R>(apply: Meaning<C, O, R>, s: State<C, O, R>, steps: seq<Step<O>>, end: State<C, O, R>)
    decreases |steps|
  {
    if steps == [] then s == end
    else Enabled(s, steps[0]) && Path(apply, Next(apply, s, steps[0]), steps[1..], end)
  }

  // ---------------------------------------------------------------------------------------
  // The atomic store: a file content and the operations applied to it, one after the other

  function Replay<C, O, R>(apply: Meaning<C, O, R>, contents: C, log: seq<Entry<O, R>>): C {
    if log == [] then contents
    else apply(Replay(apply, contents, log[..|log| - 1]), log[|log| - 1].op).contents
  }

  /** Every logged reply is the one the atomic operation gives at its place in the log. */
  ghost predicate RepliesMatch<C, O, R>(apply: Meaning<C, O, R>, contents: C, log: seq<Entry<O, R>>) {
    forall i :: 0 <= i < |log| ==> apply(Replay(apply, contents, log[..i]), log[i].op).reply == log[i].reply
  }

  predicate Inside<C, R>(phase: Phase<C, R>) {
    phase.Entered? || phase.Loaded? || phase.Staged? || phase.Leaving?
  }

  /** At most one client, running or crashed, is inside, and then the lock directory exists. */
  ghost predicate Exclusive<C, O, R>(s: State<C, O, R>) {
    && (forall c :: c in s.clients && Inside(s.clients[c].phase) ==> s.lockDir)
    && (forall c, d :: c in s.clients && d in s.clients && Inside(s.clients[c].phase) && Inside(s.clients[d].phase) ==>
          c == d)
  }

  /** What a client inside holds in memory is what the file says. */
  ghost predicate Current<C, O, R>(apply: Meaning<C, O, R>, s: State<C, O, R>) {
    forall c :: c in s.clients ==>
                  match s.clients[c].phase
                  case Loaded(contents) => s.file == Holds(contents)
                  case Staged(next, reply) =>
                    s.file.Holds? && apply(s.file.contents, s.clients[c].op) == Effect(next, reply, true)
                  case _ => true
  }

  predicate Succeeded<C, O, R>(client: Client<C, O, R>) {
    (client.phase.Leaving? || client.phase.Returned?) && client.phase.outcome.Replied?
  }

  ghost predicate InLog<O, R>(log: seq<Entry<O, R>>, c: Cid) {
    exists i :: 0 <= i < |log| && log[i].client == c
  }

  /** The log holds exactly the operations that succeeded, once each, with the replies they return. */
  ghost predicate Logged<C, O, R>(s: State<C, O, R>) {
    && (forall i :: 0 <= i < |s.log| ==>
          s.log[i].client in s.clients && s.log[i].op == s.clients[s.log[i].client].op &&
          Succeeded(s.clients[s.log[i].client]) &&
          s.clients[s.log[i].client].phase.outcome.reply == s.log[i].reply)
    && (forall c :: c in s.clients && Succeeded(s.clients[c]) ==> InLog(s.log, c))
    && (forall i, j :: 0 <= i < j < |s.log| ==> s.log[i].client != s.log[j].client)
  }

  /** Operations of one process commit in the order of their submission. */
  ghost predicate InOrder<C, O, R>(s: State<C, O, R>) {
    && (forall c :: c in s.clients ==> c < s.nextCid && (s.clients[c].phase.Waiting? || AtHead(s, c)))
    && (forall i, j :: 0 <= i < j < |s.log| && s.log[i].client in s.clients && s.log[j].client in s.clients &&
                       s.clients[s.log[i].client].proc == s.clients[s.log[j].client].proc ==>
                         s.log[i].client < s.log[j].client)
  }

  ghost predicate Inv<C, O, R>(apply: Meaning<C, O, R>, s: State<C, O, R>) {
    Exclusive(s) && Current(apply, s) && Logged(s) && InOrder(s)
  }

  /** Moving one client without committing keeps the log and the order right. */
  lemma GotoKeepsLog<C, O, R>(s: State<C, O, R>, c: Cid, phase: Phase<C, R>)
    requires Logged(s) && InOrder(s) && c in s.clients && AtHead(s, c)
    requires Succeeded(s.clients[c].(phase := phase)) <==> Succeeded(s.clients[c])
    requires Succeeded(s.clients[c]) ==> phase.outcome == s.clients[c].phase.outcome
    requires s.clients[c].phase.Returned? ==> phase.Returned?
    ensures Logged(Goto(s, c, phase)) && InOrder(Goto(s, c, phase))
  {
  }

  lemma SubmitKeepsInv<C, O, R>(apply: Meaning<C, O, R>, s: State<C, O, R>, p: Pid, op: O)
    requires Inv(apply, s) && Enabled(s, Submit(p, op))
    ensures Inv(apply, Next(apply, s, Submit(p, op)))
  {
  }

  lemma MkdirKeepsInv<C, O, R>(apply: Meaning<C, O, R>, s: State<C, O, R>, c: Cid)
    requires Inv(apply, s) && Enabled(s, Mkdir(c))
    ensures Inv(apply, Next(apply, s, Mkdir(c)))
  {
    GotoKeepsLog(s, c, Entered);
  }

  lemma QuietStepKeepsInv<C, O, R>(apply: Meaning<C, O, R>, s: State<C, O, R>, step: Step<O>)
    requires Inv(apply, s) && Enabled(s, step) && (step.GiveUp? || step.Read? || step.Rmdir?)
    ensures Inv(apply, Next(apply, s, step))
  {
    GotoKeepsLog(s, step.c, Next(apply, s, step).clients[step.c].phase);
  }

  lemma CommitKeepsLogged<C, O, R>(s: State<C, O, R>, c: Cid, reply: R)
    requires Logged(s) && c in s.clients && Inside(s.clients[c].phase) && !s.clients[c].phase.Leaving?
    ensures Logged(Commit(s, c, reply))
  {
    var s' := Commit(s, c, reply);
    assert s'.log[|s.log|].client == c;
    forall d | d in s'.clients && Succeeded(s'.clients[d]) ensures InLog(s'.log, d) {
      if d != c {
        var i :| 0 <= i < |s.log| && s.log[i].client == d;
        assert s'.log[i].client == d;
      }
    }
    forall i | 0 <= i < |s.log| ensures s.log[i].client != c {
      assert Succeeded(s.clients[s.log[i].client]);
    }
  }

  lemma CommitKeepsOrder<C, O, R>(s: State<C, O, R>, c: Cid, reply: R)
    requires Logged(s) && InOrder(s) && c in s.clients
    requires Inside(s.clients[c].phase) && !s.clients[c].phase.Leaving?
    ensures InOrder(Commit(s, c, reply))
  {
    forall i | 0 <= i < |s.log| && s.clients[s.log[i].client].proc == s.clients[c].proc ensures s.log[i].client < c {
      assert Succeeded(s.clients[s.log[i].client]);
      assert AtHead(s, s.log[i].client);
    }
  }

  lemma WriteTempKeepsInv<C, O, R>(apply: Meaning<C, O, R>, s: State<C, O, R>, c: Cid, ok: bool)
    requires Inv(apply, s) && Enabled(s, WriteTemp(c, ok))
    ensures Inv(apply, Next(apply, s, WriteTemp(c, ok)))
  {
    var e := apply(s.clients[c].phase.contents, s.clients[c].op);
    if !e.writes {
      CommitKeepsLogged(s, c, e.reply);
      CommitKeepsOrder(s, c, e.reply);
    } else {
      GotoKeepsLog(s, c, Next(apply, s, WriteTemp(c, ok)).clients[c].phase);
    }
  }

  lemma RenameKeepsInv<C, O, R>(apply: Meaning<C, O, R>, s: State<C, O, R>, c: Cid, ok: bool)
    requires Inv(apply, s) && Enabled(s, Rename(c, ok))
    ensures Inv(apply, Next(apply, s, Rename(c, ok)))
  {
    if ok {
      CommitKeepsLogged(s, c, s.clients[c].phase.reply);
      CommitKeepsOrder(s, c, s.clients[c].phase.reply);
    } else {
      GotoKeepsLog(s, c, Leaving(Failed));
    }
  }

  lemma StepKeepsInv<C, O, R>(apply: Meaning<C, O, R>, s: State<C, O, R>, step: Step<O>)
    requires Inv(apply, s) && Enabled(s, step)
    ensures Inv(apply, Next(apply, s, step))
  {
    match step
    case Submit(p, op) => SubmitKeepsInv(apply, s, p, op);
    case Mkdir(c) => MkdirKeepsInv(apply, s, c);
    case WriteTemp(c, ok) => WriteTempKeepsInv(apply, s, c, ok);
    case Rename(c, ok) => RenameKeepsInv(apply, s, c, ok);
    case Crash(_) =>
    case _ => QuietStepKeepsInv(apply, s, step);
  }

  // ---------------------------------------------------------------------------------------
  // Refinement

  /** The file is the replay of the log, and so is every logged reply. */
  ghost predicate FollowsLog<C, O, R>(apply: Meaning<C, O, R>, init: C, s: State<C, O, R>) {
    s.file == Holds(Replay(apply, init, s.log)) && RepliesMatch(apply, init, s.log)
  }

  lemma CommitFollowsLog<C, O, R>(apply: Meaning<C, O, R>, init: C, log: seq<Entry<O, R>>, e: Entry<O, R>)
    requires RepliesMatch(apply, init, log) && apply(Replay(apply, init, log), e.op).reply == e.reply
    ensures Replay(apply, init, log + [e]) == apply(Replay(apply, init, log), e.op).contents
    ensures RepliesMatch(apply, init, log + [e])
  {
    var log' := log + [e];
    assert log'[..|log|] == log;
    forall i | 0 <= i < |log'| ensures apply(Replay(apply, init, log'[..i]), log'[i].op).reply == log'[i].reply {
      assert i < |log| ==> log'[..i] == log[..i];
    }
  }

  lemma StepFollowsLog<C(!new), O(!new), R>(apply: Meaning<C, O, R>, init: C, s: State<C, O, R>, step: Step<O>)
    requires Honest(apply) && Inv(apply, s) && FollowsLog(apply, init, s) && Enabled(s, step)
    ensures FollowsLog(apply, init, Next(apply, s, step))
  {
    match step
    case WriteTemp(c, _) =>
      var e := apply(s.clients[c].phase.contents, s.clients[c].op);
      if !e.writes {
        CommitFollowsLog(apply, init, s.log, Entry(c, s.clients[c].op, e.reply));
      }
    case Rename(c, ok) =>
      CommitFollowsLog(apply, init, s.log, Entry(c, s.clients[c].op, s.clients[c].phase.reply));
    case _ =>
  }

  lemma {:induction false} PathKeepsAll<C(!new), O(!new), R>(apply: Meaning<C, O, R>, init: C, s: State<C, O, R>, steps: seq<Step<O>>, end: State<C, O, R>)
    requires Honest(apply) && Inv(apply, s) && FollowsLog(apply, init, s) && Path(apply, s, steps, end)
    ensures Inv(apply, end) && FollowsLog(apply, init, end)
    decreases |steps|
  {
    if steps != [] {
      StepKeepsInv(apply, s, steps[0]);
      StepFollowsLog(apply, init, s, steps[0]);
      PathKeepsAll(apply, init, Next(apply, s, steps[0]), steps[1..], end);
    }
  }

  /**
    From a readable file, whatever the clients, crashes and I/O failures: the file is exactly the
    committed operations applied in order (no update is lost, and a crash leaves the state before
    or after the whole operation); a client that returned a reply has exactly one entry in the log,
    with that reply; one that failed has none; one process's operations commit in order; and never
    are two clients inside the lock.
  */
  lemma Refines<C(!new), O(!new), R>(apply: Meaning<C, O, R>, init: C, s: State<C, O, R>, steps: seq<Step<O>>, end: State<C, O, R>)
    requires Honest(apply) && Init(s) && s.file == Holds(init) && Path(apply, s, steps, end)
    ensures end.file == Holds(Replay(apply, init, end.log)) && RepliesMatch(apply, init, end.log)
    ensures Logged(end) && InOrder(end) && Exclusive(end)
    ensures forall c :: c in end.clients && end.clients[c].phase == Returned(Failed) ==> !InLog(end.log, c)
  {
    PathKeepsAll(apply, init, s, steps, end);
  }

  lemma {:induction false} PathTrans<C, O, R>(apply: Meaning<C, O, R>, s: State<C, O, R>, steps: seq<Step<O>>,
                                              mid: State<C, O, R>, more: seq<Step<O>>, end: State<C, O, R>)
    requires Path(apply, s, steps, mid) && Path(apply, mid, more, end)
    ensures Path(apply, s, steps + more, end)
    decreases |steps|
  {
    if steps == [] {
      assert steps + more == more;
    } else {
      PathTrans(apply, Next(apply, s, steps[0]), steps[1..], mid, more, end);
      assert (steps + more)[1..] == steps[1..] + more;
    }
  }

  /** What has been committed stays committed. */
  lemma {:induction false} LogGrows<C, O, R>(apply: Meaning<C, O, R>, s: State<C, O, R>, steps: seq<Step<O>>, end: State<C, O, R>)
    requires Path(apply, s, steps, end)
    ensures |s.log| <= |end.log| && end.log[..|s.log|] == s.log
    decreases |steps|
  {
    if steps != [] {
      LogGrows(apply, Next(apply, s, steps[0]), steps[1..], end);
    }
  }

  /** A corrupt file is never overwritten: every operation on it fails. */
  lemma {:induction false} CorruptFileStays<C, O, R>(apply: Meaning<C, O, R>, s: State<C, O, R>, steps: seq<Step<O>>, end: State<C, O, R>)
    requires s.file.Corrupt? && s.log == [] && Inv(apply, s) && Path(apply, s, steps, end)
    ensures end.file.Corrupt? && end.log == []
    decreases |steps|
  {
    if steps != [] {
      StepKeepsInv(apply, s, steps[0]);
      CorruptFileStays(apply, Next(apply, s, steps[0]), steps[1..], end);
    }
  }

  /** The lock directory is there and nobody who still runs will remove it. */
  ghost predicate Stranded<C, O, R>(s: State<C, O, R>) {
    s.lockDir && forall c :: c in s.clients && Runs(s, c) ==> !Inside(s.clients[c].phase)
  }

  /** A crash inside, or a failed removal, leaves a lock that only blocks: nothing commits any more. */
  lemma {:induction false} StrandedLockBlocks<C, O, R>(apply: Meaning<C, O, R>, s: State<C, O, R>, steps: seq<Step<O>>, end: State<C, O, R>)
    requires Stranded(s) && Path(apply, s, steps, end)
    ensures Stranded(end) && end.file == s.file && end.log == s.log
    decreases |steps|
  {
    if steps != [] {
      StrandedLockBlocks(apply, Next(apply, s, steps[0]), steps[1..], end);
    }
  }

  /** If the client inside has crashed, or its rmdir failed, the lock is stranded. */
  lemma CrashInsideStrands<C, O, R>(apply: Meaning<C, O, R>, s: State<C, O, R>, c: Cid)
    requires Inv(apply, s) && c in s.clients && Inside(s.clients[c].phase) && s.clients[c].proc in s.down
    ensures Stranded(s)
  {
  }

  lemma FailedRemovalStrands<C, O, R>(apply: Meaning<C, O, R>, s: State<C, O, R>, c: Cid)
    requires Inv(apply, s) && Enabled(s, Rmdir(c, false))
    ensures Stranded(Next(apply, s, Rmdir(c, false)))
  {
  }

  // ---------------------------------------------------------------------------------------
  // The lock is not only safe: operations get in, and get their reply

  /** The client may try mkdir: it runs, waits, and the earlier operations of its process have settled. */
  predicate Ready<C, O, R>(s: State<C, O, R>, c: Cid) {
    Runs(s, c) && s.clients[c].phase.Waiting? && AtHead(s, c)
  }

  /** The client has its reply, the file what the operation made of it, and the lock is free again. */
  function Completed<C, O, R>(apply: Meaning<C, O, R>, s: State<C, O, R>, c: Cid, contents: C): State<C, O, R>
    requires c in s.clients
  {
    var e := apply(contents, s.clients[c].op);
    Goto(s, c, Returned(Replied(e.reply))).(
      file := Holds(e.contents), lockDir := false, log := s.log + [Entry(c, s.clients[c].op, e.reply)])
  }

  lemma PathStep<C, O, R>(apply: Meaning<C, O, R>, s: State<C, O, R>, step: Step<O>, steps: seq<Step<O>>, end: State<C, O, R>)
    requires Enabled(s, step) && Path(apply, Next(apply, s, step), steps, end)
    ensures Path(apply, s, [step] + steps, end)
  {
    assert ([step] + steps)[1..] == steps;
  }

  lemma Leaves<C, O, R>(apply: Meaning<C, O, R>, s: State<C, O, R>, c: Cid, reply: R)
    requires Runs(s, c) && s.clients[c].phase == Leaving(Replied(reply))
    ensures Path(apply, s, [Rmdir(c, true)] + [], Goto(s, c, Returned(Replied(reply))).(lockDir := false))
  {
    var end := Next(apply, s, Rmdir(c, true));
    assert Path(apply, end, [], end);
    PathStep(apply, s, Rmdir(c, true), [], end);
  }

  lemma Publishes<C(!new), O(!new), R>(apply: Meaning<C, O, R>, s: State<C, O, R>, c: Cid, contents: C)
    requires Honest(apply) && Runs(s, c) && s.clients[c].phase == Loaded(contents) && s.file == Holds(contents)
    ensures apply(contents, s.clients[c].op).writes ==>
              Path(apply, s, [WriteTemp(c, true)] + ([Rename(c, true)] + ([Rmdir(c, true)] + [])), Completed(apply, s, c, contents))
    ensures !apply(contents, s.clients[c].op).writes ==>
              Path(apply, s, [WriteTemp(c, true)] + ([Rmdir(c, true)] + []), Completed(apply, s, c, contents))
  {
    var end, e := Completed(apply, s, c, contents), apply(contents, s.clients[c].op);
    var s1 := Next(apply, s, WriteTemp(c, true));
    if e.writes {
      var s2 := Next(apply, s1, Rename(c, true));
      Leaves(apply, s2, c, e.reply);
      assert s2.clients[c := end.clients[c]] == end.clients;
      PathStep(apply, s1, Rename(c, true), [Rmdir(c, true)] + [], end);
      PathStep(apply, s, WriteTemp(c, true), [Rename(c, true)] + ([Rmdir(c, true)] + []), end);
    } else {
      Leaves(apply, s1, c, e.reply);
      assert s1.clients[c := end.clients[c]] == end.clients;
      PathStep(apply, s, WriteTemp(c, true), [Rmdir(c, true)] + [], end);
    }
  }

  function OperationSteps<O>(c: Cid, writes: bool): seq<Step<O>> {
    [Mkdir(c)] + ([Read(c, true)] +
                  if writes then [WriteTemp(c, true)] + ([Rename(c, true)] + ([Rmdir(c, true)] + []))
                  else [WriteTemp(c, true)] + ([Rmdir(c, true)] + []))
  }

  /** Whenever the lock is free, a client whose turn it is can complete its operation with the atomic reply and effect. */
  lemma OperationCompletes<C(!new), O(!new), R>(apply: Meaning<C, O, R>, s: State<C, O, R>, c: Cid, contents: C)
    requires Honest(apply) && Ready(s, c) && !s.lockDir && s.file == Holds(contents)
    ensures Path(apply, s, OperationSteps(c, apply(contents, s.clients[c].op).writes), Completed(apply, s, c, contents))
  {
    var end, writes := Completed(apply, s, c, contents), apply(contents, s.clients[c].op).writes;
    var s1 := Next(apply, s, Mkdir(c));
    var s2 := Next(apply, s1, Read(c, true));
    Publishes(apply, s2, c, contents);
    assert s2.clients[c := end.clients[c]] == end.clients;
    assert Completed(apply, s2, c, contents) == end;
    var rest: seq<Step<O>> :=
      if writes then [WriteTemp(c, true)] + ([Rename(c, true)] + ([Rmdir(c, true)] + []))
      else [WriteTemp(c, true)] + ([Rmdir(c, true)] + []);
    PathStep(apply, s1, Read(c, true), rest, end);
    PathStep(apply, s, Mkdir(c), [Read(c, true)] + rest, end);
  }

  /**
    From a fresh start, and whenever the lock is free and the process's earlier operations have
    settled: an operation submitted now can complete with the atomic reply and effect.
  */
  lemma SubmittedOperationCompletes<C(!new), O(!new), R>(apply: Meaning<C, O, R>, s: State<C, O, R>, p: Pid, op: O, contents: C)
    requires Honest(apply) && (Init(s) || Inv(apply, s)) && !s.lockDir && s.file == Holds(contents) && p !in s.down
    requires forall d :: d in s.clients && s.clients[d].proc == p ==> s.clients[d].phase.Returned?
    ensures var s1 := Next(apply, s, Submit(p, op));
            var end := Completed(apply, s1, s.nextCid, contents);
            && Path(apply, s, [Submit(p, op)] + OperationSteps(s.nextCid, apply(contents, op).writes), end)
            && end.file == Holds(apply(contents, op).contents) && !end.lockDir
            && end.clients[s.nextCid].phase == Returned(Replied(apply(contents, op).reply))
  {
    var s1 := Next(apply, s, Submit(p, op));
    var c := s.nextCid;
    assert Ready(s1, c);
    OperationCompletes(apply, s1, c, contents);
    PathStep(apply, s, Submit(p, op), OperationSteps(c, apply(contents, op).writes), Completed(apply, s1, c, contents));
  }

  /** A removal that succeeds frees the lock for any client whose turn it is. */
  lemma RemovalFreesLock<C, O, R>(apply: Meaning<C, O, R>, s: State<C, O, R>, c: Cid, d: Cid)
    requires Enabled(s, Rmdir(c, true)) && d != c && Ready(s, d)
    ensures Enabled(Next(apply, s, Rmdir(c, true)), Mkdir(d))
  {
  }

  /** Nobody of a crashed process takes a step any more. */
  lemma CrashIsFinal<C, O, R>(apply: Meaning<C, O, R>, s: State<C, O, R>, p: Pid, step: Step<O>)
    requires Enabled(Next(apply, s, Crash(p)), step) && !step.Crash?
    ensures if step.Submit? then step.p != p else step.c in s.clients && s.clients[step.c].proc != p
  {
  }

  /** The client that holds the lock, if its process runs, can leave it; so only crashes and failed removals strand it. */
  lemma HolderCanLeave<C(!new), O(!new), R>(apply: Meaning<C, O, R>, s: State<C, O, R>, c: Cid) returns (steps: seq<Step<O>>, end: State<C, O, R>)
    requires Inv(apply, s) && Runs(s, c) && Inside(s.clients[c].phase)
    ensures Path(apply, s, steps, end) && !end.lockDir && c in end.clients && end.clients[c].phase.Returned?
    ensures forall d :: d != c && d in s.clients ==> d in end.clients && end.clients[d] == s.clients[d]
    decreases if s.clients[c].phase.Entered? then 3 else if s.clients[c].phase.Loaded? then 2
              else if s.clients[c].phase.Staged? then 1 else 0
  {
    var step := if s.clients[c].phase.Entered? then Read(c, true) else if s.clients[c].phase.Loaded? then WriteTemp(c, true)
                else if s.clients[c].phase.Staged? then Rename(c, true) else Rmdir(c, true);
    var s1 := Next(apply, s, step);
    if step.Rmdir? {
      assert Path(apply, s1, [], s1);
      PathStep(apply, s, step, [], s1);
      steps, end := [step] + [], s1;
    } else {
      StepKeepsInv(apply, s, step);
      var rest;
      rest, end := HolderCanLeave(apply, s1, c);
      PathStep(apply, s, step, rest, end);
      steps := [step] + rest;
    }
  }

  /** A client whose lock attempt is given up has failed, and nothing else has changed. */
  lemma GiveUpFails<C, O, R>(apply: Meaning<C, O, R>, s: State<C, O, R>, c: Cid)
    requires Ready(s, c)
    ensures Enabled(s, GiveUp(c)) && Next(apply, s, GiveUp(c)) == Goto(s, c, Returned(Failed))
  {
  }

  /** An I/O error inside the lock, whether in reading, writing or renaming, fails the operation; the file stays and the lock is freed. */
  lemma ErrorFails<C, O, R>(apply: Meaning<C, O, R>, s: State<C, O, R>, c: Cid, error: Step<O>)
    requires Runs(s, c)
    requires (s.clients[c].phase.Entered? && error == Read(c, false)) ||
             (s.clients[c].phase.Loaded? && error == WriteTemp(c, false) && apply(s.clients[c].phase.contents, s.clients[c].op).writes) ||
             (s.clients[c].phase.Staged? && error == Rename(c, false))
    ensures Path(apply, s, [error] + ([Rmdir(c, true)] + []), Goto(s, c, Returned(Failed)).(lockDir := false))
  {
    var end := Goto(s, c, Returned(Failed)).(lockDir := false);
    var s1 := Goto(s, c, Leaving(Failed));
    assert Next(apply, s, error) == s1;
    assert s1.clients[c := end.clients[c]] == end.clients;
    assert Next(apply, s1, Rmdir(c, true)) == end;
    assert Path(apply, end, [], end);
    PathStep(apply, s1, Rmdir(c, true), [], end);
    PathStep(apply, s, error, [Rmdir(c, true)] + [], end);
  }
}
