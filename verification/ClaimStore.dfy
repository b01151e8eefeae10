/**
  The task-claim stores of src/tasks/task-claim-store.ts.

  `Apply` is the meaning of the five store operations on a map from task ids to claims.
  The in-memory store is a class over such a map; the file store works on the array of
  records read from one JSON file, and `FileOpRefinesMap` shows that it means the same.
*/
module ClaimStore {
  import opened Common

  type TaskId = string

  /** A claim written by a current runtime has a generation identity; a legacy record has none. */
  datatype Claim = Current(id: nat, at: int) | Legacy(at: int)

  datatype Snapshot = Snapshot(task: TaskId, id: nat, at: int)

  /** The id and the instant a claim would store are drawn outside the model. */
  datatype Op =
    | ClaimOp(task: TaskId, id: nat, at: int)
    | ReleaseOp(task: TaskId)
    | HasOp(task: TaskId)
    | InspectOp(task: TaskId)
    | ReleaseIfMatchesOp(task: TaskId, id: nat)

  datatype Reply = Done | Answer(yes: bool) | Found(snapshot: Option<Snapshot>)

  type Claims = map<TaskId, Claim>

  function AsSnapshot(task: TaskId, claim: Claim): Option<Snapshot> {
    match claim
    case Current(id, at) => Some(Snapshot(task, id, at))
    case Legacy(_) => None
  }

  predicate Matches(m: Claims, task: TaskId, id: nat) {
    task in m && m[task].Current? && m[task].id == id
  }

  /** The atomic meaning of one operation: the claims it leaves and what it returns. */
  function Apply(m: Claims, op: Op): (Claims, Reply) {
    match op
    case ClaimOp(t, id, at) =>
      if t in m then (m, Answer(false)) else (m[t := Current(id, at)], Answer(true))
    case ReleaseOp(t) => (m - {t}, Done)
    case HasOp(t) => (m, Answer(t in m))
    case InspectOp(t) => (m, Found(if t in m then AsSnapshot(t, m[t]) else None))
    case ReleaseIfMatchesOp(t, id) =>
      if Matches(m, t, id) then (m - {t}, Answer(true)) else (m, Answer(false))
  }

  // ---------------------------------------------------------------------------------------
  // The process-local store

  class InMemoryTaskClaimStore {
    var claims: Claims

    constructor ()
      ensures claims == map[]
    {
      claims := map[];
    }

    method Claim(task: TaskId, id: nat, at: int) returns (claimed: bool)
      modifies this
      ensures (claims, Answer(claimed)) == Apply(old(claims), ClaimOp(task, id, at))
    {
      if task in claims {
        return false;
      }
      claims := claims[task := Current(id, at)];
      return true;
    }

    method Release(task: TaskId)
      modifies this
      ensures (claims, Done) == Apply(old(claims), ReleaseOp(task))
    {
      claims := claims - {task};
    }

    method Has(task: TaskId) returns (found: bool)
      ensures (claims, Answer(found)) == Apply(claims, HasOp(task))
    {
      return task in claims;
    }

    method Inspect(task: TaskId) returns (found: Option<Snapshot>)
      ensures (claims, Found(found)) == Apply(claims, InspectOp(task))
    {
      if task !in claims {
        return None;
      }
      return AsSnapshot(task, claims[task]);
    }

    method ReleaseIfMatches(task: TaskId, id: nat) returns (released: bool)
      modifies this
      ensures (claims, Answer(released)) == Apply(old(claims), ReleaseIfMatchesOp(task, id))
    {
      if task !in claims || claims[task].Legacy? || claims[task].id != id {
        return false;
      }
      claims := claims - {task};
      return true;
    }
  }

  // ---------------------------------------------------------------------------------------
  // The records of the JSON file

  datatype Record = Record(task: TaskId, claim: Claim)

  /** The index of the first record that `p` accepts, or the length of the array. */
  function FindIndex(claims: seq<Record>, p: Record -> bool): (i: nat)
    ensures i <= |claims|
    ensures i < |claims| ==> p(claims[i])
    ensures forall k :: 0 <= k < i ==> !p(claims[k])
  {
    if claims == [] then 0
    else if p(claims[0]) then 0
    else 1 + FindIndex(claims[1..], p)
  }

  function Without(claims: seq<Record>, task: TaskId): (rest: seq<Record>)
    ensures |rest| <= |claims|
    ensures |rest| == |claims| ==> rest == claims
  {
    if claims == [] then []
    else (if claims[0].task == task then [] else [claims[0]]) + Without(claims[1..], task)
  }

  function HasTask(task: TaskId): Record -> bool {
    (r: Record) => r.task == task
  }

  function HasGeneration(task: TaskId, id: nat): Record -> bool {
    (r: Record) => r.task == task && r.claim.Current? && r.claim.id == id
  }

  function ApplyToFile(claims: seq<Record>, op: Op): Effect<seq<Record>, Reply> {
    match op
    case ClaimOp(t, id, at) =>
      if FindIndex(claims, HasTask(t)) < |claims| then Effect(claims, Answer(false), false)
      else Effect(claims + [Record(t, Current(id, at))], Answer(true), true)
    case ReleaseOp(t) =>
      var remaining := Without(claims, t);
      if |remaining| == |claims| then Effect(claims, Done, false) else Effect(remaining, Done, true)
    case HasOp(t) => Effect(claims, Answer(FindIndex(claims, HasTask(t)) < |claims|), false)
    case InspectOp(t) =>
      var i := FindIndex(claims, HasTask(t));
      Effect(claims, Found(if i < |claims| then AsSnapshot(t, claims[i].claim) else None), false)
    case ReleaseIfMatchesOp(t, id) =>
      var i := FindIndex(claims, HasGeneration(t, id));
      if i == |claims| then Effect(claims, Answer(false), false)
      else Effect(claims[..i] + claims[i + 1..], Answer(true), true)
  }

  /** What each operation does between reading the file and publishing it; LockFile makes this one step. */
  class JsonFileTaskClaimStore {
    var file: seq<Record>

    constructor (file: seq<Record>)
      ensures this.file == file
    {
      this.file := file;
    }

    method Claim(task: TaskId, id: nat, at: int) returns (claimed: bool)
      modifies this
      ensures var e := ApplyToFile(old(file), ClaimOp(task, id, at)); file == e.contents && Answer(claimed) == e.reply
    {
      var claims := file;
      if FindIndex(claims, HasTask(task)) < |claims| {
        return false;
      }
      claims := claims + [Record(task, Current(id, at))];
      file := claims;
      return true;
    }

    method Release(task: TaskId)
      modifies this
      ensures file == ApplyToFile(old(file), ReleaseOp(task)).contents
    {
      var remaining := Without(file, task);
      if |remaining| == |file| {
        return;
      }
      file := remaining;
    }

    method Has(task: TaskId) returns (found: bool)
      ensures Answer(found) == ApplyToFile(file, HasOp(task)).reply
    {
      return FindIndex(file, HasTask(task)) < |file|;
    }

    method Inspect(task: TaskId) returns (found: Option<Snapshot>)
      ensures Found(found) == ApplyToFile(file, InspectOp(task)).reply
    {
      var i := FindIndex(file, HasTask(task));
      if i == |file| {
        return None;
      }
      return AsSnapshot(task, file[i].claim);
    }

    method ReleaseIfMatches(task: TaskId, id: nat) returns (released: bool)
      modifies this
      ensures var e := ApplyToFile(old(file), ReleaseIfMatchesOp(task, id)); file == e.contents && Answer(released) == e.reply
    {
      var claims := file;
      var index := FindIndex(claims, HasGeneration(task, id));
      if index == |claims| {
        return false;
      }
      claims := claims[..index] + claims[index + 1..];
      file := claims;
      return true;
    }
  }

  /** No task id has two records. Every file written from an empty one is like this. */
  predicate Distinct(claims: seq<Record>) {
    forall i, j :: 0 <= i < j < |claims| ==> claims[i].task != claims[j].task
  }

  /** The map an array of records stands for; the first record of a task id decides. */
  function View(claims: seq<Record>): Claims {
    if claims == [] then map[]
    else View(claims[1..])[claims[0].task := claims[0].claim]
  }

  lemma {:induction false} ViewKeys(claims: seq<Record>)
    ensures forall t :: t in View(claims) <==> FindIndex(claims, HasTask(t)) < |claims|
    ensures forall t :: t in View(claims) ==> View(claims)[t] == claims[FindIndex(claims, HasTask(t))].claim
  {
    if claims != [] {
      ViewKeys(claims[1..]);
    }
  }

  lemma {:induction false} ViewElement(claims: seq<Record>, i: nat)
    requires Distinct(claims) && i < |claims|
    ensures claims[i].task in View(claims) && View(claims)[claims[i].task] == claims[i].claim
  {
    ViewKeys(claims);
    var k := FindIndex(claims, HasTask(claims[i].task));
    assert HasTask(claims[i].task)(claims[i]);
  }

  lemma {:induction false} ViewAppend(claims: seq<Record>, r: Record)
    requires r.task !in View(claims)
    ensures View(claims + [r]) == View(claims)[r.task := r.claim]
  {
    if claims == [] {
      assert claims + [r] == [r];
    } else {
      ViewAppend(claims[1..], r);
      assert (claims + [r])[1..] == claims[1..] + [r];
    }
  }

  lemma {:induction false} WithoutMembers(claims: seq<Record>, t: TaskId)
    ensures forall r :: r in Without(claims, t) <==> r in claims && r.task != t
  {
    if claims != [] {
      WithoutMembers(claims[1..], t);
    }
  }

  lemma {:induction false} ViewWithout(claims: seq<Record>, t: TaskId)
    ensures View(Without(claims, t)) == View(claims) - {t}
  {
    if claims != [] {
      ViewWithout(claims[1..], t);
      var tail := View(claims[1..]);
      if claims[0].task != t {
        assert Without(claims, t)[1..] == Without(claims[1..], t);
        assert View(claims) - {t} == (tail - {t})[claims[0].task := claims[0].claim];
      } else {
        assert Without(claims, t) == Without(claims[1..], t);
        assert View(claims) - {t} == tail - {t};
      }
    }
  }

  lemma {:induction false} WithoutAbsent(claims: seq<Record>, t: TaskId)
    ensures |Without(claims, t)| == |claims| <==> t !in View(claims)
  {
    if claims != [] {
      WithoutAbsent(claims[1..], t);
    }
  }

  lemma {:induction false} DistinctWithout(claims: seq<Record>, t: TaskId)
    requires Distinct(claims)
    ensures Distinct(Without(claims, t))
  {
    if claims != [] {
      DistinctWithout(claims[1..], t);
      WithoutMembers(claims[1..], t);
      var rest := Without(claims[1..], t);
      forall r | r in rest ensures r.task != claims[0].task {
        assert r in claims[1..];
      }
    }
  }

  /** In a file without duplicate task ids, splicing one record out is removing its task. */
  lemma {:induction false} SpliceIsWithout(claims: seq<Record>, i: nat)
    requires Distinct(claims) && i < |claims|
    ensures claims[..i] + claims[i + 1..] == Without(claims, claims[i].task)
  {
    var t := claims[i].task;
    if i == 0 {
      NothingToRemove(claims[1..], t);
      assert claims[..0] + claims[1..] == claims[1..];
      assert Without(claims, t) == [] + Without(claims[1..], t);
    } else {
      SpliceIsWithout(claims[1..], i - 1);
      assert claims[..i] + claims[i + 1..] == [claims[0]] + (claims[1..][..i - 1] + claims[1..][i..]);
    }
  }

  lemma {:induction false} NothingToRemove(claims: seq<Record>, t: TaskId)
    requires forall r :: r in claims ==> r.task != t
    ensures Without(claims, t) == claims
  {
    if claims != [] {
      NothingToRemove(claims[1..], t);
      assert claims == [claims[0]] + claims[1..];
    }
  }

  lemma MatchingReleaseRefinesMap(claims: seq<Record>, t: TaskId, id: nat)
    requires Distinct(claims)
    ensures var e := ApplyToFile(claims, ReleaseIfMatchesOp(t, id));
            && (View(e.contents), e.reply) == Apply(View(claims), ReleaseIfMatchesOp(t, id))
            && Distinct(e.contents)
            && (e.writes <==> e.contents != claims)
  {
    var i := FindIndex(claims, HasGeneration(t, id));
    if i < |claims| {
      ViewElement(claims, i);
      SpliceIsWithout(claims, i);
      ViewWithout(claims, t);
      DistinctWithout(claims, t);
    } else if t in View(claims) {
      ViewKeys(claims);
      var k := FindIndex(claims, HasTask(t));
      assert !HasGeneration(t, id)(claims[k]);
    }
  }

  /**
    On a file without duplicate task ids, every file operation has the reply and the effect of
    the atomic map operation, leaves no duplicates, and rewrites the file exactly if something changes.
  */
  lemma FileOpRefinesMap(claims: seq<Record>, op: Op)
    requires Distinct(claims)
    ensures var e := ApplyToFile(claims, op);
            && (View(e.contents), e.reply) == Apply(View(claims), op)
            && Distinct(e.contents)
            && (e.writes <==> e.contents != claims)
  {
    ViewKeys(claims);
    match op
    case ClaimOp(t, id, at) =>
      if FindIndex(claims, HasTask(t)) == |claims| {
        ViewAppend(claims, Record(t, Current(id, at)));
        forall k | 0 <= k < |claims| ensures claims[k].task != t {
          assert !HasTask(t)(claims[k]);
        }
      }
    case ReleaseOp(t) =>
      ViewWithout(claims, t);
      WithoutAbsent(claims, t);
      DistinctWithout(claims, t);
    case HasOp(t) =>
    case InspectOp(t) =>
    case ReleaseIfMatchesOp(t, id) => MatchingReleaseRefinesMap(claims, t, id);
  }

  function CountTask(claims: seq<Record>, t: TaskId): (n: nat) {
    |claims| - |Without(claims, t)|
  }

  lemma {:induction false} CountSplice(claims: seq<Record>, i: nat)
    requires i < |claims|
    ensures CountTask(claims[..i] + claims[i + 1..], claims[i].task) == CountTask(claims, claims[i].task) - 1
  {
    var t := claims[i].task;
    var spliced := claims[..i] + claims[i + 1..];
    if i == 0 {
      assert spliced == claims[1..];
    } else {
      CountSplice(claims[1..], i - 1);
      assert spliced == [claims[0]] + (claims[1..][..i - 1] + claims[1..][i..]);
      assert spliced[1..] == claims[1..][..i - 1] + claims[1..][i..];
    }
  }

  /**
    A hand-edited file may hold a task id twice. A matching generation-bound release then removes
    one record only, so the task stays fenced: it is free afterwards exactly if it had one record.
  */
  lemma MatchingReleaseFreesTask(claims: seq<Record>, t: TaskId, id: nat)
    requires ApplyToFile(claims, ReleaseIfMatchesOp(t, id)).reply == Answer(true)
    ensures t !in View(ApplyToFile(claims, ReleaseIfMatchesOp(t, id)).contents) <==> CountTask(claims, t) == 1
  {
    var i := FindIndex(claims, HasGeneration(t, id));
    var after := claims[..i] + claims[i + 1..];
    CountSplice(claims, i);
    WithoutAbsent(after, t);
  }

  /** Such a file: the release answers true, and the task is fenced as before. */
  lemma DuplicateRecordStaysFenced(t: TaskId, id: nat, other: nat)
    ensures var e := ApplyToFile([Record(t, Current(id, 0)), Record(t, Current(other, 0))], ReleaseIfMatchesOp(t, id));
            e.reply == Answer(true) && e.writes && Matches(View(e.contents), t, other)
  {
    var file := [Record(t, Current(id, 0)), Record(t, Current(other, 0))];
    assert HasGeneration(t, id)(file[0]);
    assert file[..0] + file[1..] == [Record(t, Current(other, 0))];
    assert View([Record(t, Current(other, 0))]) == map[t := Current(other, 0)];
  }

  /** What a claim can be told by: it is there, with its generation and instant; only its own generation releases it. */
  lemma ClaimIsFound(m: Claims, t: TaskId, id: nat, at: int, other: nat)
    requires t !in m
    ensures var (claimed, reply) := Apply(m, ClaimOp(t, id, at));
            && reply == Answer(true)
            && Apply(claimed, HasOp(t)) == (claimed, Answer(true))
            && Apply(claimed, InspectOp(t)) == (claimed, Found(Some(Snapshot(t, id, at))))
            && Apply(claimed, ClaimOp(t, other, at)) == (claimed, Answer(false))
            && Apply(claimed, ReleaseIfMatchesOp(t, other)) == (if other == id then (m, Answer(true)) else (claimed, Answer(false)))
            && Apply(claimed, ReleaseOp(t)) == (m, Done)
  {
    assert m[t := Current(id, at)] - {t} == m;
  }
}
