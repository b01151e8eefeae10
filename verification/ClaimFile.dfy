/**
  The claim file behind its lock: seen as a map, it goes through atomic operations one by one.  This
  is what the steps of ClaimProtocol take for granted.
*/
module ClaimFile {
  import opened Common
  import opened ClaimStore
  import opened LockFile

  type ClaimFileState = State<seq<Record>, Op, Reply>

  lemma ClaimsAreHonest()
    ensures Honest(ApplyToFile)
  {
  }

  function ReplayMap(m: Claims, log: seq<Entry<Op, Reply>>): Claims {
    if log == [] then m else Apply(ReplayMap(m, log[..|log| - 1]), log[|log| - 1].op).0
  }

  lemma {:induction false} ReplayIsMapReplay(init: seq<Record>, log: seq<Entry<Op, Reply>>)
    requires Distinct(init)
    ensures Distinct(Replay(ApplyToFile, init, log)) && View(Replay(ApplyToFile, init, log)) == ReplayMap(View(init), log)
  {
    if log != [] {
      ReplayIsMapReplay(init, log[..|log| - 1]);
      FileOpRefinesMap(Replay(ApplyToFile, init, log[..|log| - 1]), log[|log| - 1].op);
    }
  }

  /**
    Seen as a map, the file goes through the atomic operations of ClaimStore.Apply one by one, and
    every reply is the one `Apply` gives: what the claim protocol's steps take for granted.
  */
  lemma FileStoreIsAtomicMap(init: seq<Record>, s: ClaimFileState, steps: seq<Step<Op>>, end: ClaimFileState)
    requires Init(s) && s.file == Holds(init) && Distinct(init) && Path(ApplyToFile, s, steps, end)
    ensures end.file.Holds? && View(end.file.contents) == ReplayMap(View(init), end.log)
    ensures forall i :: 0 <= i < |end.log| ==>
                          Apply(ReplayMap(View(init), end.log[..i]), end.log[i].op).1 == end.log[i].reply
  {
    ClaimsAreHonest();
    Refines(ApplyToFile, init, s, steps, end);
    ReplayIsMapReplay(init, end.log);
    forall i | 0 <= i < |end.log|
      ensures Apply(ReplayMap(View(init), end.log[..i]), end.log[i].op).1 == end.log[i].reply
    {
      ReplayIsMapReplay(init, end.log[..i]);
      FileOpRefinesMap(Replay(ApplyToFile, init, end.log[..i]), end.log[i].op);
    }
  }
}
