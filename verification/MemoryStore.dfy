/**
  The memory stores (src/memory/memory-store.ts): first-in-first-out eviction per agent and overall,
  once with a cached count per agent and once by counting, and paging.
*/
module MemoryStore {
  import opened Common

  datatype MemoryEntry = MemoryEntry(agentId: string, taskId: string, input: string, output: string, recordedAt: string)

  /** An agent's entries, oldest first. */
  function Of(entries: seq<MemoryEntry>, agent: string): (own: seq<MemoryEntry>)
    ensures |own| <= |entries|
  {
    if entries == [] then []
    else if entries[0].agentId == agent then [entries[0]] + Of(entries[1..], agent)
    else Of(entries[1..], agent)
  }

  function IfOwn(e: MemoryEntry, agent: string): seq<MemoryEntry> {
    if e.agentId == agent then [e] else []
  }

  lemma OfHead(e: MemoryEntry, rest: seq<MemoryEntry>, agent: string)
    ensures Of([e] + rest, agent) == IfOwn(e, agent) + Of(rest, agent)
  {
    assert ([e] + rest)[1..] == rest;
  }

  lemma Associative(x: seq<MemoryEntry>, y: seq<MemoryEntry>, z: seq<MemoryEntry>)
    ensures x + (y + z) == x + y + z
  {
  }

  lemma {:induction false} OfConcat(a: seq<MemoryEntry>, b: seq<MemoryEntry>, agent: string)
    ensures Of(a + b, agent) == Of(a, agent) + Of(b, agent)
  {
    if a == [] {
      assert a + b == b;
    } else {
      var e, rest := a[0], a[1..];
      OfConcat(rest, b, agent);
      OfHead(e, rest, agent);
      OfHead(e, rest + b, agent);
      assert [e] + rest == a && [e] + (rest + b) == a + b;
      Associative(IfOwn(e, agent), Of(rest, agent), Of(b, agent));
    }
  }

  lemma OfPush(entries: seq<MemoryEntry>, e: MemoryEntry, agent: string)
    ensures Of(entries + [e], agent) == Of(entries, agent) + if e.agentId == agent then [e] else []
  {
    OfConcat(entries, [e], agent);
    assert [e][1..] == [];
  }

  predicate IsSuffix(part: seq<MemoryEntry>, whole: seq<MemoryEntry>) {
    |part| <= |whole| && part == whole[|whole| - |part|..]
  }

  lemma SuffixTransitive(a: seq<MemoryEntry>, b: seq<MemoryEntry>, c: seq<MemoryEntry>)
    requires IsSuffix(a, b) && IsSuffix(b, c)
    ensures IsSuffix(a, c)
  {
  }

  lemma SuffixPush(a: seq<MemoryEntry>, b: seq<MemoryEntry>, more: seq<MemoryEntry>)
    requires IsSuffix(a, b)
    ensures IsSuffix(a + more, b + more)
  {
  }

  // ---------------------------------------------------------------------------------------
  // Removing the oldest

  function RemoveOldest(entries: seq<MemoryEntry>, agent: string): seq<MemoryEntry> {
    if entries == [] then [] else if entries[0].agentId == agent then entries[1..]
    else [entries[0]] + RemoveOldest(entries[1..], agent)
  }

  lemma {:induction false} RemoveOldestKeeps(entries: seq<MemoryEntry>, agent: string, other: string)
    ensures Of(RemoveOldest(entries, agent), other) ==
            if other == agent && Of(entries, agent) != [] then Of(entries, agent)[1..] else Of(entries, other)
    ensures |RemoveOldest(entries, agent)| == |entries| - if Of(entries, agent) != [] then 1 else 0
  {
    if entries != [] && entries[0].agentId != agent {
      RemoveOldestKeeps(entries[1..], agent, other);
      assert RemoveOldest(entries, agent)[1..] == RemoveOldest(entries[1..], agent);
    }
  }

  lemma {:induction false} FirstOfAgent(entries: seq<MemoryEntry>, i: nat)
    requires i < |entries| && forall k :: 0 <= k < i ==> entries[k].agentId != entries[i].agentId
    ensures RemoveOldest(entries, entries[i].agentId) == entries[..i] + entries[i + 1..]
    ensures Of(entries, entries[i].agentId) != []
  {
    if i > 0 {
      assert forall k :: 0 <= k < i - 1 ==> entries[1..][k] == entries[k + 1];
      FirstOfAgent(entries[1..], i - 1);
    }
  }

  lemma {:induction false} NoneOfAgent(entries: seq<MemoryEntry>, agent: string)
    requires forall k :: 0 <= k < |entries| ==> entries[k].agentId != agent
    ensures Of(entries, agent) == []
  {
    if entries != [] {
      NoneOfAgent(entries[1..], agent);
    }
  }

  /** The agent's oldest entry makes room if the agent is at its limit. */
  function AgentEvicted(entries: seq<MemoryEntry>, agent: string, maxPerAgent: nat): seq<MemoryEntry> {
    if maxPerAgent > 0 && |Of(entries, agent)| >= maxPerAgent then RemoveOldest(entries, agent) else entries
  }

  /** The oldest entry of all makes room if the store is full. */
  function Evicted(entries: seq<MemoryEntry>, maxEntries: nat): seq<MemoryEntry> {
    if |entries| >= maxEntries && entries != [] then entries[1..] else entries
  }

  /** One append of the in-memory store. */
  function Appended(entries: seq<MemoryEntry>, e: MemoryEntry, maxEntries: nat, maxPerAgent: nat): seq<MemoryEntry> {
    Evicted(AgentEvicted(entries, e.agentId, maxPerAgent), maxEntries) + [e]
  }

  predicate WithinCapacity(entries: seq<MemoryEntry>, maxEntries: nat) {
    |entries| <= maxEntries
  }

  ghost predicate WithinAgentCapacity(entries: seq<MemoryEntry>, maxPerAgent: nat) {
    maxPerAgent > 0 ==> forall agent: string :: |Of(entries, agent)| <= maxPerAgent
  }

  lemma TailOf(entries: seq<MemoryEntry>, agent: string)
    requires entries != []
    ensures IsSuffix(Of(entries[1..], agent), Of(entries, agent))
  {
  }

  lemma EvictionKeepsSuffix(entries: seq<MemoryEntry>, own: string, maxEntries: nat, maxPerAgent: nat, agent: string)
    ensures IsSuffix(Of(Evicted(AgentEvicted(entries, own, maxPerAgent), maxEntries), agent), Of(entries, agent))
  {
    var kept := AgentEvicted(entries, own, maxPerAgent);
    RemoveOldestKeeps(entries, own, agent);
    if |kept| >= maxEntries && kept != [] {
      TailOf(kept, agent);
      SuffixTransitive(Of(kept[1..], agent), Of(kept, agent), Of(entries, agent));
    }
  }

  /** An append keeps, of every agent, a suffix of what it had with the new entry. */
  lemma AppendedKeepsSuffix(entries: seq<MemoryEntry>, e: MemoryEntry, maxEntries: nat, maxPerAgent: nat, agent: string)
    ensures IsSuffix(Of(Appended(entries, e, maxEntries, maxPerAgent), agent), Of(entries + [e], agent))
  {
    var rest := Evicted(AgentEvicted(entries, e.agentId, maxPerAgent), maxEntries);
    EvictionKeepsSuffix(entries, e.agentId, maxEntries, maxPerAgent, agent);
    PushBoth(rest, entries, e, agent);
  }

  lemma PushBoth(part: seq<MemoryEntry>, whole: seq<MemoryEntry>, e: MemoryEntry, agent: string)
    requires IsSuffix(Of(part, agent), Of(whole, agent))
    ensures IsSuffix(Of(part + [e], agent), Of(whole + [e], agent))
  {
    OfPush(part, e, agent);
    OfPush(whole, e, agent);
    SuffixPush(Of(part, agent), Of(whole, agent), if e.agentId == agent then [e] else []);
  }

  /** Within the limits one append evicts at most one entry, and only when it must: the agent's oldest, or else the oldest. */
  lemma EvictsOnlyWhenFull(entries: seq<MemoryEntry>, e: MemoryEntry, maxEntries: nat, maxPerAgent: nat)
    requires maxEntries >= 1 && WithinCapacity(entries, maxEntries)
    ensures Appended(entries, e, maxEntries, maxPerAgent) ==
            (if maxPerAgent > 0 && |Of(entries, e.agentId)| >= maxPerAgent then RemoveOldest(entries, e.agentId)
             else if |entries| == maxEntries then entries[1..] else entries) + [e]
  {
    RemoveOldestKeeps(entries, e.agentId, e.agentId);
  }

  lemma AppendedWithinCapacity(entries: seq<MemoryEntry>, e: MemoryEntry, maxEntries: nat, maxPerAgent: nat)
    requires maxEntries >= 1 && WithinCapacity(entries, maxEntries) && WithinAgentCapacity(entries, maxPerAgent)
    ensures WithinCapacity(Appended(entries, e, maxEntries, maxPerAgent), maxEntries)
    ensures WithinAgentCapacity(Appended(entries, e, maxEntries, maxPerAgent), maxPerAgent)
  {
    var kept := AgentEvicted(entries, e.agentId, maxPerAgent);
    var rest := Evicted(kept, maxEntries);
    RemoveOldestKeeps(entries, e.agentId, e.agentId);
    forall agent: string | maxPerAgent > 0 ensures |Of(rest + [e], agent)| <= maxPerAgent {
      assert |Of(entries, agent)| <= maxPerAgent;
      RemoveOldestKeeps(entries, e.agentId, agent);
      if kept != [] {
        TailOf(kept, agent);
      }
      OfPush(rest, e, agent);
    }
  }

  // ---------------------------------------------------------------------------------------
  // Paging

  /** Filter by agent, drop the offset, take the limit. */
  function Page(entries: seq<MemoryEntry>, agent: string, offset: nat, limit: Option<nat>): seq<MemoryEntry> {
    var own := Of(entries, agent);
    var rest := if offset <= |own| then own[offset..] else [];
    if limit.Some? && limit.value < |rest| then rest[..limit.value] else rest
  }

  method SelectMemoryEntries(entries: seq<MemoryEntry>, agentId: string, offset: nat, limit: Option<nat>)
    returns (selected: seq<MemoryEntry>)
    ensures selected == Page(entries, agentId, offset, limit)
  {
    selected := [];
    if limit == Some(0) {
      return;
    }
    var remainingOffset := offset;
    for i := 0 to |entries|
      invariant remainingOffset == if |Of(entries[..i], agentId)| <= offset then offset - |Of(entries[..i], agentId)| else 0
      invariant selected == if offset <= |Of(entries[..i], agentId)| then Of(entries[..i], agentId)[offset..] else []
      invariant limit.Some? ==> |selected| < limit.value
    {
      assert entries[..i + 1] == entries[..i] + [entries[i]];
      OfPush(entries[..i], entries[i], agentId);
      if entries[i].agentId != agentId {
        continue;
      }
      if remainingOffset > 0 {
        remainingOffset := remainingOffset - 1;
        continue;
      }
      selected := selected + [entries[i]];
      if limit.Some? && |selected| >= limit.value {
        FullPage(entries, agentId, i + 1, offset, limit.value, selected);
        return;
      }
    }
    assert entries[..|entries|] == entries;
  }

  /** A full page does not depend on what comes later. */
  lemma FullPage(entries: seq<MemoryEntry>, agent: string, i: nat, offset: nat, limit: nat, selected: seq<MemoryEntry>)
    requires i <= |entries| && offset <= |Of(entries[..i], agent)|
    requires selected == Of(entries[..i], agent)[offset..] && |selected| == limit
    ensures selected == Page(entries, agent, offset, Some(limit))
  {
    OfConcat(entries[..i], entries[i..], agent);
    assert entries == entries[..i] + entries[i..];
    var front, back := Of(entries[..i], agent), Of(entries[i..], agent);
    assert (front + back)[offset..] == selected + back;
  }

  /** Consecutive pages concatenate to the longer page, and all pages to the whole list. */
  lemma PagesConcatenate(entries: seq<MemoryEntry>, agent: string, offset: nat, m: nat, n: Option<nat>)
    ensures Page(entries, agent, offset, Some(m)) + Page(entries, agent, offset + m, n) ==
            Page(entries, agent, offset, if n.Some? then Some(m + n.value) else None)
    ensures Page(entries, agent, 0, None) == Of(entries, agent)
  {
    var own := Of(entries, agent);
    if offset + m <= |own| {
      assert own[offset..] == own[offset..offset + m] + own[offset + m..];
      assert own[offset..][..m] == own[offset..offset + m];
    }
  }

  // ---------------------------------------------------------------------------------------
  // The in-memory store

  function Decremented(count: nat): nat {
    if count <= 1 then 0 else count - 1
  }

  class InMemoryMemoryStore {
    const maxEntries: nat
    const maxEntriesPerAgent: nat
    var entries: seq<MemoryEntry>
    var agentCounts: map<string, nat>
    /** Everything appended since the store was created or cleared. */
    ghost var history: seq<MemoryEntry>

    ghost predicate Counted()
      reads this
    {
      forall agent: string :: CountOf(agent) == |Of(entries, agent)|
    }

    function CountOf(agent: string): nat
      reads this
    {
      if agent in agentCounts then agentCounts[agent] else 0
    }

    ghost predicate Valid()
      reads this
    {
      && maxEntries >= 1
      && Counted()
      && WithinCapacity(entries, maxEntries) && WithinAgentCapacity(entries, maxEntriesPerAgent)
      && forall agent: string :: IsSuffix(Of(entries, agent), Of(history, agent))
    }

    constructor (maxEntries: nat, maxEntriesPerAgent: nat)
      requires maxEntries >= 1
      ensures Valid() && entries == [] && history == []
      ensures this.maxEntries == maxEntries && this.maxEntriesPerAgent == maxEntriesPerAgent
    {
      this.maxEntries, this.maxEntriesPerAgent := maxEntries, maxEntriesPerAgent;
      entries, agentCounts, history := [], map[], [];
    }

    method DecrementAgentCount(agent: string)
      modifies this`agentCounts
      ensures CountOf(agent) == Decremented(old(CountOf(agent)))
      ensures forall other: string :: other != agent ==> CountOf(other) == old(CountOf(other))
    {
      var count := if agent in agentCounts then agentCounts[agent] else 0;
      if count <= 1 {
        agentCounts := map other | other in agentCounts && other != agent :: agentCounts[other];
      } else {
        agentCounts := agentCounts[agent := count - 1];
      }
    }

    /** Takes an agent's oldest entry out, if it has one. */
    method EvictOldestOf(agent: string)
      requires Counted()
      modifies this`entries, this`agentCounts
      ensures Counted() && entries == RemoveOldest(old(entries), agent)
    {
      var i := 0;
      while i < |entries| && entries[i].agentId != agent
        invariant i <= |entries| && entries == old(entries) && agentCounts == old(agentCounts)
        invariant forall k :: 0 <= k < i ==> entries[k].agentId != agent
      {
        i := i + 1;
      }
      if i == |entries| {
        NoneOfAgent(entries, agent);
        NothingToRemove(entries, agent);
        return;
      }
      FirstOfAgent(entries, i);
      entries := entries[..i] + entries[i + 1..];
      DecrementAgentCount(agent);
      forall other: string ensures CountOf(other) == |Of(entries, other)| {
        RemoveOldestKeeps(old(entries), agent, other);
      }
    }

    /** Takes the oldest entry of all out. */
    method EvictOldest()
      requires Counted() && entries != []
      modifies this`entries, this`agentCounts
      ensures Counted() && entries == old(entries)[1..]
    {
      var evicted := entries[0];
      entries := entries[1..];
      DecrementAgentCount(evicted.agentId);
      forall other: string ensures CountOf(other) == |Of(entries, other)| {
        assert Of(old(entries), other) == (if evicted.agentId == other then [evicted] else []) + Of(old(entries)[1..], other);
      }
    }

    method Append(entry: MemoryEntry)
      requires Valid()
      modifies this
      ensures Valid()
      ensures entries == Appended(old(entries), entry, maxEntries, maxEntriesPerAgent)
      ensures history == old(history) + [entry]
    {
      if maxEntriesPerAgent > 0 && CountOf(entry.agentId) >= maxEntriesPerAgent {
        EvictOldestOf(entry.agentId);
      }
      if |entries| >= maxEntries {
        EvictOldest();
      }
      ghost var before := entries;
      entries := entries + [entry];
      agentCounts := agentCounts[entry.agentId := (if entry.agentId in agentCounts then agentCounts[entry.agentId] else 0) + 1];
      history := history + [entry];
      forall agent: string ensures CountOf(agent) == |Of(entries, agent)| {
        OfPush(before, entry, agent);
      }
      AppendedWithinCapacity(old(entries), entry, maxEntries, maxEntriesPerAgent);
      forall agent: string ensures IsSuffix(Of(entries, agent), Of(history, agent)) {
        HistorySuffix(old(entries), old(history), entry, maxEntries, maxEntriesPerAgent, agent);
      }
    }

    method CountByAgent(agent: string) returns (count: nat)
      requires Valid()
      ensures count == |Of(entries, agent)|
    {
      return CountOf(agent);
    }

    method ListByAgent(agentId: string, offset: nat, limit: Option<nat>) returns (list: seq<MemoryEntry>)
      requires Valid()
      ensures list == Page(entries, agentId, offset, limit)
    {
      list := SelectMemoryEntries(entries, agentId, offset, limit);
    }

    method Clear()
      requires Valid()
      modifies this
      ensures Valid() && entries == [] && history == []
    {
      entries, agentCounts, history := [], map[], [];
    }
  }

  lemma {:induction false} NothingToRemove(entries: seq<MemoryEntry>, agent: string)
    requires Of(entries, agent) == []
    ensures RemoveOldest(entries, agent) == entries
  {
    if entries != [] {
      NothingToRemove(entries[1..], agent);
    }
  }

  lemma HistorySuffix(entries: seq<MemoryEntry>, history: seq<MemoryEntry>, e: MemoryEntry,
                      maxEntries: nat, maxPerAgent: nat, agent: string)
    requires IsSuffix(Of(entries, agent), Of(history, agent))
    ensures IsSuffix(Of(Appended(entries, e, maxEntries, maxPerAgent), agent), Of(history + [e], agent))
  {
    AppendedKeepsSuffix(entries, e, maxEntries, maxPerAgent, agent);
    OfPush(entries, e, agent);
    OfPush(history, e, agent);
    SuffixPush(Of(entries, agent), Of(history, agent), if e.agentId == agent then [e] else []);
    SuffixTransitive(Of(Appended(entries, e, maxEntries, maxPerAgent), agent), Of(entries + [e], agent), Of(history + [e], agent));
  }

  // ---------------------------------------------------------------------------------------
  // The file store

  /** Removing an agent's `n` oldest entries. */
  function RemoveOldestN(entries: seq<MemoryEntry>, agent: string, n: nat): seq<MemoryEntry>
    decreases n
  {
    if n == 0 then entries else RemoveOldestN(RemoveOldest(entries, agent), agent, n - 1)
  }

  /** So many of the agent's oldest entries that one more stays within its limit. */
  function AgentTrimmed(entries: seq<MemoryEntry>, agent: string, maxPerAgent: nat): seq<MemoryEntry> {
    var own := |Of(entries, agent)|;
    if maxPerAgent > 0 && own >= maxPerAgent then RemoveOldestN(entries, agent, own - maxPerAgent + 1) else entries
  }

  /** So many of the oldest entries that one more stays within the limit. */
  function Trimmed(entries: seq<MemoryEntry>, maxEntries: nat): seq<MemoryEntry>
    requires maxEntries >= 1
  {
    if |entries| >= maxEntries then entries[|entries| - maxEntries + 1..] else entries
  }

  /** One append to a file that may hold more than the limits allow. */
  function FileAppended(entries: seq<MemoryEntry>, e: MemoryEntry, maxEntries: nat, maxPerAgent: nat): seq<MemoryEntry>
    requires maxEntries >= 1
  {
    Trimmed(AgentTrimmed(entries, e.agentId, maxPerAgent), maxEntries) + [e]
  }

  method CountOwn(entries: seq<MemoryEntry>, agent: string) returns (count: nat)
    ensures count == |Of(entries, agent)|
  {
    count := 0;
    for i := 0 to |entries|
      invariant count == |Of(entries[..i], agent)|
    {
      assert entries[..i + 1] == entries[..i] + [entries[i]];
      OfPush(entries[..i], entries[i], agent);
      if entries[i].agentId == agent {
        count := count + 1;
      }
    }
    assert entries[..|entries|] == entries;
  }

  /** The splicing loop: entries before `index` belong to other agents. */
  method SpliceOwn(all: seq<MemoryEntry>, agent: string, count: nat, maxPerAgent: nat) returns (entries: seq<MemoryEntry>)
    requires maxPerAgent > 0 && count == |Of(all, agent)|
    ensures entries == AgentTrimmed(all, agent, maxPerAgent)
  {
    entries := all;
    var agentCount, index := count, 0;
    ghost var target := if count >= maxPerAgent then RemoveOldestN(all, agent, count - maxPerAgent + 1) else all;
    while agentCount >= maxPerAgent && index < |entries|
      invariant index <= |entries|
      invariant forall k :: 0 <= k < index ==> entries[k].agentId != agent
      invariant agentCount == |Of(entries, agent)|
      invariant target == if agentCount >= maxPerAgent then RemoveOldestN(entries, agent, agentCount - maxPerAgent + 1) else entries
      decreases |entries| - index
    {
      if entries[index].agentId == agent {
        FirstOfAgent(entries, index);
        RemoveOldestKeeps(entries, agent, agent);
        entries := entries[..index] + entries[index + 1..];
        agentCount := agentCount - 1;
      } else {
        index := index + 1;
      }
    }
    if agentCount >= maxPerAgent {
      NoneOfAgent(entries, agent);
      assert false;
    }
  }

  method FileAppend(file: seq<MemoryEntry>, entry: MemoryEntry, maxEntries: nat, maxPerAgent: nat)
    returns (entries: seq<MemoryEntry>)
    requires maxEntries >= 1
    ensures entries == FileAppended(file, entry, maxEntries, maxPerAgent)
  {
    entries := file;
    if maxPerAgent > 0 {
      var agentCount := CountOwn(entries, entry.agentId);
      entries := SpliceOwn(entries, entry.agentId, agentCount, maxPerAgent);
    }
    ghost var kept := entries;
    var shifted := 0;
    while |entries| >= maxEntries
      invariant shifted <= |kept| && entries == kept[shifted..]
      invariant shifted > 0 ==> |entries| >= maxEntries - 1
    {
      entries := entries[1..];
      shifted := shifted + 1;
    }
    entries := entries + [entry];
  }

  /** Within the limits the two stores keep the same entries. */
  lemma StoresAgree(entries: seq<MemoryEntry>, e: MemoryEntry, maxEntries: nat, maxPerAgent: nat)
    requires maxEntries >= 1 && WithinCapacity(entries, maxEntries) && WithinAgentCapacity(entries, maxPerAgent)
    ensures FileAppended(entries, e, maxEntries, maxPerAgent) == Appended(entries, e, maxEntries, maxPerAgent)
  {
    if maxPerAgent > 0 && |Of(entries, e.agentId)| >= maxPerAgent {
      assert |Of(entries, e.agentId)| == maxPerAgent;
      assert RemoveOldestN(entries, e.agentId, 1) == RemoveOldest(entries, e.agentId);
      RemoveOldestKeeps(entries, e.agentId, e.agentId);
    }
  }

  /** Any number of appends, to either store. */
  function AllAppended(entries: seq<MemoryEntry>, es: seq<MemoryEntry>, maxEntries: nat, maxPerAgent: nat): seq<MemoryEntry>
    decreases |es|
  {
    if es == [] then entries
    else AllAppended(Appended(entries, es[0], maxEntries, maxPerAgent), es[1..], maxEntries, maxPerAgent)
  }

  function AllFileAppended(entries: seq<MemoryEntry>, es: seq<MemoryEntry>, maxEntries: nat, maxPerAgent: nat): seq<MemoryEntry>
    requires maxEntries >= 1
    decreases |es|
  {
    if es == [] then entries
    else AllFileAppended(FileAppended(entries, es[0], maxEntries, maxPerAgent), es[1..], maxEntries, maxPerAgent)
  }

  /** Over any run of appends from contents within the limits, the empty store included, both hold the same entries. */
  lemma {:induction false} StoresAgreeOverRuns(entries: seq<MemoryEntry>, es: seq<MemoryEntry>, maxEntries: nat, maxPerAgent: nat)
    requires maxEntries >= 1 && WithinCapacity(entries, maxEntries) && WithinAgentCapacity(entries, maxPerAgent)
    ensures AllFileAppended(entries, es, maxEntries, maxPerAgent) == AllAppended(entries, es, maxEntries, maxPerAgent)
    decreases |es|
  {
    if es != [] {
      StoresAgree(entries, es[0], maxEntries, maxPerAgent);
      AppendedWithinCapacity(entries, es[0], maxEntries, maxPerAgent);
      StoresAgreeOverRuns(Appended(entries, es[0], maxEntries, maxPerAgent), es[1..], maxEntries, maxPerAgent);
    }
  }

  lemma {:induction false} RemoveOldestNKeeps(entries: seq<MemoryEntry>, agent: string, n: nat, other: string)
    requires n <= |Of(entries, agent)|
    ensures Of(RemoveOldestN(entries, agent, n), other) == if other == agent then Of(entries, agent)[n..] else Of(entries, other)
    decreases n
  {
    if n > 0 {
      RemoveOldestKeeps(entries, agent, agent);
      RemoveOldestKeeps(entries, agent, other);
      RemoveOldestNKeeps(RemoveOldest(entries, agent), agent, n - 1, other);
    }
  }

  lemma {:induction false} DropKeepsSuffix(entries: seq<MemoryEntry>, n: nat, agent: string)
    requires n <= |entries|
    ensures IsSuffix(Of(entries[n..], agent), Of(entries, agent))
  {
    OfConcat(entries[..n], entries[n..], agent);
    assert entries == entries[..n] + entries[n..];
  }

  lemma AgentTrimmingKeepsSuffix(entries: seq<MemoryEntry>, own: string, maxPerAgent: nat, agent: string)
    ensures IsSuffix(Of(AgentTrimmed(entries, own, maxPerAgent), agent), Of(entries, agent))
    ensures maxPerAgent > 0 && agent == own ==> |Of(AgentTrimmed(entries, own, maxPerAgent), agent)| < maxPerAgent
  {
    var count := |Of(entries, own)|;
    if maxPerAgent > 0 && count >= maxPerAgent {
      RemoveOldestNKeeps(entries, own, count - maxPerAgent + 1, agent);
    }
  }

  lemma TrimmingKeepsSuffix(entries: seq<MemoryEntry>, own: string, maxEntries: nat, maxPerAgent: nat, agent: string)
    requires maxEntries >= 1
    ensures var rest := Trimmed(AgentTrimmed(entries, own, maxPerAgent), maxEntries);
            && |rest| < maxEntries && IsSuffix(Of(rest, agent), Of(entries, agent))
            && (maxPerAgent > 0 && agent == own ==> |Of(rest, agent)| < maxPerAgent)
  {
    var kept := AgentTrimmed(entries, own, maxPerAgent);
    AgentTrimmingKeepsSuffix(entries, own, maxPerAgent, agent);
    var rest := Trimmed(kept, maxEntries);
    DropKeepsSuffix(kept, |kept| - |rest|, agent);
    SuffixTransitive(Of(rest, agent), Of(kept, agent), Of(entries, agent));
  }

  /**
    From any file, however full, an append restores the overall limit and the appending agent's, and
    keeps of every agent a suffix of what it had with the new entry.
  */
  lemma FileAppendRestoresLimits(entries: seq<MemoryEntry>, e: MemoryEntry, maxEntries: nat, maxPerAgent: nat, agent: string)
    requires maxEntries >= 1
    ensures var after := FileAppended(entries, e, maxEntries, maxPerAgent);
            && |after| <= maxEntries && after[|after| - 1] == e
            && (maxPerAgent > 0 ==> |Of(after, e.agentId)| <= maxPerAgent)
            && IsSuffix(Of(after, agent), Of(entries + [e], agent))
  {
    var rest := Trimmed(AgentTrimmed(entries, e.agentId, maxPerAgent), maxEntries);
    TrimmingKeepsSuffix(entries, e.agentId, maxEntries, maxPerAgent, agent);
    TrimmingKeepsSuffix(entries, e.agentId, maxEntries, maxPerAgent, e.agentId);
    OfPush(rest, e, e.agentId);
    PushBoth(rest, entries, e, agent);
  }

  /** The entries without the first `n` of the agent, in one pass. */
  function DropOwn(entries: seq<MemoryEntry>, agent: string, n: nat): seq<MemoryEntry> {
    if entries == [] || n == 0 then entries
    else if entries[0].agentId == agent then DropOwn(entries[1..], agent, n - 1)
    else [entries[0]] + DropOwn(entries[1..], agent, n)
  }

  lemma {:induction false} DropOwnAfterRemoval(entries: seq<MemoryEntry>, agent: string, n: nat)
    requires n > 0 && n <= |Of(entries, agent)|
    ensures DropOwn(RemoveOldest(entries, agent), agent, n - 1) == DropOwn(entries, agent, n)
  {
    if entries[0].agentId != agent {
      DropOwnAfterRemoval(entries[1..], agent, n);
      var rest := RemoveOldest(entries, agent);
      assert rest[1..] == RemoveOldest(entries[1..], agent);
    }
  }

  lemma {:induction false} RemoveOldestNIsDropOwn(entries: seq<MemoryEntry>, agent: string, n: nat)
    requires n <= |Of(entries, agent)|
    ensures RemoveOldestN(entries, agent, n) == DropOwn(entries, agent, n)
    ensures |DropOwn(entries, agent, n)| == |entries| - n
    decreases n
  {
    if n > 0 {
      RemoveOldestKeeps(entries, agent, agent);
      RemoveOldestNIsDropOwn(RemoveOldest(entries, agent), agent, n - 1);
      DropOwnAfterRemoval(entries, agent, n);
    }
  }

  /** How many must go so that one more makes at most `limit`. */
  function Excess(count: nat, limit: nat): nat {
    if count >= limit then count - limit + 1 else 0
  }

  /**
    An append to a file above its limits drops no more than they demand: first as many of the agent's
    oldest entries as its limit asks for, then as many of the oldest overall as the file's limit still asks for.
  */
  lemma FileAppendDropsOnlyExcess(entries: seq<MemoryEntry>, e: MemoryEntry, maxEntries: nat, maxPerAgent: nat)
    requires maxEntries >= 1
    ensures var own := if maxPerAgent > 0 then Excess(|Of(entries, e.agentId)|, maxPerAgent) else 0;
            var kept := DropOwn(entries, e.agentId, own);
            && own <= |Of(entries, e.agentId)| && |kept| == |entries| - own && Excess(|kept|, maxEntries) <= |kept|
            && FileAppended(entries, e, maxEntries, maxPerAgent) == kept[Excess(|kept|, maxEntries)..] + [e]
  {
    var own := if maxPerAgent > 0 then Excess(|Of(entries, e.agentId)|, maxPerAgent) else 0;
    RemoveOldestNIsDropOwn(entries, e.agentId, own);
  }
}
