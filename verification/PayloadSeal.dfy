/**
  The seal on an approved payload (src/policies/hardened-tool-approval-policy.ts:65-92, 125-220) and
  the handoff to the tool (src/actions/action-executor.ts:98-119).

  Between any two awaits other code may do anything to the heap, except to objects that are frozen.
  The approval store is the durable one of ApprovalStore.
*/
module PayloadSeal {
  import opened Common
  import opened Texts
  import opened KeyOrder
  import opened Digests
  import opened PayloadText
  import opened PayloadHeap
  import ApprovalStore

  datatype World = World(heap: Heap, frozen: set<nat>)

  /** What other code can do: objects appear and change, but frozen ones stay as they are. */
  ghost predicate Mutates(before: World, after: World) {
    && before.frozen <= after.frozen
    && forall r :: r in before.frozen ==> At(after.heap, r) == At(before.heap, r)
  }

  /** digestToolApprovalPayload; `None` for a payload that cannot be bound. */
  function PayloadDigest(sha: Hash, heap: Heap, payload: Value): Option<Digest> {
    var text := CanonicalText(heap, payload);
    if text.None? then None else Some(sha(Units("agentlily-tool-approval-v1\0") + text.value))
  }

  // ---------------------------------------------------------------------------------------
  // What freezing an accepted payload meets, whatever the order

  /** The nodes of an accepted payload. */
  function NodesAt(heap: Heap, v: Value): set<nat> {
    var w := Walk(heap, v, {});
    if w.Some? then Nodes(w.value.0) else {}
  }

  /** A tree is fresh exactly if it repeats no node and avoids those already met. */
  lemma {:induction false} FreshAlone(t: Tree, met: set<nat>)
    ensures Fresh(t, met) <==> Fresh(t, {}) && Nodes(t) !! met
    decreases t
  {
    match t
    case Leaf(_) =>
    case Array(r, items) =>
      FreshItemsAlone(items, met + {r});
      FreshItemsAlone(items, {} + {r});
    case Object(r, props) =>
      FreshPropsAlone(props, met + {r});
      FreshPropsAlone(props, {} + {r});
  }

  lemma {:induction false} FreshItemsAlone(items: seq<Tree>, met: set<nat>)
    ensures FreshItems(items, met) <==> FreshItems(items, {}) && ItemNodes(items) !! met
    decreases items
  {
    if items != [] {
      FreshAlone(items[0], met);
      FreshItemsAlone(items[1..], met + Nodes(items[0]));
      FreshItemsAlone(items[1..], {} + Nodes(items[0]));
    }
  }

  lemma {:induction false} FreshPropsAlone(props: seq<Keyed<Tree>>, met: set<nat>)
    ensures FreshProps(props, met) <==> FreshProps(props, {}) && PropNodes(props) !! met
    decreases props
  {
    if props != [] {
      FreshAlone(props[0].value, met);
      FreshPropsAlone(props[1..], met + Nodes(props[0].value));
      FreshPropsAlone(props[1..], {} + Nodes(props[0].value));
    }
  }

  /** Every value is an accepted payload, no two share a node, and none has a node of `met`. */
  ghost predicate Apart(heap: Heap, values: seq<Value>, met: set<nat>) {
    && (forall i :: 0 <= i < |values| ==> Walk(heap, values[i], {}).Some? && NodesAt(heap, values[i]) !! met)
    && (forall i, j :: 0 <= i < j < |values| ==> NodesAt(heap, values[i]) !! NodesAt(heap, values[j]))
  }

  function NodesOfAll(heap: Heap, values: seq<Value>): set<nat> {
    if values == [] then {} else NodesOfAll(heap, values[..|values| - 1]) + NodesAt(heap, values[|values| - 1])
  }

  lemma {:induction false} NodeOfAll(heap: Heap, values: seq<Value>, x: nat)
    ensures x in NodesOfAll(heap, values) <==> exists i :: 0 <= i < |values| && x in NodesAt(heap, values[i])
  {
    if values != [] {
      var n := |values| - 1;
      NodeOfAll(heap, values[..n], x);
      assert forall i :: 0 <= i < n ==> values[..n][i] == values[i];
      if x in NodesAt(heap, values[n]) {
        assert 0 <= n < |values| && x in NodesAt(heap, values[n]);
      }
    }
  }

  predicate Among(heap: Heap, items: seq<Value>, x: nat) {
    exists i :: 0 <= i < |items| && x in NodesAt(heap, items[i])
  }

  lemma AmongTail(heap: Heap, items: seq<Value>, x: nat)
    requires items != [] && Among(heap, items[1..], x)
    ensures Among(heap, items, x)
  {
    var i :| 0 <= i < |items[1..]| && x in NodesAt(heap, items[1..][i]);
    assert x in NodesAt(heap, items[i + 1]);
  }

  lemma {:induction false} ItemsApart(heap: Heap, items: seq<Value>, ts: seq<Tree>, met: set<nat>)
    requires UnfoldItems(heap, items, ts) && FreshItems(ts, met)
    ensures Apart(heap, items, met)
    ensures forall i :: 0 <= i < |items| ==> NodesAt(heap, items[i]) <= ItemNodes(ts)
    ensures forall x: nat :: x in ItemNodes(ts) ==> Among(heap, items, x)
    decreases ts
  {
    if ts != [] {
      FreshAlone(ts[0], met);
      WalkIsComplete(heap, items[0], {}, ts[0]);
      assert NodesAt(heap, items[0]) == Nodes(ts[0]);
      ItemsApart(heap, items[1..], ts[1..], met + Nodes(ts[0]));
      forall i | 1 <= i < |items|
        ensures Walk(heap, items[i], {}).Some? && NodesAt(heap, items[i]) !! met + Nodes(ts[0])
        ensures NodesAt(heap, items[i]) <= ItemNodes(ts[1..])
      {
        assert items[1..][i - 1] == items[i];
      }
      forall i, j | 0 <= i < j < |items| ensures NodesAt(heap, items[i]) !! NodesAt(heap, items[j]) {
        assert items[1..][j - 1] == items[j];
        if i > 0 {
          assert items[1..][i - 1] == items[i];
        }
      }
      forall x: nat | x in ItemNodes(ts) ensures Among(heap, items, x) {
        if x !in Nodes(ts[0]) {
          assert x in ItemNodes(ts[1..]);
          AmongTail(heap, items, x);
        } else {
          assert x in NodesAt(heap, items[0]);
        }
      }
    }
  }

  function ValuesOf(props: seq<Keyed<Value>>): (values: seq<Value>)
    ensures |values| == |props|
    ensures forall j :: 0 <= j < |props| ==> values[j] == props[j].value
  {
    seq(|props|, j requires 0 <= j < |props| => props[j].value)
  }

  function TreesOf(props: seq<Keyed<Tree>>): (trees: seq<Tree>)
    ensures |trees| == |props|
    ensures forall j :: 0 <= j < |props| ==> trees[j] == props[j].value
  {
    if props == [] then [] else [props[0].value] + TreesOf(props[1..])
  }

  /** The properties of an object, names aside, are the items of an array. */
  lemma {:induction false} PropsAsItems(heap: Heap, props: seq<Keyed<Value>>, ts: seq<Keyed<Tree>>, met: set<nat>)
    requires UnfoldProps(heap, props, ts) && FreshProps(ts, met)
    ensures UnfoldItems(heap, ValuesOf(props), TreesOf(ts)) && FreshItems(TreesOf(ts), met)
    ensures ItemNodes(TreesOf(ts)) == PropNodes(ts)
    decreases ts
  {
    if ts != [] {
      PropsAsItems(heap, props[1..], ts[1..], met + Nodes(ts[0].value));
      assert ValuesOf(props)[1..] == ValuesOf(props[1..]);
      assert TreesOf(ts)[1..] == TreesOf(ts[1..]);
    }
  }

  lemma {:induction false} KeysAt<V>(entries: seq<Keyed<V>>, key: Text)
    ensures HasKey(entries, key) <==> exists i :: 0 <= i < |entries| && entries[i].key == key
  {
    if entries != [] {
      KeysAt(entries[1..], key);
      if i :| 0 <= i < |entries| && entries[i].key == key {
        if i > 0 {
          assert entries[1..][i - 1].key == key;
        }
      }
      if HasKey(entries[1..], key) {
        var i :| 0 <= i < |entries[1..]| && entries[1..][i].key == key;
        assert entries[i + 1].key == key;
      }
    }
  }

  lemma {:induction false} DistinctAt<V>(entries: seq<Keyed<V>>, i: nat, j: nat)
    requires DistinctKeys(entries) && i < j < |entries|
    ensures entries[i].key != entries[j].key
  {
    if i == 0 {
      KeysAt(entries[1..], entries[0].key);
      assert entries[1..][j - 1] == entries[j];
    } else {
      DistinctAt(entries[1..], i - 1, j - 1);
    }
  }

  /** Where a property of an object went when the properties were sorted. */
  lemma SortedPlace<V>(props: seq<Keyed<V>>, i: nat) returns (k: nat)
    requires i < |props|
    ensures k < |props| && Sort(props)[k] == props[i]
  {
    SortMember(props, props[i]);
    k :| 0 <= k < |Sort(props)| && Sort(props)[k] == props[i];
  }

  /** Being apart does not depend on the order of an object's properties. */
  lemma OwnOrderApart(heap: Heap, props: seq<Keyed<Value>>, met: set<nat>)
    requires DistinctKeys(props) && Apart(heap, ValuesOf(Sort(props)), met)
    ensures Apart(heap, ValuesOf(props), met)
  {
    var own, ordered := ValuesOf(props), ValuesOf(Sort(props));
    forall i | 0 <= i < |own| ensures Walk(heap, own[i], {}).Some? && NodesAt(heap, own[i]) !! met {
      var k := SortedPlace(props, i);
      assert ordered[k] == own[i];
    }
    forall i, j | 0 <= i < j < |own| ensures NodesAt(heap, own[i]) !! NodesAt(heap, own[j]) {
      DistinctAt(props, i, j);
      var k := SortedPlace(props, i);
      var m := SortedPlace(props, j);
      assert ordered[k] == own[i] && ordered[m] == own[j] && k != m;
    }
  }

  lemma OwnOrderNodes(heap: Heap, props: seq<Keyed<Value>>)
    ensures NodesOfAll(heap, ValuesOf(props)) == NodesOfAll(heap, ValuesOf(Sort(props)))
  {
    var own, ordered := ValuesOf(props), ValuesOf(Sort(props));
    forall x: nat ensures x in NodesOfAll(heap, own) <==> x in NodesOfAll(heap, ordered) {
      NodeOfAll(heap, own, x);
      NodeOfAll(heap, ordered, x);
      if i :| 0 <= i < |own| && x in NodesAt(heap, own[i]) {
        var k := SortedPlace(props, i);
        assert x in NodesAt(heap, ordered[k]);
      }
      if k :| 0 <= k < |ordered| && x in NodesAt(heap, ordered[k]) {
        SortMember(props, Sort(props)[k]);
        var i :| 0 <= i < |props| && props[i] == Sort(props)[k];
        assert x in NodesAt(heap, own[i]);
      }
    }
  }

  /** An object's own values: the items of an array, the values of properties. */
  function PartsOf(node: Node): seq<Value> {
    match node
    case ArrayNode(items) => items
    case ObjectNode(props) => ValuesOf(props)
    case ExoticNode => []
  }

  /** An accepted array or object: its parts are apart, and with the node itself they are all there is. */
  lemma PartsApart(heap: Heap, r: nat)
    requires r in heap && Walk(heap, Ref(r), {}).Some?
    requires heap[r].ObjectNode? ==> DistinctKeys(heap[r].props)
    ensures Apart(heap, PartsOf(heap[r]), {r}) && NodesAt(heap, Ref(r)) == {r} + NodesOfAll(heap, PartsOf(heap[r]))
  {
    WalkIsSound(heap, Ref(r), {});
    var t := Walk(heap, Ref(r), {}).value.0;
    if heap[r].ArrayNode? {
      ItemsApart(heap, heap[r].items, t.items, {} + {r});
      SameNodes(heap, heap[r].items, t.items);
    } else {
      var sorted := Sort(heap[r].props);
      PropsAsItems(heap, sorted, t.props, {} + {r});
      ItemsApart(heap, ValuesOf(sorted), TreesOf(t.props), {} + {r});
      SameNodes(heap, ValuesOf(sorted), TreesOf(t.props));
      OwnOrderApart(heap, heap[r].props, {r});
      OwnOrderNodes(heap, heap[r].props);
    }
  }

  /** What the freezing of a node relies on: it was not met, and neither were its parts. */
  lemma PartsNext(heap: Heap, r: nat, visited: set<nat>)
    requires ProperHeap(heap) && Accepted(heap, Ref(r), visited)
    ensures r in heap && r !in visited && Apart(heap, PartsOf(heap[r]), visited + {r})
    ensures visited + NodesAt(heap, Ref(r)) == visited + {r} + NodesOfAll(heap, PartsOf(heap[r]))
  {
    PartsApart(heap, r);
    ApartFrom(heap, PartsOf(heap[r]), {r}, visited);
    assert {r} + visited == visited + {r};
  }

  lemma SameNodes(heap: Heap, items: seq<Value>, ts: seq<Tree>)
    requires forall i :: 0 <= i < |items| ==> NodesAt(heap, items[i]) <= ItemNodes(ts)
    requires forall x: nat :: x in ItemNodes(ts) ==> Among(heap, items, x)
    ensures NodesOfAll(heap, items) == ItemNodes(ts)
  {
    forall x: nat ensures x in NodesOfAll(heap, items) <==> x in ItemNodes(ts) {
      NodeOfAll(heap, items, x);
    }
  }

  // ---------------------------------------------------------------------------------------
  // Freezing

  /** Of own properties no two have one name. */
  ghost predicate ProperHeap(heap: Heap) {
    forall r :: r in heap && heap[r].ObjectNode? ==> DistinctKeys(heap[r].props)
  }

  /** An accepted payload of which nothing has been met. */
  predicate Accepted(heap: Heap, v: Value, visited: set<nat>) {
    Walk(heap, v, {}).Some? && NodesAt(heap, v) !! visited
  }

  /**
    freezeApprovedPayload: it refuses what it meets twice, so of an accepted payload nothing, and
    freezes what it meets: of an accepted payload, all of it.
  */
  method FreezeApprovedPayload(heap: Heap, v: Value, visited: set<nat>, frozen: set<nat>)
    returns (ok: bool, visited': set<nat>, frozen': set<nat>)
    requires ProperHeap(heap)
    ensures visited <= visited' && frozen <= frozen'
    ensures ok ==> visited' <= visited + frozen'
    ensures Accepted(heap, v, visited) ==> ok && visited' == visited + NodesAt(heap, v)
    decreases |heap.Keys - visited|, 0
  {
    ok, visited', frozen' := true, visited, frozen;
    if !v.Ref? {
      return;
    }
    var r := v.ref;
    if Accepted(heap, v, visited) {
      PartsNext(heap, r, visited);
    }
    if r in visited {
      ok := false;
      return;
    }
    visited' := visited' + {r};
    if r in heap {
      assert heap.Keys - visited' == heap.Keys - visited - {r};
      ok, visited', frozen' := FreezeAll(heap, PartsOf(heap[r]), visited', frozen);
    }
    frozen' := frozen' + {r};
  }

  lemma ApartFrom(heap: Heap, values: seq<Value>, met: set<nat>, more: set<nat>)
    requires Apart(heap, values, met) && NodesOfAll(heap, values) !! more
    ensures Apart(heap, values, met + more)
  {
    forall i | 0 <= i < |values| ensures NodesAt(heap, values[i]) !! met + more {
      forall x | x in NodesAt(heap, values[i]) ensures x !in more {
        NodeOfAll(heap, values, x);
      }
    }
  }

  lemma NextApart(heap: Heap, values: seq<Value>, i: nat, visited: set<nat>)
    requires i < |values| && Apart(heap, values, visited)
    ensures Accepted(heap, values[i], visited + NodesOfAll(heap, values[..i]))
    ensures NodesOfAll(heap, values[..i + 1]) == NodesOfAll(heap, values[..i]) + NodesAt(heap, values[i])
  {
    assert values[..i + 1][..i] == values[..i];
    forall x | x in NodesAt(heap, values[i]) ensures x !in NodesOfAll(heap, values[..i]) {
      NodeOfAll(heap, values[..i], x);
      assert forall j :: 0 <= j < i ==> values[..i][j] == values[j] && NodesAt(heap, values[j]) !! NodesAt(heap, values[i]);
    }
  }

  /** After `i` values: if they are apart, exactly their nodes have been met. */
  ghost predicate Progress(heap: Heap, values: seq<Value>, i: nat, visited: set<nat>, now: set<nat>)
    requires i <= |values|
  {
    Apart(heap, values, visited) ==> now == visited + NodesOfAll(heap, values[..i])
  }

  lemma ProgressStep(heap: Heap, values: seq<Value>, i: nat, visited: set<nat>, now: set<nat>, ok: bool, next: set<nat>)
    requires i < |values| && Progress(heap, values, i, visited, now)
    requires Accepted(heap, values[i], now) ==> ok && next == now + NodesAt(heap, values[i])
    ensures Apart(heap, values, visited) ==> ok
    ensures Progress(heap, values, i + 1, visited, next)
  {
    if Apart(heap, values, visited) {
      NextApart(heap, values, i, visited);
      assert now + NodesAt(heap, values[i]) == visited + NodesOfAll(heap, values[..i + 1]);
    }
  }

  lemma ProgressEnds(heap: Heap, values: seq<Value>, visited: set<nat>, now: set<nat>)
    requires Progress(heap, values, |values|, visited, now)
    ensures Apart(heap, values, visited) ==> now == visited + NodesOfAll(heap, values)
  {
    assert values[..|values|] == values;
  }

  /** The loop over an object's own values. */
  method FreezeAll(heap: Heap, values: seq<Value>, visited: set<nat>, frozen: set<nat>)
    returns (ok: bool, visited': set<nat>, frozen': set<nat>)
    requires ProperHeap(heap)
    ensures visited <= visited' && frozen <= frozen'
    ensures ok ==> visited' <= visited + frozen'
    ensures Apart(heap, values, visited) ==> ok && visited' == visited + NodesOfAll(heap, values)
    decreases |heap.Keys - visited|, 1
  {
    ok, visited', frozen' := true, visited, frozen;
    for i := 0 to |values|
      invariant visited <= visited' && frozen <= frozen' && visited' <= visited + frozen'
      invariant ok && Progress(heap, values, i, visited, visited')
    {
      FewerLeft(heap.Keys, visited, visited');
      ghost var now := visited';
      ok, visited', frozen' := FreezeApprovedPayload(heap, values[i], visited', frozen');
      ProgressStep(heap, values, i, visited, now, ok, visited');
      if !ok {
        return;
      }
    }
    ProgressEnds(heap, values, visited, visited');
  }

  // ---------------------------------------------------------------------------------------
  // The seal

  lemma {:induction false} SealedTreeStays(before: World, after: World, v: Value, t: Tree)
    requires Mutates(before, after) && Unfolds(before.heap, v, t) && Nodes(t) <= before.frozen
    ensures Unfolds(after.heap, v, t)
    decreases t
  {
    match t
    case Leaf(_) =>
    case Array(r, items) => SealedItemsStay(before, after, At(before.heap, r).items, items);
    case Object(r, props) => SealedPropsStay(before, after, Sort(At(before.heap, r).props), props);
  }

  lemma {:induction false} SealedItemsStay(before: World, after: World, vs: seq<Value>, ts: seq<Tree>)
    requires Mutates(before, after) && UnfoldItems(before.heap, vs, ts) && ItemNodes(ts) <= before.frozen
    ensures UnfoldItems(after.heap, vs, ts)
    decreases ts
  {
    if ts != [] {
      SealedTreeStays(before, after, vs[0], ts[0]);
      SealedItemsStay(before, after, vs[1..], ts[1..]);
    }
  }

  lemma {:induction false} SealedPropsStay(before: World, after: World, vs: seq<Keyed<Value>>, ts: seq<Keyed<Tree>>)
    requires Mutates(before, after) && UnfoldProps(before.heap, vs, ts) && PropNodes(ts) <= before.frozen
    ensures UnfoldProps(after.heap, vs, ts)
    decreases ts
  {
    if ts != [] {
      SealedTreeStays(before, after, vs[0].value, ts[0].value);
      SealedPropsStay(before, after, vs[1..], ts[1..]);
    }
  }

  /** The payload is a tree with this digest, and all of it is frozen. */
  ghost predicate Sealed(sha: Hash, w: World, payload: Value, digest: Digest) {
    PayloadDigest(sha, w.heap, payload) == Some(digest) && NodesAt(w.heap, payload) <= w.frozen
  }

  /** Whatever other code does, a sealed payload keeps its digest and its seal. */
  lemma SealHolds(sha: Hash, before: World, after: World, payload: Value, digest: Digest)
    requires Sealed(sha, before, payload, digest) && Mutates(before, after)
    ensures PayloadDigest(sha, after.heap, payload) == Some(digest)
  {
    WalkIsSound(before.heap, payload, {});
    var t := Walk(before.heap, payload, {}).value.0;
    SealedTreeStays(before, after, payload, t);
    WalkIsComplete(after.heap, payload, {}, t);
  }

  // ---------------------------------------------------------------------------------------
  // One evaluation

  /** Whether the base policy, if there is one, lets the call pass. */
  datatype Base = NoBase | BaseAllows | BaseDenies

  datatype Request = Request(isProtected: bool, runtimeId: Text, taskId: Text, agentId: Text, toolName: Text, payload: Value)

  /** The call of the store's consume(), which digests the payload itself. */
  function ConsumeOp(request: Request, digest: Option<Digest>, now: Option<int>): ApprovalStore.Op {
    ApprovalStore.Op.Consume(request.runtimeId, request.taskId, request.agentId, request.toolName, digest, now)
  }

  /** The task, agent, tool and payload of this request. */
  function KeyOf(request: Request, digest: Digest): ApprovalStore.Key {
    ApprovalStore.Key.Key(request.taskId, request.agentId, request.toolName, digest)
  }

  /** One record that grants exactly this request is consumed; nothing else changes. */
  predicate Spends(file: seq<ApprovalStore.Approval>, file': seq<ApprovalStore.Approval>, i: nat,
                   request: Request, digest: Digest, now: Option<int>)
  {
    && now.Some? && i < |file|
    && ApprovalStore.GrantsCall(file[i], request.runtimeId, KeyOf(request, digest), now.value)
    && file' == file[i := file[i].(consumedAt := now)]
  }

  /** The payload has one digest before, while and after the store looks, and a record of the store grants it now. */
  predicate Approves(sha: Hash, request: Request, file: seq<ApprovalStore.Approval>, runtimeId: Text, now: Option<int>,
                     w1: World, w2: World, w3: World)
  {
    var d := PayloadDigest(sha, w2.heap, request.payload);
    && d.Some? && PayloadDigest(sha, w1.heap, request.payload) == d && PayloadDigest(sha, w3.heap, request.payload) == d
    && ApprovalStore.ValidState(file, runtimeId) && ApprovalStore.ProperCall(ConsumeOp(request, d, now), runtimeId)
    && exists i :: 0 <= i < |file| && ApprovalStore.GrantsCall(file[i], runtimeId, KeyOf(request, d.value), now.value)
  }

  /**
    ToolApprovalPolicy.evaluate, called in `w0`: it goes on in `w1` after the base policy, the store
    digests the payload in `w2`, and `w3` is the world when the store has answered.  `store.file` is
    the file as the store's operation finds and leaves it.
  */
  method Evaluate(sha: Hash, request: Request, base: Base, store: ApprovalStore.JsonFileToolApprovalStore, now: Option<int>,
                  ghost w0: World, w1: World, w2: World, w3: World)
    returns (allowed: bool, w4: World)
    requires Mutates(w0, w1) && Mutates(w1, w2) && Mutates(w2, w3) && ProperHeap(w3.heap)
    requires base.NoBase? ==> w1 == w0
    modifies store
    ensures base.BaseDenies? ==> !allowed && store.file == old(store.file)
    ensures !base.BaseDenies? && !request.isProtected ==> allowed && store.file == old(store.file)
    ensures store.file == old(store.file) || exists d: Digest, i ::
              PayloadDigest(sha, w2.heap, request.payload) == Some(d) &&
              Spends(old(store.file), store.file, i, request, d, now)
    ensures !base.BaseDenies? && request.isProtected ==>
              (allowed <==> request.agentId != [] &&
                            Approves(sha, request, old(store.file), store.runtimeId, now, w1, w2, w3))
    ensures allowed && request.isProtected ==>
              var d := PayloadDigest(sha, w2.heap, request.payload).value;
              && (exists i :: Spends(old(store.file), store.file, i, request, d, now))
              && Sealed(sha, w4, request.payload, d)
    ensures w4.heap == w1.heap || w4.heap == w3.heap
  {
    w4 := w1;
    if base.BaseDenies? {
      return false, w1;
    }
    if !request.isProtected {
      return true, w1;
    }
    if request.agentId == [] {
      return false, w1;
    }
    var preConsume := PayloadDigest(sha, w1.heap, request.payload);
    if preConsume.None? {
      return false, w1;
    }

    var atStore := PayloadDigest(sha, w2.heap, request.payload);
    w4 := w3;
    var reply := store.Consume(ConsumeOp(request, atStore, now));
    ApprovalStore.ApprovedExactlyIfGranted(old(store.file), store.runtimeId, ConsumeOp(request, atStore, now));
    if !reply.Approved? {
      return false, w3;
    }
    ghost var i := ApprovalStore.FindUsable(old(store.file), ConsumeOp(request, atStore, now));
    assert Spends(old(store.file), store.file, i, request, atStore.value, now);

    var postConsume := PayloadDigest(sha, w3.heap, request.payload);
    if postConsume != preConsume || Some(reply.approval.payloadDigest) != postConsume {
      return false, w3;
    }
    var ok, visited, frozen := FreezeApprovedPayload(w3.heap, request.payload, {}, w3.frozen);
    w4 := World(w3.heap, frozen);
    if !ok || PayloadDigest(sha, w4.heap, request.payload) != postConsume {
      return false, w4;
    }
    return true, w4;
  }

  /**
    The tool gets the payload that was approved: the tree it sees, whatever happened since the policy
    allowed the call, has the shape of the tree the store digested, or the two texts collide.
  */
  lemma ToolSeesApprovedPayload(sha: Hash, w2: World, w4: World, w5: World, payload: Value, d: Digest, approved: Tree, seen: Tree)
    requires PayloadDigest(sha, w2.heap, payload) == Some(d) && Sealed(sha, w4, payload, d) && Mutates(w4, w5)
    requires Unfolds(w2.heap, payload, approved) && Fresh(approved, {})
    requires Unfolds(w5.heap, payload, seen) && Fresh(seen, {})
    ensures var prefix := Units("agentlily-tool-approval-v1\0");
            || ShapeOf(seen) == ShapeOf(approved)
            || Collide(sha, prefix + TextOf(ShapeOf(approved)), prefix + TextOf(ShapeOf(seen)))
  {
    SealHolds(sha, w4, w5, payload, d);
    WalkIsComplete(w2.heap, payload, {}, approved);
    WalkIsComplete(w5.heap, payload, {}, seen);
    var prefix := Units("agentlily-tool-approval-v1\0");
    var x, y := TextOf(ShapeOf(approved)), TextOf(ShapeOf(seen));
    if prefix + x == prefix + y {
      SameRest(prefix, x, y);
      TextDeterminesShape(ShapeOf(approved), ShapeOf(seen));
    }
  }
}
