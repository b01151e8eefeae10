/**
  Reading an approval payload out of a heap of JavaScript objects
  (src/policies/tool-approval-policy.ts:77-192): it ends on every heap, cyclic ones included, and
  succeeds exactly on unshared trees of supported values.

  A node is an ordinary array without holes, a plain object, or anything else; symbols, accessors,
  foreign prototypes and extra array properties all make a node exotic.
*/
module PayloadHeap {
  import opened Common
  import opened Texts
  import opened JsonStrings
  import opened KeyOrder
  import opened PayloadText

  type Scalar = s: Shape | !s.Arr? && !s.Obj? witness Undef

  /** A function, a symbol, a NaN or an infinity is unsupported. */
  datatype Value = Plain(scalar: Scalar) | Ref(ref: nat) | Unsupported

  datatype Node = ArrayNode(items: seq<Value>) | ObjectNode(props: seq<Keyed<Value>>) | ExoticNode

  type Heap = map<nat, Node>

  /** What a reference leads to; a reference always leads to something in JavaScript. */
  function At(heap: Heap, r: nat): Node {
    if r in heap then heap[r] else ExoticNode
  }

  // ---------------------------------------------------------------------------------------
  // Trees

  /** A payload unfolded, with the reference of every node. */
  datatype Tree = Leaf(scalar: Scalar) | Array(ref: nat, items: seq<Tree>) | Object(ref: nat, props: seq<Keyed<Tree>>)

  function ShapeOf(t: Tree): Shape
    decreases t
  {
    match t
    case Leaf(s) => s
    case Array(_, items) => Arr(ShapesOf(items))
    case Object(_, props) => Obj(PropShapesOf(props))
  }

  function ShapesOf(items: seq<Tree>): (r: seq<Shape>)
    ensures |r| == |items|
    ensures forall i :: 0 <= i < |r| ==> r[i] == ShapeOf(items[i])
    decreases items
  {
    if items == [] then [] else [ShapeOf(items[0])] + ShapesOf(items[1..])
  }

  function PropShapesOf(props: seq<Keyed<Tree>>): (r: seq<Keyed<Shape>>)
    ensures |r| == |props|
    ensures forall i :: 0 <= i < |r| ==> r[i] == Keyed(props[i].key, ShapeOf(props[i].value))
    decreases props
  {
    if props == [] then [] else [Keyed(props[0].key, ShapeOf(props[0].value))] + PropShapesOf(props[1..])
  }

  /** The tree that unfolding a value gives, properties in ascending order. */
  predicate Unfolds(heap: Heap, v: Value, t: Tree)
    decreases t
  {
    match t
    case Leaf(s) => v == Plain(s)
    case Array(r, items) => v == Ref(r) && At(heap, r).ArrayNode? && UnfoldItems(heap, At(heap, r).items, items)
    case Object(r, props) => v == Ref(r) && At(heap, r).ObjectNode? && UnfoldProps(heap, Sort(At(heap, r).props), props)
  }

  predicate UnfoldItems(heap: Heap, vs: seq<Value>, ts: seq<Tree>)
    decreases ts
  {
    if ts == [] then vs == []
    else vs != [] && Unfolds(heap, vs[0], ts[0]) && UnfoldItems(heap, vs[1..], ts[1..])
  }

  predicate UnfoldProps(heap: Heap, vs: seq<Keyed<Value>>, ts: seq<Keyed<Tree>>)
    decreases ts
  {
    if ts == [] then vs == []
    else vs != [] && vs[0].key == ts[0].key && Unfolds(heap, vs[0].value, ts[0].value) &&
         UnfoldProps(heap, vs[1..], ts[1..])
  }

  /** A tree none of whose nodes appears twice or is among those already met. */
  predicate Fresh(t: Tree, met: set<nat>)
    decreases t
  {
    match t
    case Leaf(_) => true
    case Array(r, items) => r !in met && FreshItems(items, met + {r})
    case Object(r, props) => r !in met && FreshProps(props, met + {r})
  }

  predicate FreshItems(items: seq<Tree>, met: set<nat>)
    decreases items
  {
    items == [] || (Fresh(items[0], met) && FreshItems(items[1..], met + Nodes(items[0])))
  }

  predicate FreshProps(props: seq<Keyed<Tree>>, met: set<nat>)
    decreases props
  {
    props == [] || (Fresh(props[0].value, met) && FreshProps(props[1..], met + Nodes(props[0].value)))
  }

  function Nodes(t: Tree): set<nat>
    decreases t
  {
    match t
    case Leaf(_) => {}
    case Array(r, items) => {r} + ItemNodes(items)
    case Object(r, props) => {r} + PropNodes(props)
  }

  function ItemNodes(items: seq<Tree>): set<nat>
    decreases items
  {
    if items == [] then {} else Nodes(items[0]) + ItemNodes(items[1..])
  }

  function PropNodes(props: seq<Keyed<Tree>>): set<nat>
    decreases props
  {
    if props == [] then {} else Nodes(props[0].value) + PropNodes(props[1..])
  }

  // ---------------------------------------------------------------------------------------
  // The walk

  /** The tree of a value and the nodes met so far; `None` is the source's TypeError. */
  function Walk(heap: Heap, v: Value, met: set<nat>): (r: Option<(Tree, set<nat>)>)
    ensures r.Some? ==> met <= r.value.1
    decreases |heap.Keys - met|, 0, 0
  {
    match v
    case Plain(s) => Some((Leaf(s), met))
    case Unsupported => None
    case Ref(r) =>
      if r in met || r !in heap then None
      else
        assert heap.Keys - (met + {r}) == heap.Keys - met - {r};
        match heap[r]
        case ExoticNode => None
        case ArrayNode(items) =>
          var w := WalkItems(heap, items, met + {r});
          if w.None? then None else Some((Array(r, w.value.0), w.value.1))
        case ObjectNode(props) =>
          var w := WalkProps(heap, Sort(props), met + {r});
          if w.None? then None else Some((Object(r, w.value.0), w.value.1))
  }

  lemma FewerLeft(all: set<nat>, met: set<nat>, more: set<nat>)
    requires met <= more
    ensures |all - more| <= |all - met|
  {
    assert all - more <= all - met;
    assert (all - met) - ((all - met) - (all - more)) == all - more;
  }

  function WalkItems(heap: Heap, items: seq<Value>, met: set<nat>): (r: Option<(seq<Tree>, set<nat>)>)
    ensures r.Some? ==> met <= r.value.1
    decreases |heap.Keys - met|, 1, |items|
  {
    if items == [] then Some(([], met))
    else
      var first := Walk(heap, items[0], met);
      if first.None? then None
      else
        FewerLeft(heap.Keys, met, first.value.1);
        var more := WalkItems(heap, items[1..], first.value.1);
        if more.None? then None else Some(([first.value.0] + more.value.0, more.value.1))
  }

  function WalkProps(heap: Heap, props: seq<Keyed<Value>>, met: set<nat>): (r: Option<(seq<Keyed<Tree>>, set<nat>)>)
    ensures r.Some? ==> met <= r.value.1
    decreases |heap.Keys - met|, 1, |props|
  {
    if props == [] then Some(([], met))
    else
      var first := Walk(heap, props[0].value, met);
      if first.None? then None
      else
        FewerLeft(heap.Keys, met, first.value.1);
        var more := WalkProps(heap, props[1..], first.value.1);
        if more.None? then None else Some(([Keyed(props[0].key, first.value.0)] + more.value.0, more.value.1))
  }

  // ---------------------------------------------------------------------------------------
  // It succeeds exactly on unshared trees

  lemma {:induction false} WalkIsSound(heap: Heap, v: Value, met: set<nat>)
    requires Walk(heap, v, met).Some?
    ensures var (t, seen) := Walk(heap, v, met).value;
            Unfolds(heap, v, t) && Fresh(t, met) && seen == met + Nodes(t)
    decreases |heap.Keys - met|, 0, 0
  {
    if v.Ref? {
      var r := v.ref;
      assert heap.Keys - (met + {r}) == heap.Keys - met - {r};
      if heap[r].ArrayNode? {
        WalkItemsIsSound(heap, heap[r].items, met + {r});
      } else {
        WalkPropsIsSound(heap, Sort(heap[r].props), met + {r});
      }
    }
  }

  lemma {:induction false} WalkItemsIsSound(heap: Heap, items: seq<Value>, met: set<nat>)
    requires WalkItems(heap, items, met).Some?
    ensures var (ts, seen) := WalkItems(heap, items, met).value;
            UnfoldItems(heap, items, ts) && FreshItems(ts, met) && seen == met + ItemNodes(ts)
    decreases |heap.Keys - met|, 1, |items|
  {
    if items != [] {
      WalkIsSound(heap, items[0], met);
      var (first, seen) := Walk(heap, items[0], met).value;
      FewerLeft(heap.Keys, met, seen);
      WalkItemsIsSound(heap, items[1..], seen);
      var ts := WalkItems(heap, items, met).value.0;
      assert ts[0] == first && ts[1..] == WalkItems(heap, items[1..], seen).value.0;
    }
  }

  lemma {:induction false} WalkPropsIsSound(heap: Heap, props: seq<Keyed<Value>>, met: set<nat>)
    requires WalkProps(heap, props, met).Some?
    ensures var (ts, seen) := WalkProps(heap, props, met).value;
            UnfoldProps(heap, props, ts) && FreshProps(ts, met) && seen == met + PropNodes(ts)
    decreases |heap.Keys - met|, 1, |props|
  {
    if props != [] {
      WalkIsSound(heap, props[0].value, met);
      var (first, seen) := Walk(heap, props[0].value, met).value;
      FewerLeft(heap.Keys, met, seen);
      WalkPropsIsSound(heap, props[1..], seen);
      var ts := WalkProps(heap, props, met).value.0;
      assert ts[0] == Keyed(props[0].key, first) && ts[1..] == WalkProps(heap, props[1..], seen).value.0;
    }
  }

  lemma {:induction false} WalkIsComplete(heap: Heap, v: Value, met: set<nat>, t: Tree)
    requires Unfolds(heap, v, t) && Fresh(t, met)
    ensures Walk(heap, v, met) == Some((t, met + Nodes(t)))
    decreases t
  {
    match t
    case Leaf(_) => assert met + {} == met;
    case Array(r, items) =>
      WalkItemsIsComplete(heap, heap[r].items, met + {r}, items);
      assert met + {r} + ItemNodes(items) == met + Nodes(t);
    case Object(r, props) =>
      WalkPropsIsComplete(heap, Sort(heap[r].props), met + {r}, props);
      assert met + {r} + PropNodes(props) == met + Nodes(t);
  }

  lemma {:induction false} WalkItemsIsComplete(heap: Heap, items: seq<Value>, met: set<nat>, ts: seq<Tree>)
    requires UnfoldItems(heap, items, ts) && FreshItems(ts, met)
    ensures WalkItems(heap, items, met) == Some((ts, met + ItemNodes(ts)))
    decreases ts
  {
    if ts == [] {
      assert met + {} == met;
    } else {
      WalkIsComplete(heap, items[0], met, ts[0]);
      WalkItemsIsComplete(heap, items[1..], met + Nodes(ts[0]), ts[1..]);
      assert met + Nodes(ts[0]) + ItemNodes(ts[1..]) == met + ItemNodes(ts);
      assert [ts[0]] + ts[1..] == ts;
    }
  }

  lemma {:induction false} WalkPropsIsComplete(heap: Heap, props: seq<Keyed<Value>>, met: set<nat>, ts: seq<Keyed<Tree>>)
    requires UnfoldProps(heap, props, ts) && FreshProps(ts, met)
    ensures WalkProps(heap, props, met) == Some((ts, met + PropNodes(ts)))
    decreases ts
  {
    if ts == [] {
      assert met + {} == met;
    } else {
      WalkIsComplete(heap, props[0].value, met, ts[0].value);
      WalkPropsIsComplete(heap, props[1..], met + Nodes(ts[0].value), ts[1..]);
      assert met + Nodes(ts[0].value) + PropNodes(ts[1..]) == met + PropNodes(ts);
      assert Keyed(props[0].key, ts[0].value) == ts[0];
      assert [ts[0]] + ts[1..] == ts;
    }
  }

  /** The canonical text of a payload, or `None` when it is refused. */
  function CanonicalText(heap: Heap, v: Value): Option<Text> {
    var w := Walk(heap, v, {});
    if w.None? then None else Some(TextOf(ShapeOf(w.value.0)))
  }

  /** A finite tree of supported values in which no node is met twice. */
  ghost predicate IsUnsharedTree(heap: Heap, v: Value) {
    exists t: Tree :: Unfolds(heap, v, t) && Fresh(t, {})
  }

  /** A payload is accepted exactly if it is such a tree. */
  lemma AcceptedExactlyUnsharedTrees(heap: Heap, v: Value)
    ensures CanonicalText(heap, v).Some? <==> IsUnsharedTree(heap, v)
  {
    var none: set<nat> := {};
    if Walk(heap, v, none).Some? {
      WalkIsSound(heap, v, none);
      var t := Walk(heap, v, none).value.0;
      assert Unfolds(heap, v, t) && Fresh(t, none);
    }
    if IsUnsharedTree(heap, v) {
      var t: Tree :| Unfolds(heap, v, t) && Fresh(t, none);
      WalkIsComplete(heap, v, none, t);
      assert Walk(heap, v, none).Some?;
    }
  }

  /** Two accepted payloads have one text exactly if they are the same type-tagged tree. */
  lemma SameTextExactlySameShape(heap: Heap, v: Value, heap': Heap, v': Value, t: Tree, t': Tree)
    requires Unfolds(heap, v, t) && Fresh(t, {}) && Unfolds(heap', v', t') && Fresh(t', {})
    ensures CanonicalText(heap, v) == CanonicalText(heap', v') <==> ShapeOf(t) == ShapeOf(t')
  {
    WalkIsComplete(heap, v, {}, t);
    WalkIsComplete(heap', v', {}, t');
    if TextOf(ShapeOf(t)) == TextOf(ShapeOf(t')) {
      TextDeterminesShape(ShapeOf(t), ShapeOf(t'));
    }
  }

  // ---------------------------------------------------------------------------------------
  // The recursion of the source

  function Join(parts: seq<Text>): Text {
    if parts == [] then [] else if |parts| == 1 then parts[0] else parts[0] + [COMMA] + Join(parts[1..])
  }

  lemma {:induction false} JoinItems(parts: seq<Text>, items: seq<Shape>)
    requires |parts| == |items| && forall i :: 0 <= i < |parts| ==> parts[i] == TextOf(items[i])
    ensures Join(parts) == ItemsText(items)
  {
    if |parts| > 1 {
      JoinItems(parts[1..], items[1..]);
    }
  }

  lemma {:induction false} JoinProps(parts: seq<Text>, props: seq<Keyed<Shape>>)
    requires |parts| == |props| && forall i :: 0 <= i < |parts| ==> parts[i] == PropText(props[i])
    ensures Join(parts) == PropsText(props)
  {
    if |parts| > 1 {
      JoinProps(parts[1..], props[1..]);
    }
  }

  lemma {:induction false} WalkItemsPush(heap: Heap, items: seq<Value>, v: Value, met: set<nat>)
    ensures WalkItems(heap, items + [v], met) ==
            var front := WalkItems(heap, items, met);
            if front.None? then None
            else
              var last := Walk(heap, v, front.value.1);
              if last.None? then None else Some((front.value.0 + [last.value.0], last.value.1))
    decreases |items|
  {
    var all := items + [v];
    if items == [] {
      assert all[0] == v && all[1..] == [];
      var last := Walk(heap, v, met);
      assert last.Some? ==> [last.value.0] + [] == [] + [last.value.0];
    } else {
      var first := Walk(heap, items[0], met);
      assert all[0] == items[0] && all[1..] == items[1..] + [v];
      if first.Some? {
        WalkItemsPush(heap, items[1..], v, first.value.1);
        var front := WalkItems(heap, items[1..], first.value.1);
        if front.Some? {
          var last := Walk(heap, v, front.value.1);
          assert last.Some? ==>
            [first.value.0] + (front.value.0 + [last.value.0]) == [first.value.0] + front.value.0 + [last.value.0];
        }
      }
    }
  }

  lemma {:induction false} WalkPropsPush(heap: Heap, props: seq<Keyed<Value>>, p: Keyed<Value>, met: set<nat>)
    ensures WalkProps(heap, props + [p], met) ==
            var front := WalkProps(heap, props, met);
            if front.None? then None
            else
              var last := Walk(heap, p.value, front.value.1);
              if last.None? then None else Some((front.value.0 + [Keyed(p.key, last.value.0)], last.value.1))
    decreases |props|
  {
    var all := props + [p];
    if props == [] {
      assert all[0] == p && all[1..] == [];
      var last := Walk(heap, p.value, met);
      assert last.Some? ==> [Keyed(p.key, last.value.0)] + [] == [] + [Keyed(p.key, last.value.0)];
    } else {
      var first := Walk(heap, props[0].value, met);
      assert all[0] == props[0] && all[1..] == props[1..] + [p];
      if first.Some? {
        WalkPropsPush(heap, props[1..], p, first.value.1);
        var head := Keyed(props[0].key, first.value.0);
        var front := WalkProps(heap, props[1..], first.value.1);
        if front.Some? {
          var last := Walk(heap, p.value, front.value.1);
          assert last.Some? ==>
            [head] + (front.value.0 + [Keyed(p.key, last.value.0)]) == [head] + front.value.0 + [Keyed(p.key, last.value.0)];
        }
      }
    }
  }

  lemma {:induction false} WalkItemsFails(heap: Heap, items: seq<Value>, i: nat, met: set<nat>)
    requires i <= |items| && WalkItems(heap, items[..i], met).None?
    ensures WalkItems(heap, items, met).None?
    decreases |items| - i
  {
    if i == |items| {
      assert items[..i] == items;
    } else {
      WalkItemsPush(heap, items[..i], items[i], met);
      assert items[..i + 1] == items[..i] + [items[i]];
      WalkItemsFails(heap, items, i + 1, met);
    }
  }

  lemma {:induction false} WalkPropsFails(heap: Heap, props: seq<Keyed<Value>>, i: nat, met: set<nat>)
    requires i <= |props| && WalkProps(heap, props[..i], met).None?
    ensures WalkProps(heap, props, met).None?
    decreases |props| - i
  {
    if i == |props| {
      assert props[..i] == props;
    } else {
      WalkPropsPush(heap, props[..i], props[i], met);
      assert props[..i + 1] == props[..i] + [props[i]];
      WalkPropsFails(heap, props, i + 1, met);
    }
  }

  /** The first `i` items have become these parts and trees. */
  predicate ItemsSoFar(heap: Heap, items: seq<Value>, i: nat, visited: set<nat>, parts: seq<Text>, trees: seq<Tree>, seen: set<nat>) {
    && i <= |items| && visited <= seen && |parts| == |trees| == i
    && WalkItems(heap, items[..i], visited) == Some((trees, seen))
    && forall j :: 0 <= j < i ==> parts[j] == TextOf(ShapeOf(trees[j]))
  }

  predicate PropsSoFar(heap: Heap, props: seq<Keyed<Value>>, i: nat, visited: set<nat>, parts: seq<Text>,
                       trees: seq<Keyed<Tree>>, seen: set<nat>)
  {
    && i <= |props| && visited <= seen && |parts| == |trees| == i
    && WalkProps(heap, props[..i], visited) == Some((trees, seen))
    && forall j :: 0 <= j < i ==> parts[j] == PropText(Keyed(trees[j].key, ShapeOf(trees[j].value)))
  }

  lemma NextItemSoFar(heap: Heap, items: seq<Value>, i: nat, visited: set<nat>, parts: seq<Text>, trees: seq<Tree>, seen: set<nat>)
    requires i < |items| && ItemsSoFar(heap, items, i, visited, parts, trees, seen)
    ensures |heap.Keys - seen| <= |heap.Keys - visited|
    ensures var step := Walk(heap, items[i], seen);
            if step.None? then WalkItems(heap, items, visited).None?
            else ItemsSoFar(heap, items, i + 1, visited, parts + [TextOf(ShapeOf(step.value.0))], trees + [step.value.0], step.value.1)
  {
    ItemTurn(heap, items, i, visited, trees, seen);
  }

  lemma NextPropSoFar(heap: Heap, props: seq<Keyed<Value>>, i: nat, visited: set<nat>, parts: seq<Text>,
                      trees: seq<Keyed<Tree>>, seen: set<nat>)
    requires i < |props| && PropsSoFar(heap, props, i, visited, parts, trees, seen)
    ensures |heap.Keys - seen| <= |heap.Keys - visited|
    ensures var step := Walk(heap, props[i].value, seen);
            if step.None? then WalkProps(heap, props, visited).None?
            else PropsSoFar(heap, props, i + 1, visited,
                            parts + [Quote(props[i].key) + [COLON] + TextOf(ShapeOf(step.value.0))],
                            trees + [Keyed(props[i].key, step.value.0)], step.value.1)
  {
    PropTurn(heap, props, i, visited, trees, seen);
  }

  /** One turn of the array loop. */
  lemma ItemTurn(heap: Heap, items: seq<Value>, i: nat, visited: set<nat>, trees: seq<Tree>, seen: set<nat>)
    requires i < |items| && WalkItems(heap, items[..i], visited) == Some((trees, seen))
    ensures |heap.Keys - seen| <= |heap.Keys - visited|
    ensures var step := Walk(heap, items[i], seen);
            if step.None? then WalkItems(heap, items, visited).None?
            else WalkItems(heap, items[..i + 1], visited) == Some((trees + [step.value.0], step.value.1))
  {
    WalkItemsPush(heap, items[..i], items[i], visited);
    assert items[..i + 1] == items[..i] + [items[i]];
    FewerLeft(heap.Keys, visited, seen);
    if WalkItems(heap, items[..i + 1], visited).None? {
      WalkItemsFails(heap, items, i + 1, visited);
    }
  }

  /** One turn of the property loop. */
  lemma PropTurn(heap: Heap, props: seq<Keyed<Value>>, i: nat, visited: set<nat>, trees: seq<Keyed<Tree>>, seen: set<nat>)
    requires i < |props| && WalkProps(heap, props[..i], visited) == Some((trees, seen))
    ensures |heap.Keys - seen| <= |heap.Keys - visited|
    ensures var step := Walk(heap, props[i].value, seen);
            if step.None? then WalkProps(heap, props, visited).None?
            else WalkProps(heap, props[..i + 1], visited) ==
                 Some((trees + [Keyed(props[i].key, step.value.0)], step.value.1))
  {
    WalkPropsPush(heap, props[..i], props[i], visited);
    assert props[..i + 1] == props[..i] + [props[i]];
    FewerLeft(heap.Keys, visited, seen);
    if WalkProps(heap, props[..i + 1], visited).None? {
      WalkPropsFails(heap, props, i + 1, visited);
    }
  }

  /** The joined parts of an array are its text. */
  lemma ItemsDone(parts: seq<Text>, trees: seq<Tree>)
    requires |parts| == |trees| && forall j :: 0 <= j < |parts| ==> parts[j] == TextOf(ShapeOf(trees[j]))
    ensures [97, COLON, 91] + Join(parts) + [CLOSE_ARRAY] == TextOf(Arr(ShapesOf(trees)))
  {
    JoinItems(parts, ShapesOf(trees));
  }

  lemma PropsDone(parts: seq<Text>, trees: seq<Keyed<Tree>>)
    requires |parts| == |trees|
    requires forall j :: 0 <= j < |parts| ==> parts[j] == PropText(Keyed(trees[j].key, ShapeOf(trees[j].value)))
    ensures [111, COLON, 123] + Join(parts) + [CLOSE_OBJECT] == TextOf(Obj(PropShapesOf(trees)))
  {
    JoinProps(parts, PropShapesOf(trees));
  }

  /** canonicalizePayload, whose set of visited nodes grows through the recursion. */
  method CanonicalizePayload(heap: Heap, v: Value, visited: set<nat>) returns (out: Option<Text>, visited': set<nat>)
    ensures out.Some? <==> Walk(heap, v, visited).Some?
    ensures out.Some? ==> out.value == TextOf(ShapeOf(Walk(heap, v, visited).value.0))
    ensures out.Some? ==> visited' == Walk(heap, v, visited).value.1
    decreases |heap.Keys - visited|, 0
  {
    visited' := visited;
    match v {
      case Plain(s) => return Some(TextOf(s)), visited;
      case Unsupported => return None, visited;
      case Ref(r) =>
        if r in visited || r !in heap {
          return None, visited;
        }
        visited' := visited' + {r};
        assert heap.Keys - visited' == heap.Keys - visited - {r};
        match heap[r] {
          case ExoticNode => return None, visited';
          case ArrayNode(items) =>
            out, visited' := CanonicalizeItems(heap, items, visited');
          case ObjectNode(props) =>
            out, visited' := CanonicalizeProps(heap, Sort(props), visited');
        }
    }
  }

  method CanonicalizeItems(heap: Heap, items: seq<Value>, visited: set<nat>) returns (out: Option<Text>, visited': set<nat>)
    ensures out.Some? <==> WalkItems(heap, items, visited).Some?
    ensures out.Some? ==> out.value == TextOf(Arr(ShapesOf(WalkItems(heap, items, visited).value.0)))
    ensures out.Some? ==> visited' == WalkItems(heap, items, visited).value.1
    decreases |heap.Keys - visited|, 1
  {
    visited' := visited;
    var parts: seq<Text> := [];
    ghost var trees: seq<Tree> := [];
    for i := 0 to |items|
      invariant ItemsSoFar(heap, items, i, visited, parts, trees, visited')
    {
      NextItemSoFar(heap, items, i, visited, parts, trees, visited');
      ghost var step := Walk(heap, items[i], visited');
      var part;
      part, visited' := CanonicalizePayload(heap, items[i], visited');
      if part.None? {
        return None, visited';
      }
      parts := parts + [part.value];
      trees := trees + [step.value.0];
    }
    assert items[..|items|] == items;
    ItemsDone(parts, trees);
    return Some([97, COLON, 91] + Join(parts) + [CLOSE_ARRAY]), visited';
  }

  method CanonicalizeProps(heap: Heap, props: seq<Keyed<Value>>, visited: set<nat>)
    returns (out: Option<Text>, visited': set<nat>)
    ensures out.Some? <==> WalkProps(heap, props, visited).Some?
    ensures out.Some? ==> out.value == TextOf(Obj(PropShapesOf(WalkProps(heap, props, visited).value.0)))
    ensures out.Some? ==> visited' == WalkProps(heap, props, visited).value.1
    decreases |heap.Keys - visited|, 1
  {
    visited' := visited;
    var parts: seq<Text> := [];
    ghost var trees: seq<Keyed<Tree>> := [];
    for i := 0 to |props|
      invariant PropsSoFar(heap, props, i, visited, parts, trees, visited')
    {
      NextPropSoFar(heap, props, i, visited, parts, trees, visited');
      ghost var step := Walk(heap, props[i].value, visited');
      var part;
      part, visited' := CanonicalizePayload(heap, props[i].value, visited');
      if part.None? {
        return None, visited';
      }
      parts := parts + [Quote(props[i].key) + [COLON] + part.value];
      trees := trees + [Keyed(props[i].key, step.value.0)];
    }
    assert props[..|props|] == props;
    PropsDone(parts, trees);
    return Some([111, COLON, 123] + Join(parts) + [CLOSE_OBJECT]), visited';
  }
}
