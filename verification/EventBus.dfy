/**
  The event bus (src/events/runtime-events.ts:174-341) under listeners that do anything: register,
  remove, emit again, throw, or reject later.

  The listener table is a class whose methods are tied to functions; a whole run of the bus is a
  machine over an explicit stack of dispatches, listener calls and error handling, because listeners
  re-enter the bus while it is dispatching.
*/
module EventBus {
  import opened Common

  /** runtime.internal.error, or any other event. */
  datatype Name = InternalError | Other(id: nat)

  /** A listener as registered: a function, or the wrapper that one call of `once` made for it. */
  datatype Listener = Plain(fn: nat) | Wrapped(id: nat, name: Name, fn: nat)

  type Table = map<Name, seq<Listener>>

  /** The listeners of an event, in order of registration; no set is an empty set. */
  function Get(table: Table, name: Name): seq<Listener> {
    if name in table then table[name] else []
  }

  /** Adding to a set; `None` is the listener limit error. */
  function Added(set_: seq<Listener>, listener: Listener, maxListeners: nat): Option<seq<Listener>> {
    if listener in set_ then Some(set_) else if |set_| >= maxListeners then None else Some(set_ + [listener])
  }

  function Without(set_: seq<Listener>, listener: Listener): (r: seq<Listener>)
    ensures |r| <= |set_|
    ensures forall x :: x in r ==> x in set_
  {
    if set_ == [] then []
    else if set_[0] == listener then set_[1..]
    else [set_[0]] + Without(set_[1..], listener)
  }

  /** The first wrapper around a function, if there is one. */
  function WrapperOf(set_: seq<Listener>, fn: nat): (r: Option<Listener>)
    ensures r.Some? ==> r.value in set_ && r.value.Wrapped? && r.value.fn == fn
  {
    if set_ == [] then None
    else if set_[0].Wrapped? && set_[0].fn == fn then Some(set_[0])
    else WrapperOf(set_[1..], fn)
  }

  /** `off`: the listener itself, or else the first wrapper around it. */
  function Removed(set_: seq<Listener>, target: Listener): (seq<Listener>, bool) {
    if target in set_ then (Without(set_, target), true)
    else if target.Plain? && WrapperOf(set_, target.fn).Some? then (Without(set_, WrapperOf(set_, target.fn).value), true)
    else (set_, false)
  }

  // ---------------------------------------------------------------------------------------
  // The listener table

  predicate NoRepeats(set_: seq<Listener>) {
    forall i, j :: 0 <= i < j < |set_| ==> set_[i] != set_[j]
  }

  ghost predicate TableOk(table: Table, maxListeners: nat) {
    forall name :: NoRepeats(Get(table, name)) && |Get(table, name)| <= maxListeners
  }

  lemma SetReplaced(table: Table, maxListeners: nat, name: Name, set_: seq<Listener>)
    requires TableOk(table, maxListeners) && NoRepeats(set_) && |set_| <= maxListeners
    ensures TableOk(table[name := set_], maxListeners)
    ensures Get(table[name := set_], name) == set_
    ensures forall other :: other != name ==> Get(table[name := set_], other) == Get(table, other)
  {
    var after := table[name := set_];
    forall other ensures NoRepeats(Get(after, other)) && |Get(after, other)| <= maxListeners {
      assert NoRepeats(Get(table, other));
    }
  }

  class ListenerTable {
    var listeners: Table
    const maxListeners: nat

    ghost predicate Valid()
      reads this
    {
      maxListeners >= 1 && TableOk(listeners, maxListeners)
    }

    constructor (maxListeners: nat)
      requires maxListeners >= 1
      ensures Valid() && listeners == map[] && this.maxListeners == maxListeners
    {
      this.maxListeners := maxListeners;
      listeners := map[];
    }

    method On(name: Name, listener: Listener) returns (ok: bool)
      requires Valid()
      modifies this
      ensures Valid()
      ensures var added := Added(old(Get(listeners, name)), listener, maxListeners);
              ok == added.Some? && Get(listeners, name) == if ok then added.value else old(Get(listeners, name))
      ensures forall other :: other != name ==> Get(listeners, other) == old(Get(listeners, other))
    {
      var set_ := Get(listeners, name);
      if name !in listeners {
        SetReplaced(listeners, maxListeners, name, []);
        listeners := listeners[name := []];
      }
      if listener in set_ {
        return true;
      }
      if |set_| >= maxListeners {
        return false;
      }
      SetReplaced(listeners, maxListeners, name, set_ + [listener]);
      listeners := listeners[name := set_ + [listener]];
      return true;
    }

    method Off(name: Name, target: Listener) returns (removed: bool)
      requires Valid()
      modifies this
      ensures Valid()
      ensures (Get(listeners, name), removed) == Removed(old(Get(listeners, name)), target)
      ensures forall other :: other != name ==> Get(listeners, other) == old(Get(listeners, other))
    {
      if name !in listeners {
        return false;
      }
      var set_ := Get(listeners, name);
      if target in set_ {
        WithoutNoRepeats(set_, target);
        SetReplaced(listeners, maxListeners, name, Without(set_, target));
        listeners := listeners[name := Without(set_, target)];
        return true;
      }
      for i := 0 to |set_|
        invariant target.Plain? ==> WrapperOf(set_, target.fn) == WrapperOf(set_[i..], target.fn)
        invariant listeners == old(listeners)
      {
        if target.Plain? && set_[i].Wrapped? && set_[i].fn == target.fn {
          assert set_[i..][0] == set_[i];
          WithoutNoRepeats(set_, set_[i]);
          SetReplaced(listeners, maxListeners, name, Without(set_, set_[i]));
          listeners := listeners[name := Without(set_, set_[i])];
          return true;
        }
        assert set_[i..][1..] == set_[i + 1..];
      }
      return false;
    }

    method Clear()
      requires Valid()
      modifies this
      ensures Valid() && forall name :: Get(listeners, name) == []
    {
      listeners := map[];
    }
  }

  lemma {:induction false} WithoutNoRepeats(set_: seq<Listener>, listener: Listener)
    requires NoRepeats(set_)
    ensures NoRepeats(Without(set_, listener)) && listener !in Without(set_, listener)
  {
    if set_ != [] {
      assert set_[0] !in set_[1..] && NoRepeats(set_[1..]);
      if set_[0] != listener {
        var rest := Without(set_[1..], listener);
        WithoutNoRepeats(set_[1..], listener);
        assert set_[0] !in rest;
        assert Without(set_, listener) == [set_[0]] + rest;
      }
    }
  }

  /** The set without its `i`-th listener; all others stay, in their order. */
  function Spliced(set_: seq<Listener>, i: nat): seq<Listener>
    requires i < |set_|
  {
    set_[..i] + set_[i + 1..]
  }

  lemma {:induction false} WithoutSplices(set_: seq<Listener>, i: nat)
    requires i < |set_| && forall k :: 0 <= k < i ==> set_[k] != set_[i]
    ensures Without(set_, set_[i]) == Spliced(set_, i)
  {
    if i > 0 {
      WithoutSplices(set_[1..], i - 1);
      assert set_[0] != set_[i];
    }
  }

  lemma {:induction false} WrapperOfIsFirst(set_: seq<Listener>, fn: nat)
    ensures var w := WrapperOf(set_, fn);
            if w.None? then forall k :: 0 <= k < |set_| ==> !(set_[k].Wrapped? && set_[k].fn == fn)
            else exists i :: 0 <= i < |set_| && w.value == set_[i] && set_[i].Wrapped? && set_[i].fn == fn &&
                             forall k :: 0 <= k < i ==> !(set_[k].Wrapped? && set_[k].fn == fn)
  {
    if set_ != [] && !(set_[0].Wrapped? && set_[0].fn == fn) {
      WrapperOfIsFirst(set_[1..], fn);
      var w := WrapperOf(set_[1..], fn);
      if w.None? {
        forall k | 0 <= k < |set_| ensures !(set_[k].Wrapped? && set_[k].fn == fn) {
          assert k > 0 ==> set_[k] == set_[1..][k - 1];
        }
      } else {
        var i :| 0 <= i < |set_[1..]| && w.value == set_[1..][i] && set_[1..][i].Wrapped? && set_[1..][i].fn == fn &&
                 forall k :: 0 <= k < i ==> !(set_[1..][k].Wrapped? && set_[1..][k].fn == fn);
        forall k | 0 <= k < i + 1 ensures !(set_[k].Wrapped? && set_[k].fn == fn) {
          assert k > 0 ==> set_[k] == set_[1..][k - 1];
        }
        assert w.value == set_[i + 1];
      }
    }
  }

  /** This is the listener that `off` is to remove: the target itself, or else the first wrapper around it. */
  predicate IsTarget(set_: seq<Listener>, i: nat, target: Listener) {
    && i < |set_|
    && (set_[i] == target ||
        (target !in set_ && target.Plain? && set_[i].Wrapped? && set_[i].fn == target.fn &&
         forall k :: 0 <= k < i ==> !(set_[k].Wrapped? && set_[k].fn == target.fn)))
  }

  /** Removing takes exactly one listener out, the target or the first wrapper around it, and keeps all others in order. */
  lemma RemovedIsSpliced(set_: seq<Listener>, target: Listener)
    requires NoRepeats(set_)
    ensures var (rest, removed) := Removed(set_, target);
            && (removed <==> exists i :: IsTarget(set_, i, target))
            && (removed ==> exists i :: IsTarget(set_, i, target) && rest == Spliced(set_, i))
            && (!removed ==> rest == set_)
  {
    if target in set_ {
      var i :| 0 <= i < |set_| && set_[i] == target;
      WithoutSplices(set_, i);
      assert IsTarget(set_, i, target);
    } else if target.Plain? {
      WrapperOfIsFirst(set_, target.fn);
      var w := WrapperOf(set_, target.fn);
      if w.Some? {
        var i :| 0 <= i < |set_| && w.value == set_[i] && set_[i].Wrapped? && set_[i].fn == target.fn &&
                 forall k :: 0 <= k < i ==> !(set_[k].Wrapped? && set_[k].fn == target.fn);
        WithoutSplices(set_, i);
        assert IsTarget(set_, i, target);
      }
    }
  }

  /** Adding keeps all others in order, puts a new listener last, and fails exactly on a full set without the listener. */
  lemma AddedIsLast(set_: seq<Listener>, listener: Listener, maxListeners: nat)
    requires NoRepeats(set_)
    ensures var added := Added(set_, listener, maxListeners);
            && (added.None? <==> listener !in set_ && |set_| >= maxListeners)
            && (added.Some? ==>
                 && listener in added.value && NoRepeats(added.value) && set_ <= added.value
                 && |added.value| <= |set_| + 1 && (listener in set_ ==> added.value == set_)
                 && (listener !in set_ ==> added.value[|set_|] == listener))
  {
  }

  // ---------------------------------------------------------------------------------------
  // Runs

  datatype Stage = Notify | Publish | Published

  /** What the bus is in the middle of, the innermost last. */
  datatype Frame =
    | Dispatch(dispatch: nat, name: Name, next: nat)
    | Calling(name: Name)
    | Handling(failed: Name, stage: Stage)
    | Observing

  datatype Call = Call(dispatch: nat, index: nat, listener: Listener)

  datatype Bus = Bus(
    table: Table, maxListeners: nat, hasObserver: bool,
    emittingInternalError: bool, notifyingObserver: bool,
    stack: seq<Frame>,
    wrappers: nat,                      // how many wrappers `once` has made
    snapshots: seq<seq<Listener>>,      // what each dispatch found registered
    log: seq<Call>)                     // every listener call there has been

  /**
    What happens next: code of a listener, of the observer or of anyone else acts on the bus, returns
    or throws; the bus goes on with its innermost frame; or a promise of an earlier listener rejects.
  */
  datatype Step =
    | On(name: Name, fn: nat)
    | Once(name: Name, fn: nat)
    | Off(name: Name, target: Listener)
    | Clear
    | Emit(name: Name)
    | Return
    | Throw
    | Advance
    | LateRejection(name: Name)

  function Top(bus: Bus): Option<Frame> {
    if bus.stack == [] then None else Some(bus.stack[|bus.stack| - 1])
  }

  function Push(bus: Bus, f: Frame): Bus {
    bus.(stack := bus.stack + [f])
  }

  function Pop(bus: Bus): Bus
    requires bus.stack != []
  {
    bus.(stack := bus.stack[..|bus.stack| - 1])
  }

  function Replace(bus: Bus, f: Frame): Bus
    requires bus.stack != []
  {
    Push(Pop(bus), f)
  }

  function WithSet(bus: Bus, name: Name, set_: seq<Listener>): Bus {
    bus.(table := bus.table[name := set_])
  }

  predicate UserCode(bus: Bus) {
    bus.stack == [] || Top(bus).value.Calling? || Top(bus).value.Observing?
  }

  predicate Enabled(bus: Bus, step: Step) {
    match step
    case Return => bus.stack != [] && UserCode(bus)
    case Throw => bus.stack != [] && UserCode(bus)
    case Advance => bus.stack != [] && !UserCode(bus)
    case LateRejection(_) => bus.stack == []
    case _ => UserCode(bus)
  }

  /** `emit` takes its snapshot at once. */
  function Emitted(bus: Bus, name: Name): Bus {
    Push(bus.(snapshots := bus.snapshots + [Get(bus.table, name)]), Dispatch(|bus.snapshots|, name, 0))
  }

  function AddListener(bus: Bus, name: Name, listener: Listener): Bus {
    var added := Added(Get(bus.table, name), listener, bus.maxListeners);
    if added.Some? then WithSet(bus, name, added.value) else bus
  }

  /** A dispatch goes on to its next listener, which it calls if it is still registered; a wrapper first removes itself. */
  function NextListener(bus: Bus, d: nat, name: Name, next: nat): Bus
    requires bus.stack != [] && d < |bus.snapshots| && next < |bus.snapshots[d]|
  {
    var listener := bus.snapshots[d][next];
    var moved := Replace(bus, Dispatch(d, name, next + 1));
    if listener !in Get(bus.table, name) then moved
    else
      var called := Push(moved, Calling(name)).(log := bus.log + [Call(d, next, listener)]);
      if listener.Wrapped? then WithSet(called, listener.name, Removed(Get(bus.table, listener.name), listener).0) else called
  }

  /** handleListenerError: tell the observer unless it is being told, then publish unless that is being done. */
  function HandlingGoesOn(bus: Bus, failed: Name, stage: Stage): Bus
    requires bus.stack != []
  {
    match stage
    case Notify =>
      var moved := Replace(bus, Handling(failed, Publish));
      if !bus.hasObserver || bus.notifyingObserver then moved
      else Push(moved, Observing).(notifyingObserver := true)
    case Publish =>
      if failed == InternalError || bus.emittingInternalError then Pop(bus)
      else Emitted(Replace(bus, Handling(failed, Published)).(emittingInternalError := true), InternalError)
    case Published => Pop(bus).(emittingInternalError := false)
  }

  function Next(bus: Bus, step: Step): Bus
    requires Enabled(bus, step)
  {
    match step
    case On(name, fn) => AddListener(bus, name, Plain(fn))
    case Once(name, fn) => AddListener(bus, name, Wrapped(bus.wrappers, name, fn)).(wrappers := bus.wrappers + 1)
    case Off(name, target) => WithSet(bus, name, Removed(Get(bus.table, name), target).0)
    case Clear => bus.(table := map[])
    case Emit(name) => Emitted(bus, name)
    case Return => if Top(bus).value.Observing? then Pop(bus).(notifyingObserver := false) else Pop(bus)
    case Throw =>
      if Top(bus).value.Observing? then Pop(bus).(notifyingObserver := false)
      else Push(Pop(bus), Handling(Top(bus).value.name, Notify))
    case LateRejection(name) => Push(bus, Handling(name, Notify))
    case Advance =>
      match Top(bus).value
      case Dispatch(d, name, next) =>
        if d < |bus.snapshots| && next < |bus.snapshots[d]| then NextListener(bus, d, name, next) else Pop(bus)
      case Handling(failed, stage) => HandlingGoesOn(bus, failed, stage)
      case _ => bus
  }

  predicate Init(bus: Bus) {
    && bus.table == map[] && bus.maxListeners >= 1
    && !bus.emittingInternalError && !bus.notifyingObserver
    && bus.stack == [] && bus.wrappers == 0 && bus.snapshots == [] && bus.log == []
  }

  /** The states of a run, step by step. */
  ghost predicate IsRun(start: Bus, steps: seq<Step>, end: Bus)
    decreases |steps|
  {
    if steps == [] then start == end
    else
      var n := |steps| - 1;
      exists before: Bus :: IsRun(start, steps[..n], before) && Enabled(before, steps[n]) && end == Next(before, steps[n])
  }

  // ---------------------------------------------------------------------------------------
  // Invariants

  predicate Known(bus: Bus, listener: Listener) {
    listener.Wrapped? ==> listener.id < bus.wrappers
  }

  /** Sets hold no listener twice, respect the limit, and hold each wrapper under its own event. */
  ghost predicate TableInv(bus: Bus) {
    forall name :: SetInv(bus, name, Get(bus.table, name))
  }

  ghost predicate SetInv(bus: Bus, name: Name, set_: seq<Listener>) {
    && NoRepeats(set_) && |set_| <= bus.maxListeners
    && forall listener :: listener in set_ ==> Known(bus, listener) && (listener.Wrapped? ==> listener.name == name)
  }

  function CountPublished(stack: seq<Frame>): nat {
    if stack == [] then 0
    else CountPublished(stack[..|stack| - 1]) +
         if stack[|stack| - 1].Handling? && stack[|stack| - 1].stage.Published? then 1 else 0
  }

  function CountObserving(stack: seq<Frame>): nat {
    if stack == [] then 0
    else CountObserving(stack[..|stack| - 1]) + if stack[|stack| - 1].Observing? then 1 else 0
  }

  /** The two flags say exactly whether the bus is inside the region they guard, and it is inside once at most. */
  predicate FlagInv(bus: Bus) {
    && CountPublished(bus.stack) == (if bus.emittingInternalError then 1 else 0)
    && CountObserving(bus.stack) == (if bus.notifyingObserver then 1 else 0)
  }

  /** A frame's dispatch exists, and has so far called only listeners before its next one. */
  ghost predicate FrameInv(bus: Bus, f: Frame) {
    f.Dispatch? ==>
      && f.dispatch < |bus.snapshots|
      && (forall k :: 0 <= k < |bus.log| && bus.log[k].dispatch == f.dispatch ==> bus.log[k].index < f.next)
  }

  ghost predicate StackInv(bus: Bus) {
    && (forall i :: 0 <= i < |bus.stack| ==> FrameInv(bus, bus.stack[i]))
    && (forall i, j :: 0 <= i < j < |bus.stack| && bus.stack[i].Dispatch? && bus.stack[j].Dispatch? ==>
          bus.stack[i].dispatch != bus.stack[j].dispatch)
  }

  predicate CallInv(bus: Bus, call: Call) {
    && call.dispatch < |bus.snapshots|
    && call.index < |bus.snapshots[call.dispatch]|
    && bus.snapshots[call.dispatch][call.index] == call.listener
    && Known(bus, call.listener)
  }

  /** Calls come from snapshots; a dispatch calls in order; a wrapper once called is gone and is not called again. */
  ghost predicate LogInv(bus: Bus) {
    && (forall k :: 0 <= k < |bus.log| ==> CallInv(bus, bus.log[k]))
    && (forall j, k :: 0 <= j < k < |bus.log| && bus.log[j].dispatch == bus.log[k].dispatch ==> bus.log[j].index < bus.log[k].index)
    && (forall j, k :: 0 <= j < k < |bus.log| && bus.log[j].listener.Wrapped? ==> bus.log[j].listener != bus.log[k].listener)
    && (forall k :: 0 <= k < |bus.log| && bus.log[k].listener.Wrapped? ==>
          forall name :: bus.log[k].listener !in Get(bus.table, name))
  }

  ghost predicate Inv(bus: Bus) {
    TableInv(bus) && FlagInv(bus) && StackInv(bus) && LogInv(bus)
  }

  lemma InitInv(bus: Bus)
    requires Init(bus)
    ensures Inv(bus)
  {
  }

  lemma CountPush(stack: seq<Frame>, f: Frame)
    ensures CountPublished(stack + [f]) == CountPublished(stack) + if f.Handling? && f.stage.Published? then 1 else 0
    ensures CountObserving(stack + [f]) == CountObserving(stack) + if f.Observing? then 1 else 0
  {
    assert (stack + [f])[..|stack|] == stack;
  }

  // Changing the table only

  /** A set that gains nothing but perhaps one listener never called before keeps the invariant. */
  lemma TableChange(bus: Bus, after: Bus, name: Name, set_: seq<Listener>)
    requires Inv(bus) && after == WithSet(bus, name, set_).(wrappers := after.wrappers) && bus.wrappers <= after.wrappers
    requires SetInv(after, name, set_)
    requires forall listener :: listener in set_ && listener.Wrapped? ==>
               listener in Get(bus.table, name) || listener.id >= bus.wrappers
    ensures Inv(after)
  {
    forall other ensures SetInv(after, other, Get(after.table, other)) {
      if other != name {
        assert SetInv(bus, other, Get(bus.table, other));
      }
    }
    forall i | 0 <= i < |after.stack| ensures FrameInv(after, after.stack[i]) {
      assert FrameInv(bus, bus.stack[i]);
    }
    forall k | 0 <= k < |after.log| ensures CallInv(after, after.log[k]) {
      assert CallInv(bus, bus.log[k]);
    }
    forall k, other | 0 <= k < |after.log| && after.log[k].listener.Wrapped?
      ensures after.log[k].listener !in Get(after.table, other)
    {
      assert CallInv(bus, bus.log[k]);
      assert bus.log[k].listener !in Get(bus.table, other) && bus.log[k].listener !in Get(bus.table, name);
    }
  }

  lemma {:induction false} WithoutMembers(set_: seq<Listener>, listener: Listener, x: Listener)
    requires x in Without(set_, listener)
    ensures x in set_
  {
  }

  lemma RemovedSetInv(bus: Bus, name: Name, target: Listener)
    requires TableInv(bus)
    ensures SetInv(bus, name, Removed(Get(bus.table, name), target).0)
    ensures forall x :: x in Removed(Get(bus.table, name), target).0 ==> x in Get(bus.table, name)
    ensures target.Wrapped? ==> target !in Removed(Get(bus.table, name), target).0
  {
    var set_ := Get(bus.table, name);
    assert SetInv(bus, name, set_);
    if target in set_ {
      WithoutNoRepeats(set_, target);
    } else if target.Plain? && WrapperOf(set_, target.fn).Some? {
      WithoutNoRepeats(set_, WrapperOf(set_, target.fn).value);
    }
  }

  lemma AddKeepsInv(bus: Bus, name: Name, listener: Listener, wrappers: nat)
    requires Inv(bus) && bus.wrappers <= wrappers
    requires listener.Wrapped? ==> listener.name == name && bus.wrappers <= listener.id < wrappers
    ensures Inv(AddListener(bus, name, listener).(wrappers := wrappers))
  {
    var set_ := Get(bus.table, name);
    var after := AddListener(bus, name, listener).(wrappers := wrappers);
    assert SetInv(bus, name, set_);
    var added := Added(set_, listener, bus.maxListeners);
    if added.Some? {
      TableChange(bus, after, name, added.value);
    } else {
      SameTable(bus, wrappers);
    }
  }

  lemma SameTable(bus: Bus, wrappers: nat)
    requires Inv(bus) && bus.wrappers <= wrappers
    ensures Inv(bus.(wrappers := wrappers))
  {
    var after := bus.(wrappers := wrappers);
    forall name ensures SetInv(after, name, Get(after.table, name)) {
      assert SetInv(bus, name, Get(bus.table, name));
    }
    forall i | 0 <= i < |after.stack| ensures FrameInv(after, after.stack[i]) {
      assert FrameInv(bus, bus.stack[i]);
    }
    forall k | 0 <= k < |after.log| ensures CallInv(after, after.log[k]) {
      assert CallInv(bus, bus.log[k]);
    }
  }

  lemma ClearKeepsInv(bus: Bus)
    requires Inv(bus)
    ensures Inv(bus.(table := map[]))
  {
    var after := bus.(table := map[]);
    forall i | 0 <= i < |after.stack| ensures FrameInv(after, after.stack[i]) {
      assert FrameInv(bus, bus.stack[i]);
    }
    forall k | 0 <= k < |after.log| ensures CallInv(after, after.log[k]) {
      assert CallInv(bus, bus.log[k]);
    }
  }

  // Changing the stack only

  /** Everything but the stack and the flags. */
  predicate SameElse(bus: Bus, after: Bus) {
    bus.(stack := after.stack, emittingInternalError := after.emittingInternalError,
         notifyingObserver := after.notifyingObserver) == after
  }

  lemma StackChange(bus: Bus, after: Bus)
    requires Inv(bus) && SameElse(bus, after) && StackInv(after) && FlagInv(after)
    ensures Inv(after)
  {
    forall name ensures SetInv(after, name, Get(after.table, name)) {
      assert SetInv(bus, name, Get(bus.table, name));
    }
    forall k | 0 <= k < |after.log| ensures CallInv(after, after.log[k]) {
      assert CallInv(bus, bus.log[k]);
    }
  }

  lemma PopKeepsStack(bus: Bus)
    requires StackInv(bus) && bus.stack != []
    ensures StackInv(Pop(bus))
  {
    var after := Pop(bus);
    forall i | 0 <= i < |after.stack| ensures FrameInv(after, after.stack[i]) {
      assert FrameInv(bus, bus.stack[i]);
    }
  }

  lemma PushKeepsStack(bus: Bus, f: Frame)
    requires StackInv(bus) && !f.Dispatch?
    ensures StackInv(Push(bus, f))
  {
    var after := Push(bus, f);
    forall i | 0 <= i < |after.stack| ensures FrameInv(after, after.stack[i]) {
      if i < |bus.stack| {
        assert FrameInv(bus, bus.stack[i]);
      }
    }
  }

  lemma PopCounts(bus: Bus)
    requires bus.stack != []
    ensures var f := Top(bus).value;
            && CountPublished(bus.stack) == CountPublished(Pop(bus).stack) + (if f.Handling? && f.stage.Published? then 1 else 0)
            && CountObserving(bus.stack) == CountObserving(Pop(bus).stack) + (if f.Observing? then 1 else 0)
  {
  }

  lemma ReturnKeepsInv(bus: Bus, step: Step)
    requires Inv(bus) && (step == Return || step == Throw) && Enabled(bus, step)
    ensures Inv(Next(bus, step))
  {
    PopKeepsStack(bus);
    PopCounts(bus);
    var after := Next(bus, step);
    if step == Throw && !Top(bus).value.Observing? {
      PushKeepsStack(Pop(bus), Handling(Top(bus).value.name, Notify));
      CountPush(Pop(bus).stack, Handling(Top(bus).value.name, Notify));
    } else {
      StackFlags(Pop(bus), after);
    }
    StackChange(bus, after);
  }

  /** The stack invariant does not look at the flags. */
  lemma StackFlags(bus: Bus, after: Bus)
    requires StackInv(bus) && SameElse(bus, after) && bus.stack == after.stack
    ensures StackInv(after)
  {
    forall i | 0 <= i < |after.stack| ensures FrameInv(after, after.stack[i]) {
      assert FrameInv(bus, bus.stack[i]);
    }
  }

  lemma LateRejectionKeepsInv(bus: Bus, name: Name)
    requires Inv(bus) && bus.stack == []
    ensures Inv(Push(bus, Handling(name, Notify)))
  {
    PushKeepsStack(bus, Handling(name, Notify));
    CountPush(bus.stack, Handling(name, Notify));
    StackChange(bus, Push(bus, Handling(name, Notify)));
  }

  lemma EmitKeepsInv(bus: Bus, name: Name)
    requires Inv(bus)
    ensures Inv(Emitted(bus, name))
  {
    var after := Emitted(bus, name);
    forall other ensures SetInv(after, other, Get(after.table, other)) {
      assert SetInv(bus, other, Get(bus.table, other));
    }
    CountPush(bus.stack, Dispatch(|bus.snapshots|, name, 0));
    forall k | 0 <= k < |after.log| ensures CallInv(after, after.log[k]) && after.log[k].dispatch < |bus.snapshots| {
      assert CallInv(bus, bus.log[k]);
    }
    forall i | 0 <= i < |bus.stack| ensures FrameInv(after, after.stack[i]) && (bus.stack[i].Dispatch? ==> bus.stack[i].dispatch < |bus.snapshots|) {
      assert FrameInv(bus, bus.stack[i]);
    }
  }

  lemma ReplaceKeepsInv(bus: Bus, f: Frame)
    requires Inv(bus) && bus.stack != [] && !f.Dispatch? && !f.Observing? && !(f.Handling? && f.stage.Published?)
    requires var top := Top(bus).value; !top.Observing? && !(top.Handling? && top.stage.Published?)
    ensures Inv(Replace(bus, f))
  {
    PopKeepsStack(bus);
    PopCounts(bus);
    PushKeepsStack(Pop(bus), f);
    CountPush(Pop(bus).stack, f);
    StackChange(bus, Replace(bus, f));
  }

  lemma NotifyKeepsInv(bus: Bus)
    requires Inv(bus) && !bus.notifyingObserver
    ensures Inv(Push(bus, Observing).(notifyingObserver := true))
  {
    var after := Push(bus, Observing).(notifyingObserver := true);
    PushKeepsStack(bus, Observing);
    CountPush(bus.stack, Observing);
    StackFlags(Push(bus, Observing), after);
    StackChange(bus, after);
  }

  lemma PublishKeepsInv(bus: Bus, failed: Name)
    requires Inv(bus) && bus.stack != [] && Top(bus) == Some(Handling(failed, Publish)) && !bus.emittingInternalError
    ensures Inv(Replace(bus, Handling(failed, Published)).(emittingInternalError := true))
  {
    PopKeepsStack(bus);
    PopCounts(bus);
    var moved := Replace(bus, Handling(failed, Published));
    PushKeepsStack(Pop(bus), Handling(failed, Published));
    CountPush(Pop(bus).stack, Handling(failed, Published));
    StackFlags(moved, moved.(emittingInternalError := true));
    StackChange(bus, moved.(emittingInternalError := true));
  }

  lemma PublishedKeepsInv(bus: Bus, failed: Name)
    requires Inv(bus) && bus.stack != [] && Top(bus) == Some(Handling(failed, Published))
    ensures Inv(Pop(bus).(emittingInternalError := false))
  {
    PopKeepsStack(bus);
    PopCounts(bus);
    StackFlags(Pop(bus), Pop(bus).(emittingInternalError := false));
    StackChange(bus, Pop(bus).(emittingInternalError := false));
  }

  lemma PlainPopKeepsInv(bus: Bus)
    requires Inv(bus) && bus.stack != []
    requires var top := Top(bus).value; !top.Observing? && !(top.Handling? && top.stage.Published?)
    ensures Inv(Pop(bus))
  {
    PopKeepsStack(bus);
    PopCounts(bus);
    StackChange(bus, Pop(bus));
  }

  lemma HandlingKeepsInv(bus: Bus, failed: Name, stage: Stage)
    requires Inv(bus) && bus.stack != [] && Top(bus) == Some(Handling(failed, stage))
    ensures Inv(HandlingGoesOn(bus, failed, stage))
  {
    match stage
    case Notify =>
      var moved := Replace(bus, Handling(failed, Publish));
      ReplaceKeepsInv(bus, Handling(failed, Publish));
      if !bus.notifyingObserver {
        NotifyKeepsInv(moved);
      }
    case Publish =>
      if failed == InternalError || bus.emittingInternalError {
        PlainPopKeepsInv(bus);
      } else {
        PublishKeepsInv(bus, failed);
        EmitKeepsInv(Replace(bus, Handling(failed, Published)).(emittingInternalError := true), InternalError);
      }
    case Published => PublishedKeepsInv(bus, failed);
  }

  // The dispatch loop

  lemma MoveOnKeepsStack(bus: Bus, d: nat, name: Name, next: nat)
    requires StackInv(bus) && bus.stack != [] && Top(bus) == Some(Dispatch(d, name, next))
    ensures StackInv(Replace(bus, Dispatch(d, name, next + 1)))
  {
    var after := Replace(bus, Dispatch(d, name, next + 1));
    var n := |bus.stack| - 1;
    assert FrameInv(bus, bus.stack[n]);
    forall i | 0 <= i < |after.stack| ensures FrameInv(after, after.stack[i]) {
      assert FrameInv(bus, bus.stack[i]);
    }
    forall i, j | 0 <= i < j < |after.stack| && after.stack[i].Dispatch? && after.stack[j].Dispatch?
      ensures after.stack[i].dispatch != after.stack[j].dispatch
    {
      assert bus.stack[i].dispatch != bus.stack[j].dispatch;
    }
  }

  lemma MoveOnKeepsInv(bus: Bus, d: nat, name: Name, next: nat)
    requires Inv(bus) && bus.stack != [] && Top(bus) == Some(Dispatch(d, name, next))
    ensures Inv(Replace(bus, Dispatch(d, name, next + 1)))
  {
    MoveOnKeepsStack(bus, d, name, next);
    PopCounts(bus);
    CountPush(Pop(bus).stack, Dispatch(d, name, next + 1));
    StackChange(bus, Replace(bus, Dispatch(d, name, next + 1)));
  }

  /** Recording a call by a dispatch that has gone past its listener. */
  function Recorded(bus: Bus, call: Call): Bus {
    bus.(log := bus.log + [call])
  }

  /** The call is new: later than the dispatch's other calls, and of a wrapper neither called nor registered. */
  ghost predicate NewCall(bus: Bus, call: Call) {
    && CallInv(bus, call)
    && (forall k :: 0 <= k < |bus.log| && bus.log[k].dispatch == call.dispatch ==> bus.log[k].index < call.index)
    && (call.listener.Wrapped? ==>
         && (forall k :: 0 <= k < |bus.log| ==> bus.log[k].listener != call.listener)
         && (forall name :: call.listener !in Get(bus.table, name)))
    && (forall i :: 0 <= i < |bus.stack| && bus.stack[i].Dispatch? && bus.stack[i].dispatch == call.dispatch ==>
          call.index < bus.stack[i].next)
  }

  lemma RecordKeepsLog(bus: Bus, call: Call)
    requires LogInv(bus) && NewCall(bus, call)
    ensures LogInv(Recorded(bus, call))
  {
    var after := Recorded(bus, call);
    forall k | 0 <= k < |after.log| ensures CallInv(after, after.log[k]) {
      if k < |bus.log| {
        assert CallInv(bus, bus.log[k]);
      }
    }
  }

  lemma RecordKeepsInv(bus: Bus, call: Call)
    requires Inv(bus) && NewCall(bus, call)
    ensures Inv(Recorded(bus, call))
  {
    var after := Recorded(bus, call);
    RecordKeepsLog(bus, call);
    forall name ensures SetInv(after, name, Get(after.table, name)) {
      assert SetInv(bus, name, Get(bus.table, name));
    }
    forall i | 0 <= i < |after.stack| ensures FrameInv(after, after.stack[i]) {
      assert FrameInv(bus, bus.stack[i]);
    }
  }

  lemma CallingKeepsInv(bus: Bus, name: Name)
    requires Inv(bus)
    ensures Inv(Push(bus, Calling(name)))
  {
    PushKeepsStack(bus, Calling(name));
    CountPush(bus.stack, Calling(name));
    StackChange(bus, Push(bus, Calling(name)));
  }

  /** Before it is called, a wrapper takes itself off its event; then it is registered nowhere. */
  lemma WrapperLeaves(bus: Bus, name: Name, listener: Listener)
    requires Inv(bus) && listener in Get(bus.table, name) && listener.Wrapped?
    ensures listener.name == name
    ensures var after := WithSet(bus, name, Removed(Get(bus.table, name), listener).0);
            Inv(after) && forall other :: listener !in Get(after.table, other)
  {
    var after := WithSet(bus, name, Removed(Get(bus.table, name), listener).0);
    assert SetInv(bus, name, Get(bus.table, name));
    RemovedSetInv(bus, name, listener);
    TableChange(bus, after, name, Removed(Get(bus.table, name), listener).0);
    forall other ensures listener !in Get(after.table, other) {
      assert SetInv(bus, other, Get(bus.table, other));
    }
  }

  /** What a dispatch's innermost frame and a registered listener say about the call to come. */
  lemma NextCallIsNew(bus: Bus, moved: Bus, d: nat, name: Name, next: nat, listener: Listener)
    requires Inv(bus) && bus.stack != [] && Top(bus) == Some(Dispatch(d, name, next))
    requires d < |bus.snapshots| && next < |bus.snapshots[d]| && bus.snapshots[d][next] == listener
    requires listener in Get(bus.table, name)
    requires moved.stack == Replace(bus, Dispatch(d, name, next + 1)).stack
    requires moved.log == bus.log && moved.snapshots == bus.snapshots && moved.wrappers == bus.wrappers
    requires listener.Wrapped? ==> forall other :: listener !in Get(moved.table, other)
    ensures NewCall(moved, Call(d, next, listener))
  {
    var n := |bus.stack| - 1;
    assert FrameInv(bus, bus.stack[n]);
    assert SetInv(bus, name, Get(bus.table, name));
    forall i | 0 <= i < |moved.stack| && moved.stack[i].Dispatch? && moved.stack[i].dispatch == d
      ensures next < moved.stack[i].next
    {
    }
  }

  lemma NextListenerKeepsInv(bus: Bus, d: nat, name: Name, next: nat)
    requires Inv(bus) && bus.stack != [] && Top(bus) == Some(Dispatch(d, name, next))
    requires d < |bus.snapshots| && next < |bus.snapshots[d]|
    ensures Inv(NextListener(bus, d, name, next))
  {
    var listener := bus.snapshots[d][next];
    var moved := Replace(bus, Dispatch(d, name, next + 1));
    MoveOnKeepsInv(bus, d, name, next);
    if listener in Get(bus.table, name) {
      var left := moved;
      if listener.Wrapped? {
        WrapperLeaves(moved, name, listener);
        left := WithSet(moved, name, Removed(Get(bus.table, name), listener).0);
      }
      NextCallIsNew(bus, left, d, name, next, listener);
      RecordKeepsInv(left, Call(d, next, listener));
      CallingKeepsInv(Recorded(left, Call(d, next, listener)), name);
      assert NextListener(bus, d, name, next) == Push(Recorded(left, Call(d, next, listener)), Calling(name));
    }
  }

  lemma AdvanceKeepsInv(bus: Bus)
    requires Inv(bus) && Enabled(bus, Advance)
    ensures Inv(Next(bus, Advance))
  {
    match Top(bus).value
    case Dispatch(d, name, next) =>
      if d < |bus.snapshots| && next < |bus.snapshots[d]| {
        NextListenerKeepsInv(bus, d, name, next);
      } else {
        PlainPopKeepsInv(bus);
      }
    case Handling(failed, stage) => HandlingKeepsInv(bus, failed, stage);
    case _ =>
  }

  lemma OffKeepsInv(bus: Bus, name: Name, target: Listener)
    requires Inv(bus)
    ensures Inv(WithSet(bus, name, Removed(Get(bus.table, name), target).0))
  {
    RemovedSetInv(bus, name, target);
    TableChange(bus, WithSet(bus, name, Removed(Get(bus.table, name), target).0), name, Removed(Get(bus.table, name), target).0);
  }

  /** Whatever listeners, observers and others do, one step keeps the invariant. */
  lemma StepKeepsInv(bus: Bus, step: Step)
    requires Inv(bus) && Enabled(bus, step)
    ensures Inv(Next(bus, step))
  {
    if step.On? {
      AddKeepsInv(bus, step.name, Plain(step.fn), bus.wrappers);
    } else if step.Once? {
      AddKeepsInv(bus, step.name, Wrapped(bus.wrappers, step.name, step.fn), bus.wrappers + 1);
    } else if step.Off? {
      OffKeepsInv(bus, step.name, step.target);
    } else if step.Clear? {
      ClearKeepsInv(bus);
    } else if step.Emit? {
      EmitKeepsInv(bus, step.name);
    } else if step.Return? || step.Throw? {
      ReturnKeepsInv(bus, step);
    } else if step.Advance? {
      AdvanceKeepsInv(bus);
    } else {
      LateRejectionKeepsInv(bus, step.name);
    }
  }

  lemma {:induction false} RunKeepsInv(start: Bus, steps: seq<Step>, end: Bus)
    requires Init(start) && IsRun(start, steps, end)
    ensures Inv(end)
    decreases |steps|
  {
    if steps == [] {
      InitInv(start);
    } else {
      var n := |steps| - 1;
      var before: Bus :| IsRun(start, steps[..n], before) && Enabled(before, steps[n]) && end == Next(before, steps[n]);
      RunKeepsInv(start, steps[..n], before);
      StepKeepsInv(before, steps[n]);
    }
  }

  // ---------------------------------------------------------------------------------------
  // Main results

  /** A `once` callback is called at most once, even if it or an earlier listener emits its event again. */
  lemma OnceAtMostOnce(start: Bus, steps: seq<Step>, end: Bus, j: nat, k: nat)
    requires Init(start) && IsRun(start, steps, end)
    requires j < k < |end.log| && end.log[j].listener.Wrapped?
    ensures end.log[j].listener != end.log[k].listener
  {
    RunKeepsInv(start, steps, end);
  }

  /** A dispatch calls only listeners of its snapshot, in the order of the snapshot and none twice. */
  lemma DispatchFollowsSnapshot(start: Bus, steps: seq<Step>, end: Bus, k: nat)
    requires Init(start) && IsRun(start, steps, end) && k < |end.log|
    ensures var call := end.log[k];
            && call.dispatch < |end.snapshots| && call.index < |end.snapshots[call.dispatch]|
            && call.listener == end.snapshots[call.dispatch][call.index]
            && forall j :: 0 <= j < k && end.log[j].dispatch == call.dispatch ==> end.log[j].index < call.index
  {
    RunKeepsInv(start, steps, end);
    assert CallInv(end, end.log[k]);
  }

  /** A dispatch has yet to come to a place of its snapshot. */
  ghost predicate Waiting(bus: Bus, d: nat, i: nat) {
    exists p :: 0 <= p < |bus.stack| && WaitsAt(bus.stack[p], d, i)
  }

  predicate WaitsAt(f: Frame, d: nat, i: nat) {
    f.Dispatch? && f.dispatch == d && f.next <= i
  }

  ghost predicate CalledAt(bus: Bus, d: nat, i: nat) {
    exists k :: 0 <= k < |bus.log| && bus.log[k].dispatch == d && bus.log[k].index == i
  }

  /** The dispatch is at this place now, and its listener is no longer registered. */
  predicate SkipsNow(bus: Bus, d: nat, i: nat) {
    && bus.stack != [] && Top(bus).value.Dispatch? && Top(bus).value.dispatch == d && Top(bus).value.next == i
    && d < |bus.snapshots| && i < |bus.snapshots[d]|
    && bus.snapshots[d][i] !in Get(bus.table, Top(bus).value.name)
  }

  /** At some point of the run the dispatch came to this place and its listener had been removed. */
  ghost predicate SkippedIn(start: Bus, steps: seq<Step>, d: nat, i: nat) {
    exists k, mid: Bus :: 0 <= k <= |steps| && IsRun(start, steps[..k], mid) && SkipsNow(mid, d, i)
  }

  /** Frames below the innermost stay as they are, and so does the innermost unless it is the bus's turn or it ends. */
  lemma LowerFramesStay(bus: Bus, step: Step, p: nat)
    requires Enabled(bus, step) && p < |bus.stack|
    requires p < |bus.stack| - 1 || !(step.Return? || step.Throw? || step.Advance?)
    ensures p < |Next(bus, step).stack| && Next(bus, step).stack[p] == bus.stack[p]
  {
    if step.Advance? && Top(bus).value.Handling? {
      var h := Top(bus).value;
      assert Pop(bus).stack[p] == bus.stack[p];
      assert Replace(bus, Handling(h.failed, Publish)).stack[p] == bus.stack[p];
      assert Replace(bus, Handling(h.failed, Published)).stack[p] == bus.stack[p];
    }
  }

  /** A dispatch leaves a place only by calling its listener or finding it removed. */
  lemma OneTurn(bus: Bus, step: Step, d: nat, i: nat)
    requires Inv(bus) && Enabled(bus, step) && Waiting(bus, d, i) && d < |bus.snapshots| && i < |bus.snapshots[d]|
    ensures Waiting(Next(bus, step), d, i) || CalledAt(Next(bus, step), d, i) || SkipsNow(bus, d, i)
  {
    var after := Next(bus, step);
    var p :| 0 <= p < |bus.stack| && WaitsAt(bus.stack[p], d, i);
    var n := |bus.stack| - 1;
    if p < n || !(step.Return? || step.Throw? || step.Advance?) {
      LowerFramesStay(bus, step, p);
      assert WaitsAt(after.stack[p], d, i);
    } else {
      TurnTaken(bus, d, bus.stack[n].name, bus.stack[n].next, i);
    }
  }

  lemma TurnTaken(bus: Bus, d: nat, name: Name, next: nat, i: nat)
    requires bus.stack != [] && Top(bus) == Some(Dispatch(d, name, next)) && next <= i
    requires d < |bus.snapshots| && i < |bus.snapshots[d]|
    ensures Enabled(bus, Advance)
    ensures var after := Next(bus, Advance); Waiting(after, d, i) || CalledAt(after, d, i) || SkipsNow(bus, d, i)
  {
    var n := |bus.stack| - 1;
    var after := Next(bus, Advance);
    if next < i {
      assert Replace(bus, Dispatch(d, name, next + 1)).stack[n] == Dispatch(d, name, next + 1);
      assert after.stack[n] == Dispatch(d, name, next + 1);
      assert WaitsAt(after.stack[n], d, i);
    } else if bus.snapshots[d][next] in Get(bus.table, name) {
      assert after.log[|bus.log|] == Call(d, next, bus.snapshots[d][next]);
    }
  }

  /** The history only grows; a new dispatch starts at its first place, innermost. */
  predicate Grows(bus: Bus, after: Bus) {
    && bus.snapshots <= after.snapshots && bus.log <= after.log
    && (after.snapshots == bus.snapshots || (|after.snapshots| == |bus.snapshots| + 1 && after.stack != [] &&
          WaitsAt(after.stack[|after.stack| - 1], |bus.snapshots|, 0)))
  }

  lemma EmitGrows(bus: Bus, name: Name)
    ensures Grows(bus, Emitted(bus, name))
  {
  }

  lemma HandlingGrows(bus: Bus, failed: Name, stage: Stage)
    requires bus.stack != []
    ensures Grows(bus, HandlingGoesOn(bus, failed, stage))
  {
    if stage.Publish? && failed != InternalError && !bus.emittingInternalError {
      var flagged := Replace(bus, Handling(failed, Published)).(emittingInternalError := true);
      EmitGrows(flagged, InternalError);
      assert flagged.snapshots == bus.snapshots && flagged.log == bus.log;
    }
  }

  lemma NextListenerGrows(bus: Bus, d: nat, name: Name, next: nat)
    requires bus.stack != [] && d < |bus.snapshots| && next < |bus.snapshots[d]|
    ensures Grows(bus, NextListener(bus, d, name, next))
  {
  }

  lemma AdvanceGrows(bus: Bus)
    requires Enabled(bus, Advance)
    ensures Grows(bus, Next(bus, Advance))
  {
    var f := Top(bus).value;
    if f.Handling? {
      HandlingGrows(bus, f.failed, f.stage);
    } else if f.dispatch < |bus.snapshots| && f.next < |bus.snapshots[f.dispatch]| {
      NextListenerGrows(bus, f.dispatch, f.name, f.next);
    }
  }

  lemma SnapshotsAndLogGrow(bus: Bus, step: Step)
    requires Enabled(bus, step)
    ensures Grows(bus, Next(bus, step))
  {
    if step.Emit? {
      EmitGrows(bus, step.name);
    } else if step.Advance? {
      AdvanceGrows(bus);
    }
  }

  lemma {:induction false} EveryTurnComes(start: Bus, steps: seq<Step>, end: Bus, d: nat, i: nat)
    requires Init(start) && IsRun(start, steps, end) && d < |end.snapshots| && i < |end.snapshots[d]|
    ensures Waiting(end, d, i) || CalledAt(end, d, i) || SkippedIn(start, steps, d, i)
    decreases |steps|
  {
    if steps != [] {
      var n := |steps| - 1;
      var step := steps[n];
      var before: Bus :| IsRun(start, steps[..n], before) && Enabled(before, step) && end == Next(before, step);
      RunKeepsInv(start, steps[..n], before);
      SnapshotsAndLogGrow(before, step);
      if d < |before.snapshots| {
        assert before.snapshots[d] == end.snapshots[d];
        EveryTurnComes(start, steps[..n], before, d, i);
        if Waiting(before, d, i) {
          OneTurn(before, step, d, i);
          if SkipsNow(before, d, i) {
            assert IsRun(start, steps[..n], before) && SkipsNow(before, d, i);
          }
        } else if CalledAt(before, d, i) {
          var k :| 0 <= k < |before.log| && before.log[k].dispatch == d && before.log[k].index == i;
          assert end.log[k] == before.log[k];
        } else {
          var k, mid: Bus :| 0 <= k <= n && IsRun(start, steps[..n][..k], mid) && SkipsNow(mid, d, i);
          assert steps[..n][..k] == steps[..k];
        }
      } else {
        assert WaitsAt(end.stack[|end.stack| - 1], d, i);
      }
    }
  }

  /**
    A dispatch that is over has called every listener of its snapshot, except those that had been
    removed when their turn came.
  */
  lemma DispatchTakesEveryTurn(start: Bus, steps: seq<Step>, end: Bus, d: nat, i: nat)
    requires Init(start) && IsRun(start, steps, end) && d < |end.snapshots| && i < |end.snapshots[d]|
    requires forall p :: 0 <= p < |end.stack| && end.stack[p].Dispatch? ==> end.stack[p].dispatch != d
    ensures CalledAt(end, d, i) || SkippedIn(start, steps, d, i)
  {
    EveryTurnComes(start, steps, end, d, i);
  }

  /** A frame whose inner frames are the dispatch of an internal error that error handling has published. */
  predicate Publishing(f: Frame) {
    f.Handling? && f.stage.Published?
  }

  lemma {:induction false} TwoCount(stack: seq<Frame>, i: nat, j: nat)
    requires i < j < |stack|
    ensures Publishing(stack[i]) && Publishing(stack[j]) ==> CountPublished(stack) >= 2
    ensures stack[i].Observing? && stack[j].Observing? ==> CountObserving(stack) >= 2
    decreases |stack|
  {
    var n := |stack| - 1;
    if j < n {
      TwoCount(stack[..n], i, j);
    } else {
      OneCount(stack[..n], i);
    }
  }

  lemma {:induction false} OneCount(stack: seq<Frame>, i: nat)
    requires i < |stack|
    ensures Publishing(stack[i]) ==> CountPublished(stack) >= 1
    ensures stack[i].Observing? ==> CountObserving(stack) >= 1
    decreases |stack|
  {
    if i < |stack| - 1 {
      OneCount(stack[..|stack| - 1], i);
    }
  }

  /** Bus-originated internal error dispatches never nest, and neither do notifications of the observer. */
  lemma InternalErrorsNeverNest(start: Bus, steps: seq<Step>, end: Bus, i: nat, j: nat)
    requires Init(start) && IsRun(start, steps, end) && i < j < |end.stack|
    ensures !(Publishing(end.stack[i]) && Publishing(end.stack[j]))
    ensures !(end.stack[i].Observing? && end.stack[j].Observing?)
  {
    RunKeepsInv(start, steps, end);
    TwoCount(end.stack, i, j);
  }

  /** When the stack has unwound, both flags are down again, whatever was thrown. */
  lemma FlagsComeDown(start: Bus, steps: seq<Step>, end: Bus)
    requires Init(start) && IsRun(start, steps, end) && end.stack == []
    ensures !end.emittingInternalError && !end.notifyingObserver
  {
    RunKeepsInv(start, steps, end);
  }

  /** No event ever has more listeners than the limit, or one listener twice. */
  lemma ListenersWithinLimit(start: Bus, steps: seq<Step>, end: Bus, name: Name)
    requires Init(start) && IsRun(start, steps, end)
    ensures |Get(end.table, name)| <= end.maxListeners && NoRepeats(Get(end.table, name))
  {
    RunKeepsInv(start, steps, end);
    assert SetInv(end, name, Get(end.table, name));
  }

  // ---------------------------------------------------------------------------------------
  // What listeners can count on

  /** Nothing but one event's listeners has changed, and perhaps the number of wrappers made. */
  predicate OnlySet(bus: Bus, after: Bus, name: Name) {
    && after == bus.(table := after.table, wrappers := after.wrappers)
    && forall other :: other in bus.table.Keys + after.table.Keys && other != name ==> Get(after.table, other) == Get(bus.table, other)
  }

  /** `on` adds the listener last unless it is there or the set is full; `once` adds a wrapper never seen before. */
  lemma RegisteringAddsLast(bus: Bus, name: Name, fn: nat, once: bool)
    requires Inv(bus) && UserCode(bus)
    ensures var after := Next(bus, if once then Once(name, fn) else On(name, fn));
            var listener := if once then Wrapped(bus.wrappers, name, fn) else Plain(fn);
            var set_ := Get(bus.table, name);
            && OnlySet(bus, after, name)
            && Get(after.table, name) == (if listener in set_ || |set_| >= bus.maxListeners then set_ else set_ + [listener])
            && (once ==> listener !in set_ && forall k :: 0 <= k < |bus.log| ==> bus.log[k].listener != listener)
  {
    assert SetInv(bus, name, Get(bus.table, name));
    if once {
      forall k | 0 <= k < |bus.log| ensures bus.log[k].listener != Wrapped(bus.wrappers, name, fn) {
        assert CallInv(bus, bus.log[k]);
      }
    }
  }

  /** `off` takes out the listener, or else the first wrapper around it, and no other; `clear` takes out all. */
  lemma RemovingTakesOne(bus: Bus, name: Name, target: Listener)
    requires Inv(bus) && UserCode(bus)
    ensures var after := Next(bus, Off(name, target));
            var set_ := Get(bus.table, name);
            && OnlySet(bus, after, name)
            && ((exists i :: IsTarget(set_, i, target) && Get(after.table, name) == Spliced(set_, i)) ||
                ((forall i :: !IsTarget(set_, i, target)) && Get(after.table, name) == set_))
    ensures Next(bus, Clear).(table := bus.table) == bus && forall other :: Get(Next(bus, Clear).table, other) == []
  {
    assert SetInv(bus, name, Get(bus.table, name));
    RemovedIsSpliced(Get(bus.table, name), target);
  }

  /** `emit` starts a dispatch over exactly the listeners registered now; to whom it goes no longer changes. */
  lemma EmitDispatchesToRegistered(bus: Bus, name: Name)
    requires UserCode(bus)
    ensures var after := Next(bus, Emit(name));
            && after.snapshots == bus.snapshots + [Get(bus.table, name)]
            && after.stack == bus.stack + [Dispatch(|bus.snapshots|, name, 0)]
            && after == bus.(snapshots := after.snapshots, stack := after.stack)
  {
  }

  /** The bus with this frame on top. */
  lemma OnTop(bus: Bus, f: Frame)
    ensures Top(Push(bus, f)) == Some(f) && Pop(Push(bus, f)) == bus
    ensures forall g :: Replace(Push(bus, f), g) == Push(bus, g)
  {
    assert (bus.stack + [f])[..|bus.stack|] == bus.stack;
  }

  /** A listener that throws at once, or rejects later, has its failure handled; nothing else happens. */
  lemma FailureIsHandled(bus: Bus, name: Name)
    ensures var failing := Push(bus, Calling(name));
            Enabled(failing, Throw) && Next(failing, Throw) == Push(bus, Handling(name, Notify))
    ensures bus.stack == [] ==> Next(bus, LateRejection(name)) == Push(bus, Handling(name, Notify))
  {
    OnTop(bus, Calling(name));
  }

  /** The observer is told, unless there is none or it is being told already; it may fail too. */
  lemma ObserverIsTold(bus: Bus, name: Name)
    ensures var handling := Push(bus, Handling(name, Notify));
            Enabled(handling, Advance) &&
            Next(handling, Advance) ==
              if bus.hasObserver && !bus.notifyingObserver
              then Push(Push(bus.(notifyingObserver := true), Handling(name, Publish)), Observing)
              else Push(bus, Handling(name, Publish))
    ensures var observing := Push(bus, Observing);
            && Enabled(observing, Return) && Next(observing, Return) == bus.(notifyingObserver := false)
            && Enabled(observing, Throw) && Next(observing, Throw) == bus.(notifyingObserver := false)
  {
    OnTop(bus, Handling(name, Notify));
    OnTop(bus, Observing);
  }

  /**
    Then the error event is emitted to those registered for it, unless the failure was in one or one is
    being emitted; when its dispatch is over the flag is down and what was below goes on.
  */
  lemma ErrorIsPublished(bus: Bus, name: Name)
    ensures var handling := Push(bus, Handling(name, Publish));
            Enabled(handling, Advance) &&
            Next(handling, Advance) ==
              if name != InternalError && !bus.emittingInternalError
              then Push(Push(bus.(emittingInternalError := true, snapshots := bus.snapshots + [Get(bus.table, InternalError)]),
                             Handling(name, Published)),
                        Dispatch(|bus.snapshots|, InternalError, 0))
              else bus
    ensures var published := Push(bus, Handling(name, Published));
            Enabled(published, Advance) && Next(published, Advance) == bus.(emittingInternalError := false)
  {
    OnTop(bus, Handling(name, Publish));
    OnTop(bus, Handling(name, Published));
  }
}
