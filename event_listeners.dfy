/// The listeners of one event: listeners registered with `on` stay until they
/// are removed by index, listeners registered with `once` are dropped on the
/// next `emit`. `emit` calls every `on` listener in index order, then every
/// `once` listener registered before it.
module Messaging {
  import opened JsValues

  /** A stored listener: a `Listener` object, or a plain callback wrapped in a
      `LegacyListener`. Their internals are not modelled; `id` tells them apart. */
  datatype Listener = Native(id: nat) | Legacy(callback: Value)

  /** What a caller passes to `on` or `once`: a `Listener` (a `LegacyListener`
      included), or anything else. */
  datatype Registrant = AListener(listener: Listener) | Other(callback: Value)

  /** Anything that is not already a `Listener` is wrapped in a `LegacyListener`. */
  function Wrap(r: Registrant): (l: Listener)
    ensures r.AListener? ==> l == r.listener
    ensures r.Other? ==> l == Legacy(r.callback)
  {
    match r
    case AListener(listener) => listener
    case Other(callback) => Legacy(callback)
  }

  /** One `listener.handleEvent(...args)` call made by `emit`. */
  datatype Invocation = Invocation(listener: Listener, args: seq<Value>)

  /** The calls `emit(...args)` makes to `listeners`, in order. */
  function Dispatch(listeners: seq<Listener>, args: seq<Value>): (r: seq<Invocation>)
    ensures |r| == |listeners|
    ensures forall i | 0 <= i < |r| :: r[i] == Invocation(listeners[i], args)
  {
    seq(|listeners|, i requires 0 <= i < |listeners| => Invocation(listeners[i], args))
  }

  lemma DispatchAppend(xs: seq<Listener>, ys: seq<Listener>, args: seq<Value>)
    ensures Dispatch(xs + ys, args) == Dispatch(xs, args) + Dispatch(ys, args)
  {
  }

  /** The index `splice(index, 1)` starts at: a negative index counts from the
      end and is clamped to 0, a large one is clamped to the length. */
  function SpliceStart(length: nat, index: int): (s: nat)
    ensures s <= length
    ensures 0 <= index <= length ==> s == index
    ensures index < 0 && 0 <= length + index ==> s == length + index
    ensures length + index < 0 ==> s == 0
    ensures index > length ==> s == length
  {
    if index < 0 then (if length + index < 0 then 0 else length + index)
    else if index > length then length
    else index
  }

  /** `xs.splice(index, 1)`: remove the element at the start index, if there is
      one. */
  function RemoveAt<T>(xs: seq<T>, index: int): (r: seq<T>)
    ensures SpliceStart(|xs|, index) < |xs| ==> |r| == |xs| - 1
    ensures SpliceStart(|xs|, index) == |xs| ==> r == xs
  {
    var s := SpliceStart(|xs|, index);
    if s < |xs| then xs[..s] + xs[s + 1..] else xs
  }

  /** Removing a valid index drops exactly that element and keeps the others in
      their order. */
  lemma RemoveAtValid<T>(xs: seq<T>, index: nat)
    requires index < |xs|
    ensures var r := RemoveAt(xs, index);
      && |r| == |xs| - 1
      && (forall j | 0 <= j < index :: r[j] == xs[j])
      && (forall j | index <= j < |r| :: r[j] == xs[j + 1])
      && multiset(r) + multiset{xs[index]} == multiset(xs)
  {
    var r := RemoveAt(xs, index);
    assert xs == xs[..index] + [xs[index]] + xs[index + 1..];
    assert r == xs[..index] + xs[index + 1..];
  }

  /** The handle `on` returns removes exactly what `on` added, as long as
      nothing else was added since. */
  lemma RemoveLastOn<T>(xs: seq<T>, x: T)
    ensures RemoveAt(xs + [x], |xs|) == xs
  {
    assert (xs + [x])[..|xs|] == xs;
  }

  /** The registry's state, as values. */
  datatype Registry = Registry(on: seq<Listener>, once: seq<Listener>)

  /** The calls an emit makes, and the state it leaves. */
  function Emitted(r: Registry, args: seq<Value>): seq<Invocation> {
    Dispatch(r.on + r.once, args)
  }

  function AfterEmit(r: Registry): (r': Registry)
    ensures r'.on == r.on && r'.once == []
  {
    Registry(r.on, [])
  }

  /** A `once` listener is called by the first emit after it was registered and
      by no later one: a second emit calls the `on` listeners alone. */
  lemma OnceListenersFireOnce(r: Registry, first: seq<Value>, second: seq<Value>)
    ensures Emitted(r, first) == Dispatch(r.on, first) + Dispatch(r.once, first)
    ensures Emitted(AfterEmit(r), second) == Dispatch(r.on, second)
  {
    DispatchAppend(r.on, r.once, first);
    assert r.on + [] == r.on;
  }

  /** A listener handle: the registry and the index `on` returned. */
  datatype ListenerHandle = ListenerHandle(listeners: EventListeners, index: nat)

  class EventListeners {
    /** The name of the event. */
    const name: string
    /** `_on`: the persistent listeners, in registration order. */
    var on: seq<Listener>
    /** `_once`: the listeners for the next emit only. */
    var once: seq<Listener>

    function State(): Registry
      reads this
    {
      Registry(on, once)
    }

    /** `init`: an event needs a name; both lists start empty. */
    constructor (name: string)
      requires name != ""
      ensures this.name == name && on == [] && once == []
    {
      this.name := name;
      on := [];
      once := [];
    }

    /** `on(listener)`: append the (wrapped) listener and return a handle on
        its index. */
    method On(listener: Registrant) returns (h: ListenerHandle)
      modifies this
      ensures on == old(on) + [Wrap(listener)]
      ensures once == old(once)
      ensures h.listeners == this && h.index == |old(on)| && on[h.index] == Wrap(listener)
    {
      var l := Wrap(listener);
      on := on + [l];
      var index := |on| - 1;
      h := ListenerHandle(this, index);
    }

    /** `once(listener)`: append the (wrapped) listener to the once list. */
    method Once(listener: Registrant)
      modifies this
      ensures once == old(once) + [Wrap(listener)]
      ensures on == old(on)
    {
      var l := Wrap(listener);
      once := once + [l];
    }

    /** `emit(...args)`: take the once list, empty it, then call every `on`
        listener in index order followed by every taken once listener. The
        calls made are returned in order; there is one pending result per call. */
    method Emit(args: seq<Value>) returns (pending: seq<Invocation>)
      modifies this
      ensures pending == Emitted(old(State()), args)
      ensures State() == AfterEmit(old(State()))
    {
      var taken := once;
      once := [];
      pending := [];
      var i := 0;
      var len := |on|;
      while i < len
        invariant 0 <= i <= len == |on|
        invariant on == old(on) && once == []
        invariant pending == Dispatch(on[..i], args)
      {
        pending := pending + [Invocation(on[i], args)];
        i := i + 1;
      }
      assert on[..i] == on;
      i := 0;
      len := |taken|;
      while i < len
        invariant 0 <= i <= len == |taken|
        invariant on == old(on) && once == []
        invariant pending == Dispatch(on, args) + Dispatch(taken[..i], args)
      {
        pending := pending + [Invocation(taken[i], args)];
        i := i + 1;
      }
      assert taken[..i] == taken;
      DispatchAppend(on, taken, args);
    }

    /** `removeListenerAt(index)`: `_on.splice(index, 1)`. */
    method RemoveListenerAt(index: int)
      modifies this
      ensures on == RemoveAt(old(on), index)
      ensures once == old(once)
    {
      var start := if index < 0 then (if |on| + index < 0 then 0 else |on| + index)
        else if index > |on| then |on| else index;
      if start < |on| {
        on := on[..start] + on[start + 1..];
      }
    }
  }
}
