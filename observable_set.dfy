/** AbstractObservableSet: a set that tells its listeners about every element that really
    joins or leaves it.  The storage hooks doAdd/doRemove belong to subclasses; here their
    verdict is a parameter, and an accepted element joins (or leaves) the set.  The listener
    container is created on the first addListener; each `fire` is recorded once in an event
    log, whatever the number of listeners it reaches. */
module ObservableSets {
  import opened Wrappers
  import Collections

  datatype EventType = Add | Remove

  /** CollectionItemEvent(oldItem, newItem, index, type); sets always report index -1. */
  datatype ItemEvent<T> = ItemEvent(oldItem: Option<T>, newItem: Option<T>, index: int, kind: EventType)

  datatype SetError = IllegalState | NoSuchElement

  /** The observable part of a set: its elements, whether a listener container exists, and
      the events fired so far. */
  datatype SetState<T> = SetState(elements: set<T>, listening: bool, fired: seq<ItemEvent<T>>)

  function AddEvent<T>(item: T): ItemEvent<T> {
    ItemEvent(None, Some(item), -1, Add)
  }

  function RemoveEvent<T>(item: T): ItemEvent<T> {
    ItemEvent(Some(item), None, -1, Remove)
  }

  /** add(element) when doAdd answers `accepted`: the new state and add's result. */
  function Added<T>(st: SetState<T>, element: T, accepted: bool): (r: (SetState<T>, bool))
    ensures element in st.elements ==> r == (st, false)
    ensures element !in st.elements ==> r.1 == accepted
    ensures r.0.listening == st.listening
    ensures r.0.elements == (if r.1 then st.elements + {element} else st.elements)
    ensures r.0.fired == st.fired + (if r.1 && st.listening then [AddEvent(element)] else [])
  {
    if element in st.elements then (st, false)
    else if accepted then (AfterAdd(SetState(st.elements + {element}, st.listening, st.fired), element, true), true)
    else (AfterAdd(st, element, false), false)
  }

  /** doAfterAdd(item, success): one ADD event when the add succeeded and listeners exist. */
  function AfterAdd<T>(st: SetState<T>, item: T, success: bool): (r: SetState<T>)
    ensures r.elements == st.elements && r.listening == st.listening
    ensures |r.fired| == |st.fired| + (if success && st.listening then 1 else 0)
    ensures r.fired[..|st.fired|] == st.fired
    ensures success && st.listening ==> r.fired[|st.fired|] == AddEvent(item)
  {
    if success && st.listening then SetState(st.elements, st.listening, st.fired + [AddEvent(item)]) else st
  }

  /** The removal of `item` once it is known to be present (the set's remove after its
      contains check, or the iterator's remove) when the storage answers `success`. */
  function RemovedAfterCheck<T>(st: SetState<T>, item: T, success: bool): (r: SetState<T>)
    ensures r.listening == st.listening
    ensures r.elements == (if success then st.elements - {item} else st.elements)
    ensures |r.fired| == |st.fired| + (if success && st.listening then 1 else 0)
    ensures r.fired[..|st.fired|] == st.fired
    ensures success && st.listening ==> r.fired[|st.fired|] == RemoveEvent(item)
  {
    var rest := if success then st.elements - {item} else st.elements;
    if success && st.listening then SetState(rest, st.listening, st.fired + [RemoveEvent(item)])
    else SetState(rest, st.listening, st.fired)
  }

  /** remove(element) when doRemove answers `accepted`: the new state and remove's result. */
  function Removed<T>(st: SetState<T>, element: T, accepted: bool): (r: (SetState<T>, bool))
    ensures element !in st.elements ==> r == (st, false)
    ensures element in st.elements ==> r.1 == accepted && r.0 == RemovedAfterCheck(st, element, accepted)
  {
    if element !in st.elements then (st, false)
    else (RemovedAfterCheck(st, element, accepted), accepted)
  }

  /** Adding an element twice: the second add answers false and changes nothing. */
  lemma AddTwice<T>(st: SetState<T>, element: T, accepted: bool, again: bool)
    ensures var first := Added(st, element, accepted);
      first.1 ==> Added(first.0, element, again) == (first.0, false)
  {
  }

  /** Adding a new element and removing it again restores the elements and, with listeners,
      fires exactly ADD then REMOVE. */
  lemma {:induction false} AddThenRemove<T>(st: SetState<T>, element: T)
    requires element !in st.elements
    ensures var added := Added(st, element, true);
      var removed := Removed(added.0, element, true);
      && added.1 && removed.1
      && removed.0.elements == st.elements
      && removed.0.fired == st.fired + (if st.listening then [AddEvent(element), RemoveEvent(element)] else [])
  {
    var added := Added(st, element, true);
    assert element in added.0.elements;
    var removed := Removed(added.0, element, true);
    assert removed.0 == RemovedAfterCheck(added.0, element, true);
    assert removed.0.elements == st.elements + {element} - {element};
    if st.listening {
      assert removed.0.fired == (st.fired + [AddEvent(element)]) + [RemoveEvent(element)];
    }
  }

  class ObservableSet<T(==)> {
    var elements: set<T>
    /** The registered listeners, None until the first addListener. */
    var listeners: Option<seq<nat>>
    var fired: seq<ItemEvent<T>>

    function State(): SetState<T>
      reads this
    {
      SetState(elements, listeners.Some?, fired)
    }

    constructor ()
      ensures elements == {} && listeners == None && fired == []
    {
      elements, listeners, fired := {}, None, [];
    }

    /** addListener(l): creates the container on first use, then registers `l`. */
    method AddListener(l: nat)
      modifies this`listeners
      ensures listeners == Some(old(listeners).GetOr([]) + [l])
    {
      if listeners.None? {
        listeners := Some([]);
      }
      listeners := Some(listeners.value + [l]);
    }

    /** add(element): false for an element already present; otherwise doAdd's verdict. */
    method AddElement(element: T, accepted: bool) returns (success: bool)
      modifies this`elements, this`fired
      ensures (State(), success) == Added(old(State()), element, accepted)
    {
      if element in elements {
        return false;
      }
      success := accepted;
      if success {
        elements := elements + {element};
      }
      DoAfterAdd(element, success);
    }

    method DoAfterAdd(item: T, success: bool)
      modifies this`fired
      ensures State() == AfterAdd(old(State()), item, success)
    {
      if success && listeners.Some? {
        fired := fired + [AddEvent(item)];
      }
    }

    /** remove(element): false for an absent element; otherwise doRemove's verdict. */
    method RemoveElement(element: T, accepted: bool) returns (success: bool)
      modifies this`elements, this`fired
      ensures (State(), success) == Removed(old(State()), element, accepted)
    {
      if element !in elements {
        return false;
      }
      success := accepted;
      if success {
        elements := elements - {element};
      }
      DoAfterRemove(element, success);
      assert State() == RemovedAfterCheck(old(State()), element, accepted);
    }

    method DoAfterRemove(item: T, success: bool)
      modifies this`fired
      ensures fired == old(fired) + (if success && listeners.Some? then [RemoveEvent(item)] else [])
    {
      if success && listeners.Some? {
        fired := fired + [RemoveEvent(item)];
      }
    }

    /** iterator(): the elements in the storage's (unspecified) order, each once; an empty set
        yields nothing. */
    method Iterator() returns (it: SetIterator<T>)
      ensures fresh(it) && it.owner == this && it.Valid()
      ensures !it.canRemove
      ensures forall x :: x in it.rest <==> x in elements
      ensures Collections.NoDuplicates(it.rest) && |it.rest| == |elements|
      ensures elements == {} ==> it.rest == []
    {
      var order: seq<T> := [];
      var remaining := elements;
      while remaining != {}
        invariant remaining <= elements
        invariant forall x :: x in order <==> x in elements && x !in remaining
        invariant Collections.NoDuplicates(order) && |order| + |remaining| == |elements|
        decreases remaining
      {
        ghost var some := Collections.Element(remaining);
        var x :| x in remaining;
        order := order + [x];
        remaining := remaining - {x};
      }
      if order != [] {
        assert order[0] in elements;
      }
      it := new SetIterator(this, order);
    }
  }

  /** The iterator of an observable set: remove() is allowed once after each next(), and
      reports the removal like the set's own remove. */
  class SetIterator<T(==)> {
    const owner: ObservableSet<T>
    /** What the underlying iterator has yet to return. */
    var rest: seq<T>
    var canRemove: bool
    var lastReturned: Option<T>

    ghost predicate Valid()
      reads this
    {
      canRemove ==> lastReturned.Some?
    }

    constructor (owner: ObservableSet<T>, order: seq<T>)
      ensures this.owner == owner && rest == order && !canRemove && lastReturned == None && Valid()
    {
      this.owner := owner;
      rest, canRemove, lastReturned := order, false, None;
    }

    method HasNext() returns (b: bool)
      ensures b <==> rest != []
    {
      b := rest != [];
    }

    /** next(): the underlying iterator's next element, which remove() may then delete. */
    method Next() returns (r: Result<T, SetError>)
      requires Valid()
      modifies this
      ensures Valid()
      ensures old(rest) == [] ==> r == Failure(NoSuchElement) && unchanged(this)
      ensures old(rest) != [] ==>
        r == Success(old(rest)[0]) && rest == old(rest)[1..] && canRemove && lastReturned == Some(r.value)
    {
      if rest == [] {
        return Failure(NoSuchElement);
      }
      lastReturned := Some(rest[0]);
      rest := rest[1..];
      canRemove := true;
      r := Success(lastReturned.value);
    }

    /** remove(): IllegalStateException unless it directly follows next(); otherwise the last
        element returned leaves the set and a REMOVE event is fired to any listeners. */
    method Remove() returns (r: Outcome<SetError>)
      requires Valid()
      modifies this`canRemove, owner`elements, owner`fired
      ensures Valid() && !canRemove
      ensures !old(canRemove) ==> r == Fail(IllegalState) && unchanged(owner)
      ensures old(canRemove) ==> r == Pass && owner.State() == RemovedAfterCheck(old(owner.State()), lastReturned.value, true)
    {
      if !canRemove {
        return Fail(IllegalState);
      }
      canRemove := false;
      var item := lastReturned.value;
      owner.elements := owner.elements - {item};
      owner.DoAfterRemove(item, true);
      r := Pass;
    }
  }

  /** Two removes in a row: the second is refused whatever the first did. */
  method RemoveTwice<T(==)>(it: SetIterator<T>) returns (first: Outcome<SetError>, second: Outcome<SetError>)
    requires it.Valid()
    modifies it`canRemove, it.owner`elements, it.owner`fired
    ensures second == Fail(IllegalState)
  {
    first := it.Remove();
    second := it.Remove();
  }
}
