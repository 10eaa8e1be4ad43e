/** ValueProperty: a read/write property holding its value in a field.  Handlers live in a
    container created by the first addHandler and dropped again when the last handler leaves;
    each `fire` is recorded once in an event log of (old, new) pairs. */
module ValueProperties {
  import opened Wrappers
  import Collections

  /** PropertyChangeEvent(oldValue, newValue). */
  datatype Change<V> = Change(oldValue: V, newValue: V)

  /** The events one set() fires: a single change when the value differs and handlers exist. */
  function ChangeEvents<V(==)>(registered: bool, oldValue: V, newValue: V): (r: seq<Change<V>>)
    ensures |r| <= 1
    ensures r != [] <==> registered && oldValue != newValue
    ensures r != [] ==> r[0] == Change(oldValue, newValue)
  {
    if oldValue != newValue && registered then [Change(oldValue, newValue)] else []
  }

  /** The handler list after one registration is removed: the container goes once it is
      empty. */
  function WithoutHandler(handlers: Option<seq<nat>>, h: nat): (r: Option<seq<nat>>)
    ensures handlers.None? ==> r.None?
    ensures r.Some? ==> r.value != [] && (forall x :: x in r.value ==> x in handlers.value && x != h)
    ensures handlers.Some? ==> forall x :: x in handlers.value && x != h ==> r.Some? && x in r.value
  {
    if handlers.None? then None
    else
      var rest := Collections.Filter(handlers.value, x => x != h);
      if rest == [] then None else Some(rest)
  }

  /** Registering a handler on a property without one, then removing it, leaves no
      container. */
  lemma {:induction false} AddThenRemoveHandler(h: nat)
    ensures WithoutHandler(Some([h]), h) == None
  {
    assert Collections.Filter([h], x => x != h) == [];
  }

  class ValueProperty<V(==)> {
    var value: V
    var handlers: Option<seq<nat>>
    var fired: seq<Change<V>>

    constructor (value: V)
      ensures this.value == value && handlers == None && fired == []
    {
      this.value, handlers, fired := value, None, [];
    }

    /** get(): the constructor's value or the last one set. */
    function Get(): (v: V)
      reads this
      ensures v == value
    {
      value
    }

    /** set(value): nothing for an equal value; otherwise store it and fire (old, new). */
    method Set(newValue: V)
      modifies this`value, this`fired
      ensures value == newValue
      ensures fired == old(fired) + ChangeEvents(handlers.Some?, old(value), newValue)
    {
      if newValue == value {
        return;
      }
      var oldValue := value;
      value := newValue;
      FireEvents(oldValue, value);
    }

    method FireEvents(oldValue: V, newValue: V)
      requires oldValue != newValue
      modifies this`fired
      ensures fired == old(fired) + ChangeEvents(handlers.Some?, oldValue, newValue)
    {
      if handlers.Some? {
        fired := fired + [Change(oldValue, newValue)];
      }
    }

    /** addHandler(handler): creates the container on first use. */
    method AddHandler(h: nat)
      modifies this`handlers
      ensures handlers == Some(old(handlers).GetOr([]) + [h])
    {
      if handlers.None? {
        handlers := Some([]);
      }
      handlers := Some(handlers.value + [h]);
    }

    /** The registration's remove(): the container is dropped after its last handler. */
    method RemoveHandler(h: nat)
      modifies this`handlers
      ensures handlers == WithoutHandler(old(handlers), h)
    {
      handlers := WithoutHandler(handlers, h);
    }
  }

  /** Setting the value a property already holds fires nothing, with or without handlers. */
  lemma SetSameValue<V>(registered: bool, v: V)
    ensures ChangeEvents(registered, v, v) == []
  {
  }
}
