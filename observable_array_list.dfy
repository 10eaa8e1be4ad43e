/** ObservableArrayList: an observable list backed by a container that exists only while the
    list has items.  The container is None before the first insertion and after the last
    removal. */
module ObservableArrayLists {
  import opened Wrappers

  /** DataloreIndexOutOfBoundsException, the container's own IndexOutOfBoundsException, and
      the NullPointerException of `myContainer!!`. */
  datatype ListError = IndexOutOfBounds(index: int) | NullContainer

  /** `s` with `x` inserted before position `i`. */
  function Insert<T>(s: seq<T>, i: nat, x: T): (r: seq<T>)
    requires i <= |s|
    ensures |r| == |s| + 1
    ensures r[i] == x
    ensures forall k | 0 <= k < i :: r[k] == s[k]
    ensures forall k | i < k < |r| :: r[k] == s[k - 1]
  {
    s[..i] + [x] + s[i..]
  }

  /** `s` without its element at position `i`. */
  function RemoveAt<T>(s: seq<T>, i: nat): (r: seq<T>)
    requires i < |s|
    ensures |r| == |s| - 1
    ensures forall k | 0 <= k < i :: r[k] == s[k]
    ensures forall k | i <= k < |r| :: r[k] == s[k + 1]
  {
    s[..i] + s[i + 1..]
  }

  /** Removing what was just inserted at the same position gives the list back. */
  lemma {:induction false} InsertThenRemove<T>(s: seq<T>, i: nat, x: T)
    requires i <= |s|
    ensures RemoveAt(Insert(s, i, x), i) == s
  {
    var r := RemoveAt(Insert(s, i, x), i);
    assert |r| == |s|;
    forall k | 0 <= k < |s| ensures r[k] == s[k] {
      if k >= i {
        assert r[k] == Insert(s, i, x)[k + 1];
      }
    }
  }

  class ObservableArrayList<T> {
    var container: Option<seq<T>>

    /** The list's items: none while there is no container. */
    function Items(): seq<T>
      reads this
    {
      container.GetOr([])
    }

    /** The container, when present, is never empty (after inserts and removes). */
    ghost predicate Valid()
      reads this
    {
      container.Some? ==> container.value != []
    }

    constructor ()
      ensures container == None && Valid()
    {
      container := None;
    }

    /** size: 0 without a container. */
    function Size(): (n: nat)
      reads this
      ensures container.None? ==> n == 0
      ensures n == |Items()|
    {
      if container.None? then 0 else |container.value|
    }

    /** get(index): out of bounds without a container or outside 0..size-1. */
    method Get(index: int) returns (r: Result<T, ListError>)
      ensures r.Failure? <==> !(0 <= index < Size())
      ensures r.Failure? ==> r.error == IndexOutOfBounds(index)
      ensures r.Success? ==> r.value == Items()[index]
    {
      if container.None? {
        return Failure(IndexOutOfBounds(index));
      }
      if !(0 <= index < |container.value|) {
        return Failure(IndexOutOfBounds(index));
      }
      r := Success(container.value[index]);
    }

    /** doAdd(index, item): the container is created first, then the item goes in at
        `index`; an index outside 0..size still leaves the new, empty container behind. */
    method DoAdd(index: int, item: T) returns (r: Outcome<ListError>)
      modifies this
      ensures r.Pass? <==> 0 <= index <= |old(Items())|
      ensures r.Pass? ==> container == Some(Insert(old(Items()), index, item)) && Valid()
      ensures r.Fail? ==> r.error == IndexOutOfBounds(index) && container == Some(old(Items()))
    {
      EnsureContainerInitialized();
      var items := container.value;
      if !(0 <= index <= |items|) {
        return Fail(IndexOutOfBounds(index));
      }
      container := Some(Insert(items, index, item));
      r := Pass;
    }

    /** doSet(index, item): replaces exactly one item. */
    method DoSet(index: int, item: T) returns (r: Outcome<ListError>)
      modifies this
      ensures old(container).None? ==> r == Fail(NullContainer) && container == old(container)
      ensures old(container).Some? && !(0 <= index < old(Size())) ==> r == Fail(IndexOutOfBounds(index)) && container == old(container)
      ensures old(container).Some? && 0 <= index < old(Size()) ==>
        r == Pass && container == Some(old(Items())[index := item])
    {
      if container.None? {
        return Fail(NullContainer);
      }
      if !(0 <= index < |container.value|) {
        return Fail(IndexOutOfBounds(index));
      }
      container := Some(container.value[index := item]);
      r := Pass;
    }

    /** doRemove(index): removes one item and drops the container once it is empty.  It also
        runs on the empty container a failed doAdd leaves behind, where every index is out of
        bounds. */
    method DoRemove(index: int) returns (r: Outcome<ListError>)
      modifies this
      ensures old(Valid()) ==> Valid()
      ensures old(container).None? ==> r == Fail(NullContainer) && container == old(container)
      ensures old(container).Some? && !(0 <= index < old(Size())) ==> r == Fail(IndexOutOfBounds(index)) && container == old(container)
      ensures old(container).Some? && 0 <= index < old(Size()) ==>
        r == Pass && Items() == RemoveAt(old(Items()), index)
        && (container.None? <==> old(Size()) == 1)
    {
      if container.None? {
        return Fail(NullContainer);
      }
      if !(0 <= index < |container.value|) {
        return Fail(IndexOutOfBounds(index));
      }
      container := Some(RemoveAt(container.value, index));
      if container.value == [] {
        container := None;
      }
      r := Pass;
    }

    /** ensureContainerInitialized(): creates an empty container only when there is none. */
    method EnsureContainerInitialized()
      modifies this
      ensures container == Some(old(Items()))
      ensures old(container).Some? ==> container == old(container)
    {
      if container.None? {
        container := Some([]);
      }
    }
  }
}
