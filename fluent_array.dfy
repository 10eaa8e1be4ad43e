/** FluentArray: a JSON array builder wrapping a list that every add* call appends to and
    that get() hands out.  Elements are JSON values: null, a string, a double, or what
    another fluent value's get() returned.  get() returns the backing list itself, so a list
    stored by addAll stays shared with the array it came from. */
module FluentArrays {
  import opened Wrappers

  /** A mutable JSON list: the `ArrayList<Any?>` behind a FluentArray. */
  class JsonList {
    var elems: seq<Item>

    constructor (elems: seq<Item>)
      ensures this.elems == elems
    {
      this.elems := elems;
    }
  }

  /** A JSON element.  A list element is a reference: it shows whatever its list holds now. */
  datatype Item = Null | Str(s: string) | Num(d: real) | List(list: JsonList)

  /** The errors of getDouble: an index outside the list, or an element that is no double. */
  datatype ArrayError = IndexOutOfBounds(index: int) | NotADouble(index: int)

  /** The items a run of fluent values contributes: their get() results, in order. */
  function Gets<V>(values: seq<V>, get: V -> Item): (r: seq<Item>)
    ensures |r| == |values|
    ensures forall k | 0 <= k < |values| :: r[k] == get(values[k])
  {
    if values == [] then [] else [get(values[0])] + Gets(values[1..], get)
  }

  /** A nullable string or double as a JSON item. */
  function StrItem(v: Option<string>): Item {
    if v.Some? then Str(v.value) else Null
  }

  function NumItem(v: Option<real>): Item {
    if v.Some? then Num(v.value) else Null
  }

  class FluentArray {
    const myArray: JsonList

    /** The backing list's current elements. */
    function Contents(): seq<Item>
      reads myArray
    {
      myArray.elems
    }

    /** FluentArray(): a new, empty list. */
    constructor ()
      ensures fresh(myArray) && Contents() == []
    {
      myArray := new JsonList([]);
    }

    /** FluentArray(array): a new list holding the given list's current elements. */
    constructor FromList(list: array<Item>)
      ensures fresh(myArray) && Contents() == list[..]
    {
      myArray := new JsonList(list[..]);
    }

    /** getDouble(index). */
    function GetDouble(index: int): (r: Result<real, ArrayError>)
      reads myArray
      ensures !(0 <= index < |Contents()|) ==> r == Failure(IndexOutOfBounds(index))
      ensures 0 <= index < |Contents()| && Contents()[index].Num? ==> r == Success(Contents()[index].d)
      ensures 0 <= index < |Contents()| && !Contents()[index].Num? ==> r == Failure(NotADouble(index))
    {
      var items := myArray.elems;
      if !(0 <= index < |items|) then Failure(IndexOutOfBounds(index))
      else if items[index].Num? then Success(items[index].d)
      else Failure(NotADouble(index))
    }

    /** add(v: String?). */
    method AddString(v: Option<string>) returns (self: FluentArray)
      modifies myArray
      ensures self == this && Contents() == old(Contents()) + [StrItem(v)]
    {
      myArray.elems := myArray.elems + [StrItem(v)];
      self := this;
    }

    /** add(v: Double?). */
    method AddDouble(v: Option<real>) returns (self: FluentArray)
      modifies myArray
      ensures self == this && Contents() == old(Contents()) + [NumItem(v)]
    {
      myArray.elems := myArray.elems + [NumItem(v)];
      self := this;
    }

    /** addStrings(values). */
    method AddStrings(values: seq<Option<string>>) returns (self: FluentArray)
      modifies myArray
      ensures self == this && Contents() == old(Contents()) + Gets(values, StrItem)
    {
      myArray.elems := myArray.elems + Gets(values, StrItem);
      self := this;
    }

    /** addAll(values): appends each value's get(), one at a time. */
    method AddAll<V>(values: seq<V>, get: V -> Item) returns (self: FluentArray)
      modifies myArray
      ensures self == this && Contents() == old(Contents()) + Gets(values, get)
    {
      var i := 0;
      while i < |values|
        invariant 0 <= i <= |values|
        invariant Contents() == old(Contents()) + Gets(values[..i], get)
      {
        assert values[..i + 1] == values[..i] + [values[i]];
        GetsAppend(values[..i], values[i], get);
        myArray.elems := myArray.elems + [get(values[i])];
        i := i + 1;
      }
      assert values[..i] == values;
      self := this;
    }

    /** addAll(vararg values): the same as the list form. */
    method AddAllVararg<V>(values: seq<V>, get: V -> Item) returns (self: FluentArray)
      modifies myArray
      ensures self == this && Contents() == old(Contents()) + Gets(values, get)
    {
      self := AddAll(values, get);
    }

    /** get(): the backing list itself, not a copy of it. */
    function Get(): (r: Item)
      ensures r.List? && r.list == myArray
    {
      List(myArray)
    }
  }

  /** get() of a fluent array, as addAll calls it on its arguments. */
  function ArrayGet(a: FluentArray): Item {
    a.Get()
  }

  lemma {:induction false} GetsAppend<V>(values: seq<V>, v: V, get: V -> Item)
    ensures Gets(values + [v], get) == Gets(values, get) + [get(v)]
  {
    if values != [] {
      assert (values + [v])[1..] == values[1..] + [v];
      GetsAppend(values[1..], v, get);
    }
  }

  /** Appending never changes what was already in the list: the contents before are a prefix
      of the contents after, and the double stored there is still read back. */
  method AppendKeepsPrefix(a: FluentArray, v: Option<real>, index: int)
    modifies a.myArray
    ensures old(a.Contents()) <= a.Contents()
    ensures 0 <= index < |old(a.Contents())| ==> a.GetDouble(index) == old(a.GetDouble(index))
    ensures a.GetDouble(|old(a.Contents())|) == (if v.Some? then Success(v.value) else Failure(NotADouble(|old(a.Contents())|)))
  {
    var _ := a.AddDouble(v);
  }

  /** addAll shares rather than copies: once a child array is added to a parent, what is added
      to the child afterwards is seen through the parent's last element, and the parent's own
      list does not change. */
  method AddAllShares(parent: FluentArray, child: FluentArray, v: Option<real>)
    requires parent.myArray != child.myArray
    modifies parent.myArray, child.myArray
    ensures parent.Contents() == old(parent.Contents()) + [child.Get()]
    ensures parent.Contents()[|parent.Contents()| - 1].list.elems == old(child.Contents()) + [NumItem(v)]
  {
    var _ := parent.AddAll([child], ArrayGet);
    var _ := child.AddDouble(v);
  }

  /** The list constructor copies: writing to the original list afterwards leaves the fluent
      array as it was. */
  method CopyIsIndependent(list: array<Item>, x: Item) returns (f: FluentArray)
    requires list.Length > 0
    modifies list
    ensures fresh(f) && f.Contents() == old(list[..]) && list[0] == x
  {
    f := new FluentArray.FromList(list);
    list[0] := x;
  }
}
