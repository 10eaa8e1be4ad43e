/** RegularMeshDetector: decides whether a series of values is one equally spaced row
    (`tryRow`) or two equal-length runs of a constant (`tryColumn`).  A Kotlin `null` element
    is `None`; doubles are exact reals. */
module RegularMesh {
  import opened Wrappers
  import opened Numerics

  datatype MeshError = NotAMesh | NullPointer

  /** equalsEnough(d1, d2): equal, or within `error` of each other. */
  function EqualsEnough(d1: real, d2: real, error: real): (r: bool)
    ensures d1 == d2 ==> r
    ensures error >= 0.0 ==> (r <==> Abs(d1 - d2) <= error)
    ensures error < 0.0 ==> (r <==> d1 == d2)
  {
    d1 == d2 || Abs(d1 - d2) <= error
  }

  /** nearZero(d): within `error` of zero. */
  function NearZero(d: real, error: real): (r: bool)
    ensures r <==> -error <= d <= error
  {
    Abs(d) <= error
  }

  lemma EqualsEnoughReflexiveSymmetric(d1: real, d2: real, error: real)
    ensures EqualsEnough(d1, d1, error)
    ensures EqualsEnough(d1, d2, error) <==> EqualsEnough(d2, d1, error)
  {
  }

  /** The step between the values at i - 1 and i. */
  function Gap(values: seq<Option<real>>, i: nat): real
    requires 1 <= i < |values| && values[i].Some? && values[i - 1].Some?
  {
    values[i].value - values[i - 1].value
  }

  /** The row property: the first `m` values (at least two) are present, no step is near
      zero and every step is within `error` of the first. */
  ghost predicate IsRow(m: int, error: real, values: seq<Option<real>>) {
    && 2 <= m <= |values|
    && (forall i | 0 <= i < m :: values[i].Some?)
    && (forall i | 1 <= i < m :: !NearZero(Gap(values, i), error))
    && (forall i | 2 <= i < m :: EqualsEnough(Gap(values, i), Gap(values, 1), error))
  }

  /** MyRowDetector.init(values): the scan that stops after `m` values. */
  method DetectRow(m: int, error: real, values: seq<Option<real>>) returns (isMesh: bool, resolution: real)
    ensures isMesh <==> IsRow(m, error, values)
    ensures isMesh ==> resolution == Abs(Gap(values, 1))
    ensures !isMesh ==> resolution == 0.0
  {
    isMesh, resolution := false, 0.0;
    var distance := 0.0;
    var distanceInitialized := false;
    var prevValue: Option<real> := None;
    var count := m;
    var i := 0;
    while i < |values|
      invariant 0 <= i <= |values| && count == m - i
      invariant m >= 1 ==> i < m
      invariant prevValue == if i == 0 then None else values[i - 1]
      invariant forall j | 0 <= j < i :: values[j].Some?
      invariant distanceInitialized <==> i >= 2
      invariant i >= 2 ==> distance == Gap(values, 1)
      invariant forall j | 1 <= j < i :: !NearZero(Gap(values, j), error)
      invariant forall j | 2 <= j < i :: EqualsEnough(Gap(values, j), Gap(values, 1), error)
    {
      var value := values[i];
      if value.None? {
        return;
      }
      if prevValue.Some? {
        var dist := value.value - prevValue.value;
        assert dist == Gap(values, i);
        if NearZero(dist, error) {
          return;
        }
        if distanceInitialized {
          if !EqualsEnough(dist, distance, error) {
            return;
          }
        } else {
          distance := dist;
          distanceInitialized := true;
        }
      }
      prevValue := value;
      i := i + 1;
      count := count - 1;
      if count == 0 {
        break;
      }
    }
    if distanceInitialized && count == 0 {
      resolution := Abs(distance);
      isMesh := true;
    }
  }

  /** A value joins a run whose first value is `base`. */
  predicate Joins(v: Option<real>, base: real, error: real) {
    v.Some? && EqualsEnough(base, v.value, error)
  }

  /** The length of the run of values from `from` on that join `base`. */
  function RunLength(values: seq<Option<real>>, from: nat, base: real, error: real): (r: nat)
    requires from <= |values|
    ensures from + r <= |values|
    ensures forall i | from <= i < from + r :: Joins(values[i], base, error)
    ensures from + r < |values| ==> !Joins(values[from + r], base, error)
    decreases |values| - from
  {
    if from < |values| && Joins(values[from], base, error) then 1 + RunLength(values, from + 1, base, error) else 0
  }

  /** What the column scan sees: a null among the scanned values, or the two runs. */
  datatype Scan = NullSeen | Runs(size0: nat, size1: nat, value0: Option<real>, value1: Option<real>)

  /** The first run starts at the first value; the second run starts at the first value that
      does not join it; scanning stops at the first value that joins neither. */
  function ColumnScan(error: real, values: seq<Option<real>>): (s: Scan)
    ensures s.Runs? ==> s.size0 + s.size1 <= |values|
    ensures s.Runs? && s.size0 > 0 ==> s.value0 == values[0]
    ensures s.Runs? && s.size1 > 0 ==> s.size0 > 0 && s.value1 == values[s.size0]
    ensures s.Runs? ==> (s.size0 == 0 <==> values == [])
    ensures s.Runs? ==> (s.value0.Some? <==> s.size0 > 0) && (s.value1.Some? <==> s.size1 > 0)
  {
    if |values| == 0 then Runs(0, 0, None, None)
    else if values[0].None? then NullSeen
    else
      var a := RunLength(values, 0, values[0].value, error);
      if a == |values| then Runs(a, 0, values[0], None)
      else if values[a].None? then NullSeen
      else
        var b := RunLength(values, a, values[a].value, error);
        if a + b < |values| && values[a + b].None? then NullSeen
        else Runs(a, b, values[0], values[a])
  }

  /** A null met at index i, inside the first run or (when `second`) inside the second run
      that starts at `a`, or just after it, ends the scan with NullSeen. */
  lemma ColumnScanNull(error: real, values: seq<Option<real>>, i: nat, second: bool, a: nat)
    requires i < |values| && values[i].None?
    requires forall j | 0 <= j < i :: values[j].Some?
    requires !second ==> i == 0 || RunLength(values, 0, values[0].value, error) >= i
    requires second ==>
      && 0 < a < i && RunLength(values, 0, values[0].value, error) == a
      && RunLength(values, a, values[a].value, error) >= i - a
    ensures ColumnScan(error, values) == NullSeen
  {
  }

  /** The scan stopped without a null: at the end of the values, or (in the second run) at
      a value that joins neither run. */
  lemma ColumnScanRuns(error: real, values: seq<Option<real>>, i: nat, second: bool, a: nat)
    requires i <= |values|
    requires forall j | 0 <= j < i :: values[j].Some?
    requires !second ==> i == |values| && (i == 0 || RunLength(values, 0, values[0].value, error) >= i)
    requires second ==>
      && 0 < a < i && RunLength(values, 0, values[0].value, error) == a
      && RunLength(values, a, values[a].value, error) >= i - a
      && (i == |values| || (values[i].Some? && !EqualsEnough(values[a].value, values[i].value, error)))
    ensures ColumnScan(error, values) ==
      if second then Runs(a, i - a, values[0], values[a])
      else Runs(i, 0, if i == 0 then None else values[0], None)
  {
  }

  /** What the column scan knows after i values, with the run sizes and values of its two
      buffer slots. */
  ghost predicate ScanInvariant(error: real, values: seq<Option<real>>, i: nat, rowIndex: nat, a: nat,
                                size0: nat, size1: nat, value0: Option<real>, value1: Option<real>)
  {
    && i <= |values| && rowIndex <= 1
    && (forall j | 0 <= j < i :: values[j].Some?)
    && (rowIndex == 0 ==> size0 == i && size1 == 0 && value1 == None)
    && (rowIndex == 0 && i == 0 ==> value0 == None)
    && (rowIndex == 0 && i > 0 ==>
          value0 == values[0] && RunLength(values, 0, values[0].value, error) >= i)
    && (rowIndex == 1 ==>
          && 0 < a < i && size0 == a && size1 == i - a
          && value0 == values[0] && value1 == values[a]
          && RunLength(values, 0, values[0].value, error) == a
          && RunLength(values, a, values[a].value, error) >= i - a)
  }

  /** The slot being filled is empty only for the very first value. */
  lemma ScanStart(error: real, values: seq<Option<real>>, i: nat, rowIndex: nat, a: nat,
                  size0: nat, size1: nat, value0: Option<real>, value1: Option<real>)
    requires ScanInvariant(error, values, i, rowIndex, a, size0, size1, value0, value1)
    requires i < |values| && values[i].Some? && (if rowIndex == 0 then value0 else value1) == None
    ensures rowIndex == 0 && i == 0 && size0 == 0
    ensures ScanInvariant(error, values, 1, 0, a, 1, 0, values[0], None)
  {
  }

  /** A value that joins the current run lengthens it. */
  lemma ScanJoin(error: real, values: seq<Option<real>>, i: nat, rowIndex: nat, a: nat,
                 size0: nat, size1: nat, value0: Option<real>, value1: Option<real>)
    requires ScanInvariant(error, values, i, rowIndex, a, size0, size1, value0, value1)
    requires i < |values| && values[i].Some?
    requires var v := if rowIndex == 0 then value0 else value1; v.Some? && EqualsEnough(v.value, values[i].value, error)
    ensures rowIndex == 0 ==> ScanInvariant(error, values, i + 1, 0, a, size0 + 1, size1, value0, value1)
    ensures rowIndex == 1 ==> ScanInvariant(error, values, i + 1, 1, a, size0, size1 + 1, value0, value1)
  {
    if rowIndex == 0 {
      RunLengthExtends(values, 0, values[0].value, error, i);
    } else {
      RunLengthExtends(values, a, values[a].value, error, i);
    }
  }

  /** The first value that does not join the first run starts the second one. */
  lemma ScanSecondRun(error: real, values: seq<Option<real>>, i: nat, a: nat, size0: nat, value0: Option<real>)
    requires ScanInvariant(error, values, i, 0, a, size0, 0, value0, None)
    requires i < |values| && values[i].Some? && value0.Some? && !EqualsEnough(value0.value, values[i].value, error)
    ensures ScanInvariant(error, values, i + 1, 1, i, size0, 1, value0, values[i])
  {
    RunLengthStops(values, 0, values[0].value, error, i);
    assert RunLength(values, i, values[i].value, error) >= 1;
  }

  /** A run that reaches index i and takes values[i] reaches i + 1. */
  lemma {:induction false} RunLengthExtends(values: seq<Option<real>>, from: nat, base: real, error: real, i: nat)
    requires from <= i < |values| && RunLength(values, from, base, error) >= i - from && Joins(values[i], base, error)
    ensures RunLength(values, from, base, error) >= i + 1 - from
    decreases i - from
  {
    if from < i {
      RunLengthExtends(values, from + 1, base, error, i);
    }
  }

  /** A run that reaches index i and does not take values[i] ends there. */
  lemma {:induction false} RunLengthStops(values: seq<Option<real>>, from: nat, base: real, error: real, i: nat)
    requires from <= i < |values| && RunLength(values, from, base, error) >= i - from && !Joins(values[i], base, error)
    ensures RunLength(values, from, base, error) == i - from
    decreases i - from
  {
    if from < i {
      RunLengthStops(values, from + 1, base, error, i);
    }
  }

  /** The scanning loop of MyColumnDetector.init(values), over the two-slot buffers. */
  method ScanColumn(error: real, values: seq<Option<real>>) returns (s: Scan)
    ensures s == ColumnScan(error, values)
  {
    var rowSize := new nat[2];
    rowSize[0], rowSize[1] := 0, 0;
    var rowValue := new Option<real>[2];
    rowValue[0], rowValue[1] := None, None;
    var rowIndex := 0;
    var i := 0;
    ghost var a := 0;
    while i < |values|
      invariant 0 <= i <= |values| && 0 <= rowIndex <= 1
      invariant ScanInvariant(error, values, i, rowIndex, a, rowSize[0], rowSize[1], rowValue[0], rowValue[1])
    {
      var value := values[i];
      if value.None? {
        ColumnScanNull(error, values, i, rowIndex == 1, a);
        return NullSeen;
      }
      if rowValue[rowIndex] == None {
        ScanStart(error, values, i, rowIndex, a, rowSize[0], rowSize[1], rowValue[0], rowValue[1]);
        rowValue[rowIndex] := value;
        rowSize[rowIndex] := rowSize[rowIndex] + 1;
      } else if EqualsEnough(rowValue[rowIndex].value, value.value, error) {
        ScanJoin(error, values, i, rowIndex, a, rowSize[0], rowSize[1], rowValue[0], rowValue[1]);
        rowSize[rowIndex] := rowSize[rowIndex] + 1;
      } else if rowIndex == 0 {
        ScanSecondRun(error, values, i, a, rowSize[0], rowValue[0]);
        rowIndex := rowIndex + 1;
        a := i;
        rowValue[rowIndex] := value;
        rowSize[rowIndex] := rowSize[rowIndex] + 1;
      } else {
        break;
      }
      i := i + 1;
    }
    ColumnScanRuns(error, values, i, rowIndex == 1, a);
    s := Runs(rowSize[0], rowSize[1], rowValue[0], rowValue[1]);
  }

  /** MyColumnDetector.init(values): a mesh when the two runs have the same length, at least
      `m`.  With no values and `m <= 0` the source dereferences the missing run values and
      throws; that is `Failure(NullPointer)`. */
  method DetectColumn(m: int, error: real, values: seq<Option<real>>) returns (r: Result<(bool, real), MeshError>)
    ensures ColumnScan(error, values).NullSeen? ==> r == Success((false, 0.0))
    ensures ColumnScan(error, values).Runs? ==>
      var s := ColumnScan(error, values);
      if s.size0 == s.size1 && s.size0 >= m then
        if s.size0 == 0 then r == Failure(NullPointer)
        else r == Success((true, Abs(s.value1.value - s.value0.value)))
      else r == Success((false, 0.0))
  {
    var s := ScanColumn(error, values);
    if s.NullSeen? {
      return Success((false, 0.0));
    }
    if s.size0 == s.size1 && s.size0 >= m {
      if s.value1 == None || s.value0 == None {
        return Failure(NullPointer);
      }
      r := Success((true, Abs(s.value1.value - s.value0.value)));
    } else {
      r := Success((false, 0.0));
    }
  }

  /** A detector: `isMesh` and the resolution it found. */
  class MeshDetector {
    var isMesh: bool
    var resolution: real

    /** NO_MESH: a detector that is never a mesh.  The source shares one instance; a fresh
        one here is indistinguishable, since nothing ever updates a detector's fields after
        construction. */
    constructor NoMesh()
      ensures !isMesh && resolution == 0.0
    {
      isMesh, resolution := false, 0.0;
    }

    constructor (isMesh: bool, resolution: real)
      ensures this.isMesh == isMesh && this.resolution == resolution
    {
      this.isMesh, this.resolution := isMesh, resolution;
    }

    /** The `resolution` getter: only a mesh has one. */
    method Resolution() returns (r: Result<real, MeshError>)
      ensures isMesh <==> r.Success?
      ensures r.Success? ==> r.value == resolution
      ensures r.Failure? ==> r.error == NotAMesh
    {
      if !isMesh {
        return Failure(NotAMesh);
      }
      r := Success(resolution);
    }
  }

  /** tryRow(minRowSize, error, values). */
  method TryRowWith(m: int, error: real, values: seq<Option<real>>) returns (d: MeshDetector)
    ensures fresh(d)
    ensures d.isMesh <==> IsRow(m, error, values)
    ensures d.isMesh ==> d.resolution == Abs(Gap(values, 1))
  {
    var isMesh, resolution := DetectRow(m, error, values);
    d := new MeshDetector(isMesh, resolution);
  }

  /** tryRow(values): the error is a ten-thousandth of the first gap, the row size 50. */
  method TryRow(values: seq<Option<real>>) returns (d: MeshDetector)
    ensures fresh(d)
    ensures |values| < 2 || values[0].None? || values[1].None? ==> !d.isMesh
    ensures |values| >= 2 && values[0].Some? && values[1].Some? ==>
      (d.isMesh <==> IsRow(50, Abs(values[1].value - values[0].value) / 10000.0, values))
  {
    if |values| < 2 || values[0].None? || values[1].None? {
      d := new MeshDetector.NoMesh();
      return;
    }
    var delta := Abs(values[1].value - values[0].value);
    d := TryRowWith(50, delta / 10000.0, values);
  }

  /** tryColumn(minRowSize, error, values). */
  method TryColumnWith(m: int, error: real, values: seq<Option<real>>) returns (r: Result<MeshDetector, MeshError>)
    ensures r.Success? ==> fresh(r.value)
    ensures r.Failure? <==> values == [] && m <= 0
    ensures r.Success? ==> (r.value.isMesh <==>
      ColumnScan(error, values).Runs? && ColumnScan(error, values).size0 == ColumnScan(error, values).size1 >= m)
  {
    var found := DetectColumn(m, error, values);
    if found.Failure? {
      return Failure(found.error);
    }
    var d := new MeshDetector(found.value.0, found.value.1);
    r := Success(d);
  }

  /** tryColumn(values): row size 50; the tolerance SeriesUtil.TINY is passed in. */
  method TryColumn(tiny: real, values: seq<Option<real>>) returns (d: MeshDetector)
    ensures fresh(d)
    ensures d.isMesh <==> ColumnScan(tiny, values).Runs? && ColumnScan(tiny, values).size0 == ColumnScan(tiny, values).size1 >= 50
  {
    var r := TryColumnWith(50, tiny, values);
    d := r.value;
  }
}
