/** BoxplotStatUtil.buildStat: bins y by x, computes a box and its outliers per bin and appends
    them, as rows, to nine parallel statistic columns of the caller's collector. */
module BoxplotStat {
  import opened Wrappers
  import opened Collections

  /** A JVM double as the statistic sees it: a finite value, or NaN/infinity. */
  datatype Double = Fin(value: real) | NonFinite

  /** The nine statistic variables a box plot collects. */
  datatype StatVar = X | Y | Middle | Lower | Upper | YMin | YMax | Width | Group

  const StatVars: set<StatVar> := {X, Y, Middle, Lower, Upper, YMin, YMax, Width, Group}

  /** The order in which buildStat appends to the collector's columns. */
  const StatOrder: seq<StatVar> := [X, Y, Middle, Lower, Upper, YMin, YMax, Width, Group]

  /** The exceptions of buildStat: ys runs out before xs (NoSuchElementException from the
      iterator), or the collector lacks a column (NullPointerException from `!!`). */
  datatype StatError = NoSuchElement | NullPointer(missing: StatVar)

  /** The three numbers of FiveNumberSummary that the box uses. */
  datatype Summary = Summary(median: real, firstQuartile: real, thirdQuartile: real)

  /** One element of each of the nine columns. */
  datatype Row = Row(x: real, y: Double, middle: Double, lower: Double, upper: Double,
                     yMin: Double, yMax: Double, width: real, group: real)

  function Field(r: Row, v: StatVar): Double {
    match v
    case X => Fin(r.x)
    case Y => r.y
    case Middle => r.middle
    case Lower => r.lower
    case Upper => r.upper
    case YMin => r.yMin
    case YMax => r.yMax
    case Width => Fin(r.width)
    case Group => Fin(r.group)
  }

  /** The column of variable `v` over `rows`. */
  function Column(rows: seq<Row>, v: StatVar): (c: seq<Double>)
    ensures |c| == |rows|
    ensures forall i | 0 <= i < |rows| :: c[i] == Field(rows[i], v)
  {
    seq(|rows|, i requires 0 <= i < |rows| => Field(rows[i], v))
  }

  function SeqMin(s: seq<real>): (m: real)
    requires |s| > 0
    ensures m in s && forall y | y in s :: m <= y
  {
    if |s| == 1 then s[0]
    else
      assert s == [s[0]] + s[1..];
      var t := SeqMin(s[1..]);
      if s[0] <= t then s[0] else t
  }

  function SeqMax(s: seq<real>): (m: real)
    requires |s| > 0
    ensures m in s && forall y | y in s :: y <= m
  {
    if |s| == 1 then s[0]
    else
      assert s == [s[0]] + s[1..];
      var t := SeqMax(s[1..]);
      if s[0] >= t then s[0] else t
  }

  /** The fences lie IQR * ratio beyond the hinges. */
  function Fences(s: Summary, ratio: real): (real, real) {
    var iqr := s.thirdQuartile - s.firstQuartile;
    (s.firstQuartile - iqr * ratio, s.thirdQuartile + iqr * ratio)
  }

  predicate WithinFences(y: real, lowerFence: real, upperFence: real) {
    lowerFence <= y <= upperFence
  }

  /** The whiskers: the smallest and largest values within the fences, or the fences
      themselves when no value lies within them. */
  function Whiskers(bin: seq<real>, lowerFence: real, upperFence: real): (w: (real, real))
    ensures (exists y | y in bin :: WithinFences(y, lowerFence, upperFence)) ==>
      && w.0 in bin && w.1 in bin
      && lowerFence <= w.0 <= w.1 <= upperFence
      && forall y | y in bin && WithinFences(y, lowerFence, upperFence) :: w.0 <= y <= w.1
    ensures (forall y | y in bin :: !WithinFences(y, lowerFence, upperFence)) ==>
      w == (lowerFence, upperFence)
  {
    var inside := Filter(bin, y => WithinFences(y, lowerFence, upperFence));
    if inside == [] then (lowerFence, upperFence)
    else
      assert inside[0] in inside;
      (SeqMin(inside), SeqMax(inside))
  }

  /** The values of a bin outside its fences, in bin order. */
  function Outliers(bin: seq<real>, lowerFence: real, upperFence: real): (r: seq<real>)
    ensures forall y :: y in r <==> y in bin && (y < lowerFence || y > upperFence)
  {
    Filter(bin, y => y < lowerFence || y > upperFence)
  }

  /** The rows one bin adds: one per outlier, then the box. */
  function BinRows(x: real, bin: seq<real>, s: Summary, ratio: real, group: int): (rows: seq<Row>)
    ensures var (lf, uf) := Fences(s, ratio);
      && |rows| == |Outliers(bin, lf, uf)| + 1
      && (forall i | 0 <= i < |rows| :: rows[i].x == x && rows[i].width == |bin| as real && rows[i].group == group as real)
      && (forall i | 0 <= i < |rows| - 1 ::
            && rows[i].y == Fin(Outliers(bin, lf, uf)[i])
            && rows[i].middle == rows[i].lower == rows[i].upper == rows[i].yMin == rows[i].yMax == NonFinite)
      && var box := rows[|rows| - 1];
         && box.y == NonFinite
         && box.middle == Fin(s.median) && box.lower == Fin(s.firstQuartile) && box.upper == Fin(s.thirdQuartile)
         && (box.yMin, box.yMax) == (Fin(Whiskers(bin, lf, uf).0), Fin(Whiskers(bin, lf, uf).1))
  {
    var (lf, uf) := Fences(s, ratio);
    var outliers := Outliers(bin, lf, uf);
    seq(|outliers|, i requires 0 <= i < |outliers| => OutlierRow(x, outliers[i], |bin|, group))
    + [BoxRow(x, s, Whiskers(bin, lf, uf), |bin|, group)]
  }

  function OutlierRow(x: real, y: real, count: nat, group: int): Row {
    Row(x, Fin(y), NonFinite, NonFinite, NonFinite, NonFinite, NonFinite, count as real, group as real)
  }

  function BoxRow(x: real, s: Summary, whiskers: (real, real), count: nat, group: int): Row {
    Row(x, NonFinite, Fin(s.median), Fin(s.firstQuartile), Fin(s.thirdQuartile),
        Fin(whiskers.0), Fin(whiskers.1), count as real, group as real)
  }

  /** The rows of one bin, built as the source does: the outlier loop, then the box. */
  method AddBin(x: real, bin: seq<real>, s: Summary, ratio: real, group: int) returns (rows: seq<Row>)
    ensures rows == BinRows(x, bin, s, ratio, group)
  {
    var (lowerFence, upperFence) := Fences(s, ratio);
    var whiskers := Whiskers(bin, lowerFence, upperFence);
    var outliers := Outliers(bin, lowerFence, upperFence);
    rows := [];
    var outlierCount := 0;
    while outlierCount < |outliers|
      invariant 0 <= outlierCount <= |outliers|
      invariant |rows| == outlierCount
      invariant forall i | 0 <= i < outlierCount :: rows[i] == OutlierRow(x, outliers[i], |bin|, group)
    {
      rows := rows + [OutlierRow(x, outliers[outlierCount], |bin|, group)];
      outlierCount := outlierCount + 1;
    }
    assert rows == seq(|outliers|, i requires 0 <= i < |outliers| => OutlierRow(x, outliers[i], |bin|, group));
    rows := rows + [BoxRow(x, s, whiskers, |bin|, group)];
  }

  /** The finite (x, y) pairs grouped by x, each bin in input order. */
  function Bins(xs: seq<Double>, ys: seq<Double>): (b: map<real, seq<real>>)
    requires |xs| == |ys|
    ensures forall k | k in b :: |b[k]| > 0
  {
    if xs == [] then map[]
    else
      var n := |xs| - 1;
      var b := Bins(xs[..n], ys[..n]);
      assert forall i | 0 <= i < n :: xs[..n][i] == xs[i] && ys[..n][i] == ys[i];
      AddPair(b, xs[n], ys[n])
  }

  /** One pair's effect on the bins: a finite pair joins the end of its x's bin. */
  function AddPair(b: map<real, seq<real>>, x: Double, y: Double): map<real, seq<real>> {
    if x.Fin? && y.Fin? then b[x.value := (if x.value in b then b[x.value] else []) + [y.value]] else b
  }

  /** One more pair either joins the bin of its x or is dropped. */
  lemma BinsSnoc(xs: seq<Double>, ys: seq<Double>, i: nat)
    requires i < |xs| && i < |ys|
    ensures Bins(xs[..i + 1], ys[..i + 1]) == AddPair(Bins(xs[..i], ys[..i]), xs[i], ys[i])
  {
    assert xs[..i + 1][..i] == xs[..i] && ys[..i + 1][..i] == ys[..i];
  }

  /** Reference for one bin: the finite y of every pair whose x is Fin(k), in index order. */
  function BinOf(xs: seq<Double>, ys: seq<Double>, k: real): seq<real>
    requires |xs| == |ys|
  {
    if xs == [] then []
    else (if xs[0] == Fin(k) && ys[0].Fin? then [ys[0].value] else []) + BinOf(xs[1..], ys[1..], k)
  }

  /** A bin exists exactly for each x of a pair whose x and y are both finite. */
  lemma {:induction false} BinsKeys(xs: seq<Double>, ys: seq<Double>, k: real)
    requires |xs| == |ys|
    ensures k in Bins(xs, ys) <==> exists i | 0 <= i < |xs| :: xs[i] == Fin(k) && ys[i].Fin?
  {
    if xs != [] {
      var n := |xs| - 1;
      BinsKeys(xs[..n], ys[..n], k);
      assert forall i | 0 <= i < n :: xs[..n][i] == xs[i] && ys[..n][i] == ys[i];
    }
  }

  /** A pair at the end adds its y to the end of its own bin only. */
  lemma {:induction false} BinOfSnoc(xs: seq<Double>, ys: seq<Double>, x: Double, y: Double, k: real)
    requires |xs| == |ys|
    ensures BinOf(xs + [x], ys + [y], k) == BinOf(xs, ys, k) + (if x == Fin(k) && y.Fin? then [y.value] else [])
  {
    if xs != [] {
      assert (xs + [x])[1..] == xs[1..] + [x] && (ys + [y])[1..] == ys[1..] + [y];
      BinOfSnoc(xs[1..], ys[1..], x, y, k);
    }
  }

  /** Each bin holds exactly the finite y values of the pairs with that finite x, in input
      order, and a value with no such pair has no bin. */
  lemma {:induction false} BinsContents(xs: seq<Double>, ys: seq<Double>, k: real)
    requires |xs| == |ys|
    ensures k in Bins(xs, ys) ==> Bins(xs, ys)[k] == BinOf(xs, ys, k)
    ensures k !in Bins(xs, ys) ==> BinOf(xs, ys, k) == []
  {
    if xs != [] {
      var n := |xs| - 1;
      assert xs == xs[..n] + [xs[n]] && ys == ys[..n] + [ys[n]];
      BinsContents(xs[..n], ys[..n], k);
      BinOfSnoc(xs[..n], ys[..n], xs[n], ys[n], k);
    }
  }

  /** Opening the bin of k when it is missing and then appending y gives the bin of k
      followed by y. */
  lemma AppendToBin(b: map<real, seq<real>>, k: real, y: real, withBin: map<real, seq<real>>, after: map<real, seq<real>>)
    requires withBin == if k in b then b else b[k := []]
    requires k in withBin && after == withBin[k := withBin[k] + [y]]
    ensures after == b[k := (if k in b then b[k] else []) + [y]]
  {
  }

  /** The first loop of buildStat over the pairs the two iterators supply: pairs with a
      non-finite x or y are dropped.  When ys is shorter than xs the ys iterator throws at x
      number |ys|; the bins are local, so buildStat only sees the exception. */
  method BinValues(xs: seq<Double>, ys: seq<Double>) returns (binned: map<real, seq<real>>)
    ensures |xs| <= |ys| ==> binned == Bins(xs, ys[..|xs|])
  {
    binned := map[];
    var i := 0;
    while i < |xs| && i < |ys|
      invariant 0 <= i <= |xs| && i <= |ys|
      invariant binned == Bins(xs[..i], ys[..i])
    {
      var x, y := xs[i], ys[i];
      ghost var before := binned;
      if x.Fin? && y.Fin? {
        if x.value !in binned {
          binned := binned[x.value := []];
        }
        ghost var withBin := binned;
        binned := binned[x.value := binned[x.value] + [y.value]];
        AppendToBin(before, x.value, y.value, withBin, binned);
      }
      assert binned == AddPair(before, x, y);
      BinsSnoc(xs, ys, i);
      i := i + 1;
    }
    assert xs[..|xs|] == xs;
  }

  /** The rows of the bins taken in `order`. */
  function AllRows(order: seq<real>, binned: map<real, seq<real>>, summarize: seq<real> -> Summary, ratio: real, group: int): (rows: seq<Row>)
    requires forall k | k in order :: k in binned
    ensures |order| > 0 ==> |rows| >= |order|
  {
    if order == [] then []
    else
      var n := |order| - 1;
      var k := order[n];
      AllRows(order[..n], binned, summarize, ratio, group) + BinRows(k, binned[k], summarize(binned[k]), ratio, group)
  }

  /** The second loop of buildStat: each bin, in the map's iteration order, adds its rows;
      `maxCount` is the largest bin. */
  method BuildRows(binned: map<real, seq<real>>, summarize: seq<real> -> Summary, ratio: real, group: int)
    returns (rows: seq<Row>, maxCount: nat, ghost order: seq<real>)
    ensures |order| == |binned| && (forall k :: k in order <==> k in binned)
    ensures rows == AllRows(order, binned, summarize, ratio, group)
    ensures forall k | k in binned :: |binned[k]| <= maxCount
    ensures binned != map[] ==> exists k | k in binned :: |binned[k]| == maxCount
    ensures binned == map[] ==> maxCount == 0
  {
    var remaining := binned.Keys;
    order := [];
    rows := [];
    maxCount := 0;
    while remaining != {}
      invariant remaining <= binned.Keys
      invariant forall k :: k in order <==> k in binned && k !in remaining
      invariant |order| + |remaining| == |binned|
      invariant rows == AllRows(order, binned, summarize, ratio, group)
      invariant forall k | k in order :: |binned[k]| <= maxCount
      invariant order != [] ==> exists k | k in order :: |binned[k]| == maxCount
      invariant order == [] ==> maxCount == 0
      decreases remaining
    {
      ghost var some := Element(remaining);
      var x :| x in remaining;
      var bin := binned[x];
      var binRows := AddBin(x, bin, summarize(bin), ratio, group);
      ghost var order0 := order;
      rows := rows + binRows;
      maxCount := if maxCount > |bin| then maxCount else |bin|;
      order := order + [x];
      assert order[..|order| - 1] == order0;
      remaining := remaining - {x};
      forall k | k in order ensures |binned[k]| <= maxCount {
        if k != x {
          assert k in order0;
        }
      }
    }
  }

  /** The caller's map from statistic variable to column, filled by successive calls. */
  class Collector {
    var columns: map<StatVar, seq<Double>>

    constructor ()
      ensures columns == map[]
    {
      columns := map[];
    }
  }

  /** An empty collector gets nine empty columns; a filled one keeps them. */
  function Initialized(columns: map<StatVar, seq<Double>>): (c: map<StatVar, seq<Double>>)
    ensures c.Keys == (if columns == map[] then StatVars else columns.Keys)
    ensures columns != map[] ==> c == columns
    ensures columns == map[] ==> forall v | v in c :: c[v] == []
  {
    if columns == map[] then map v | v in StatVars :: [] else columns
  }

  /** The number of columns buildStat appends to before it meets one missing from `keys`:
      all nine when none is missing. */
  function Reached(keys: set<StatVar>): (n: nat)
    ensures n <= |StatOrder|
    ensures forall j | 0 <= j < n :: StatOrder[j] in keys
    ensures n < |StatOrder| ==> StatOrder[n] !in keys
  {
    if X !in keys then 0 else if Y !in keys then 1 else if Middle !in keys then 2
    else if Lower !in keys then 3 else if Upper !in keys then 4 else if YMin !in keys then 5
    else if YMax !in keys then 6 else if Width !in keys then 7 else if Group !in keys then 8
    else 9
  }

  /** Every column is reached exactly when the collector holds all nine. */
  lemma ReachedAll(keys: set<StatVar>)
    ensures Reached(keys) == |StatOrder| <==> keys == StatVars
  {
    if Reached(keys) == |StatOrder| {
      forall v: StatVar ensures v in keys {
        assert v == StatOrder[0] || v == StatOrder[1] || v == StatOrder[2] || v == StatOrder[3] || v == StatOrder[4]
          || v == StatOrder[5] || v == StatOrder[6] || v == StatOrder[7] || v == StatOrder[8];
      }
      forall v: StatVar ensures v in StatVars {
        assert v.X? || v.Y? || v.Middle? || v.Lower? || v.Upper? || v.YMin? || v.YMax? || v.Width? || v.Group?;
      }
    }
  }

  /** The position of a statistic variable in StatOrder. */
  function StatIndex(v: StatVar): (i: nat)
    ensures i < |StatOrder| && StatOrder[i] == v
  {
    match v
    case X => 0 case Y => 1 case Middle => 2 case Lower => 3 case Upper => 4
    case YMin => 5 case YMax => 6 case Width => 7 case Group => 8
  }

  /** `after` is `before` with add(v) appended to each of the first n columns v of StatOrder. */
  ghost predicate Appended(before: map<StatVar, seq<Double>>, after: map<StatVar, seq<Double>>,
                           add: StatVar -> seq<Double>, n: nat) {
    && after.Keys == before.Keys
    && forall v | v in before :: after[v] == before[v] + (if StatIndex(v) < n then add(v) else [])
  }

  /** Appending to column StatOrder[i] extends an append to the first i columns by one. */
  lemma AppendStep(before: map<StatVar, seq<Double>>, cur: map<StatVar, seq<Double>>,
                   add: StatVar -> seq<Double>, i: nat)
    requires i < |StatOrder| && StatOrder[i] in cur
    requires Appended(before, cur, add, i)
    ensures Appended(before, cur[StatOrder[i] := cur[StatOrder[i]] + add(StatOrder[i])], add, i + 1)
  {
    var v := StatOrder[i];
    IndexOfOrder(i);
    var after := cur[v := cur[v] + add(v)];
    forall w | w in before ensures after[w] == before[w] + (if StatIndex(w) < i + 1 then add(w) else []) {
      if w != v {
        assert StatIndex(w) != i;
        assert after[w] == cur[w];
      }
    }
  }

  /** StatIndex undoes indexing into StatOrder. */
  lemma IndexOfOrder(i: nat)
    requires i < |StatOrder|
    ensures StatIndex(StatOrder[i]) == i
  {
    if i == 0 {} else if i == 1 {} else if i == 2 {} else if i == 3 {} else if i == 4 {}
    else if i == 5 {} else if i == 6 {} else if i == 7 {} else {}
  }

  /** The nine `collector[v]!!.addAll(...)` statements of buildStat, in StatOrder: the first
      missing column throws after the earlier ones have been appended to. */
  method AppendColumns(collector: Collector, rows: seq<Row>) returns (out: Outcome<StatError>)
    modifies collector
    ensures var n := Reached(old(collector.columns).Keys);
      && (out.Fail? <==> n < |StatOrder|)
      && (out.Fail? ==> out.error == NullPointer(StatOrder[n]))
      && Appended(old(collector.columns), collector.columns, v => Column(rows, v), n)
  {
    ghost var init := collector.columns;
    ghost var n := Reached(init.Keys);
    var i := 0;
    ghost var add := v => Column(rows, v);
    while i < |StatOrder|
      invariant 0 <= i <= n
      invariant Appended(init, collector.columns, add, i)
    {
      var v := StatOrder[i];
      if v !in collector.columns {
        return Fail(NullPointer(v));
      }
      assert i < n by {
        assert v in init.Keys;
      }
      AppendStep(init, collector.columns, add, i);
      collector.columns := collector.columns[v := collector.columns[v] + Column(rows, v)];
      i := i + 1;
    }
    assert n == |StatOrder|;
    return Pass;
  }

  /** buildStat(xs, ys, ratio, group, collector): an empty collector first gets nine empty
      columns.  If ys is shorter than xs the iterator throws; with no finite pair the result
      is 0; otherwise the bins' rows are appended column by column, in StatOrder, and the
      size of the largest bin returned, unless a column is missing from a collector that was
      only partly filled: the columns before it have had their rows appended when `!!` throws. */
  method BuildStat(xs: seq<Double>, ys: seq<Double>, ratio: real, group: int,
                   summarize: seq<real> -> Summary, collector: Collector)
    returns (r: Result<nat, StatError>, ghost order: seq<real>)
    modifies collector
    ensures var init := Initialized(old(collector.columns));
      && (|xs| > |ys| ==> r == Failure(NoSuchElement) && collector.columns == init)
      && (|xs| <= |ys| && Bins(xs, ys[..|xs|]) == map[] ==> r == Success(0) && collector.columns == init)
    ensures |xs| <= |ys| && Bins(xs, ys[..|xs|]) != map[] ==>
      var bins := Bins(xs, ys[..|xs|]);
      && (forall k :: k in order <==> k in bins) && |order| == |bins|
      && (r.Success? ==> (forall k | k in bins :: |bins[k]| <= r.value) && exists k | k in bins :: |bins[k]| == r.value)
    ensures |xs| <= |ys| && Bins(xs, ys[..|xs|]) != map[] ==>
      var bins := Bins(xs, ys[..|xs|]);
      var init := Initialized(old(collector.columns));
      var n := Reached(init.Keys);
      && (r.Failure? <==> n < |StatOrder|)
      && (r.Failure? ==> r.error == NullPointer(StatOrder[n]))
      && (forall k | k in order :: k in bins)
      && Appended(init, collector.columns, v => Column(AllRows(order, bins, summarize, ratio, group), v), n)
  {
    if collector.columns == map[] {
      collector.columns := map v | v in StatVars :: [];
    }
    var binned := BinValues(xs, ys);
    if |xs| > |ys| {
      return Failure(NoSuchElement), [];
    }
    if binned == map[] {
      return Success(0), [];
    }
    var rows, maxCount;
    rows, maxCount, order := BuildRows(binned, summarize, ratio, group);
    var out := AppendColumns(collector, rows);
    if out.Fail? {
      return Failure(out.error), order;
    }
    r := Success(maxCount);
  }

  /** A collector that is empty or holds all nine columns never meets a missing column: each
      bin's rows are appended to all nine. */
  lemma FullCollectorReachesAll(columns: map<StatVar, seq<Double>>)
    requires columns == map[] || columns.Keys == StatVars
    ensures Reached(Initialized(columns).Keys) == |StatOrder|
  {
    ReachedAll(Initialized(columns).Keys);
  }

  /** Each bin adds one row per outlier plus one for the box. */
  lemma {:induction false} RowCount(order: seq<real>, binned: map<real, seq<real>>, summarize: seq<real> -> Summary, ratio: real, group: int)
    requires forall k | k in order :: k in binned
    ensures |AllRows(order, binned, summarize, ratio, group)| == OutlierTotal(order, binned, summarize, ratio) + |order|
  {
    if order != [] {
      var n := |order| - 1;
      RowCount(order[..n], binned, summarize, ratio, group);
    }
  }

  /** The number of outliers over the bins in `order`. */
  function OutlierTotal(order: seq<real>, binned: map<real, seq<real>>, summarize: seq<real> -> Summary, ratio: real): nat
    requires forall k | k in order :: k in binned
  {
    if order == [] then 0
    else
      var n := |order| - 1;
      var k := order[n];
      var (lf, uf) := Fences(summarize(binned[k]), ratio);
      OutlierTotal(order[..n], binned, summarize, ratio) + |Outliers(binned[k], lf, uf)|
  }

  /** Every row carries the group and, as its width, the size of its bin. */
  ghost predicate CarryWidthAndGroup(rows: seq<Row>, binned: map<real, seq<real>>, group: int) {
    forall i | 0 <= i < |rows| :: rows[i].x in binned && rows[i].width == |binned[rows[i].x]| as real && rows[i].group == group as real
  }

  /** The rows of all bins carry their bin's size and the group. */
  lemma {:induction false} RowsCarryWidthAndGroup(order: seq<real>, binned: map<real, seq<real>>, summarize: seq<real> -> Summary, ratio: real, group: int)
    requires forall k | k in order :: k in binned
    ensures CarryWidthAndGroup(AllRows(order, binned, summarize, ratio, group), binned, group)
  {
    if order != [] {
      var n := |order| - 1;
      var k := order[n];
      RowsCarryWidthAndGroup(order[..n], binned, summarize, ratio, group);
      var front := AllRows(order[..n], binned, summarize, ratio, group);
      var back := BinRows(k, binned[k], summarize(binned[k]), ratio, group);
      var rows := front + back;
      forall i | 0 <= i < |rows|
        ensures rows[i].x in binned && rows[i].width == |binned[rows[i].x]| as real && rows[i].group == group as real
      {
        if i >= |front| {
          assert rows[i] == back[i - |front|];
        } else {
          assert rows[i] == front[i];
        }
      }
    }
  }
}
