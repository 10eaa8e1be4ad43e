/** Value-level semantics of the TWKB geometry parser (GeometryObjectParser.kt): the
    coordinate stream, the stack of geometry parsers, and one `parsePoint()` step.
    The imperative parser in module TwkbParser is proved to follow these functions. */
module TwkbSpec {
  import opened Wrappers

  /** Running coordinate sums of the stream.  The division by the precision that turns them
      into a DoubleVector is not part of this model. */
  datatype Vec = Vec(x: int, y: int)

  /** What a finished list is wrapped into: LineString(points), Ring(points), Polygon(rings),
      MultiPoint(points), MultiLineString(lines), MultiPolygon(polygons). */
  datatype Kind = LineString | Ring | Polygon | MultiPoint | MultiLineString | MultiPolygon

  datatype Geometry = Point(p: Vec) | Composite(kind: Kind, parts: seq<Geometry>)

  /** EndOfInput: the decoded input has no value left; IllegalState: popThisParser found an
      empty stack or somebody else's parser on top. */
  datatype Error = EndOfInput | IllegalState

  // ---------------------------------------------------------------------------------------
  // GeometryStream

  /** The input, already varint-decoded, the read position and the running sums x and y. */
  datatype Stream = Stream(input: seq<int>, pos: nat, x: int, y: int)

  /** readCount(): the next decoded value. */
  function ReadCount(s: Stream): (r: Result<(int, Stream), Error>)
    ensures r.Success? <==> s.pos < |s.input|
    ensures r.Success? ==> r.value.1 == s.(pos := s.pos + 1) && r.value.0 == s.input[s.pos]
  {
    if s.pos < |s.input| then Success((s.input[s.pos], s.(pos := s.pos + 1)))
    else Failure(EndOfInput)
  }

  /** readPoint(): adds the next two decoded values to the running sums and returns them. */
  function ReadPoint(s: Stream): Result<(Vec, Stream), Error>
  {
    if s.pos + 2 <= |s.input| then
      var x := s.x + s.input[s.pos];
      var y := s.y + s.input[s.pos + 1];
      Success((Vec(x, y), Stream(s.input, s.pos + 2, x, y)))
    else
      Failure(EndOfInput)
  }

  /** n successive readPoint() calls. */
  function ReadPoints(s: Stream, n: nat): Result<(seq<Vec>, Stream), Error>
    decreases n
  {
    if n == 0 then Success(([], s))
    else
      var first :- ReadPoint(s);
      var rest :- ReadPoints(first.1, n - 1);
      Success(([first.0] + rest.0, rest.1))
  }

  /** Sum of the first k x-deltas (even offsets) from position pos. */
  function SumX(input: seq<int>, pos: nat, k: nat): int
    requires pos + 2 * k <= |input|
  {
    if k == 0 then 0 else SumX(input, pos, k - 1) + input[pos + 2 * (k - 1)]
  }

  /** Sum of the first k y-deltas (odd offsets) from position pos. */
  function SumY(input: seq<int>, pos: nat, k: nat): int
    requires pos + 2 * k <= |input|
  {
    if k == 0 then 0 else SumY(input, pos, k - 1) + input[pos + 2 * (k - 1) + 1]
  }

  lemma {:induction false} SumXStep(input: seq<int>, pos: nat, k: nat)
    requires pos + 2 * (k + 1) <= |input|
    ensures SumX(input, pos, k + 1) == input[pos] + SumX(input, pos + 2, k)
    ensures SumY(input, pos, k + 1) == input[pos + 1] + SumY(input, pos + 2, k)
  {
    if k > 0 {
      SumXStep(input, pos, k - 1);
    }
  }

  /** Delta decoding: reading n points succeeds exactly when 2n values are left; the k-th
      point is the start sums plus the first k+1 x- and y-deltas; the sums carry over to the
      next read (they are never reset). */
  lemma {:induction false} ReadPointsPrefixSums(s: Stream, n: nat)
    requires s.pos <= |s.input|
    decreases n
    ensures ReadPoints(s, n).Success? <==> s.pos + 2 * n <= |s.input|
    ensures ReadPoints(s, n).Success? ==>
      var (vs, t) := ReadPoints(s, n).value;
      && |vs| == n
      && t.input == s.input && t.pos == s.pos + 2 * n
      && t.x == s.x + SumX(s.input, s.pos, n) && t.y == s.y + SumY(s.input, s.pos, n)
      && forall k | 0 <= k < n ::
           vs[k] == Vec(s.x + SumX(s.input, s.pos, k + 1), s.y + SumY(s.input, s.pos, k + 1))
  {
    if n > 0 && s.pos + 2 <= |s.input| {
      var first := ReadPoint(s).value;
      var s1 := first.1;
      ReadPointsPrefixSums(s1, n - 1);
      if s.pos + 2 * n <= |s.input| {
        var (rest, t) := ReadPoints(s1, n - 1).value;
        var vs := ReadPoints(s, n).value.0;
        assert vs == [first.0] + rest;
        SumXStep(s.input, s.pos, n - 1);
        forall k | 0 <= k < n
          ensures vs[k] == Vec(s.x + SumX(s.input, s.pos, k + 1), s.y + SumY(s.input, s.pos, k + 1))
        {
          SumXStep(s.input, s.pos, k);
          if k > 0 {
            assert vs[k] == rest[k - 1];
          }
        }
      }
    }
  }

  // ---------------------------------------------------------------------------------------
  // The parser stack

  /** Where a finished parser sends its result: to the nested parser that pushed it (its
      onNestedParsed), or to the consumer handed to parsePoint/parseLineString/..., together
      with the caller's ids for the multi-geometries. */
  datatype Sink = ToParent(parent: nat) | ToCaller(ids: Option<seq<int>>)

  /** The child parser a nested parser pushes: a PointParser (MultiPointParser), a
      PointsParser whose list is wrapped into `wrap` (PolygonParser: Ring,
      MultiLineStringParser: LineString), or a PolygonParser (MultiPolygonParser). */
  datatype ChildKind = PointChild | PointsChild(wrap: Kind) | PolygonChild

  /** One parser on the stack; `id` stands for the parser object's identity. */
  datatype Frame =
    | PointParser(id: nat, sink: Sink)
    | PointsParser(id: nat, sink: Sink, wrap: Kind, count: int, points: seq<Vec>)
    | NestedParser(id: nat, sink: Sink, wrap: Kind, child: ChildKind, count: int, parts: seq<Geometry>)

  /** A result handed to a caller's consumer by the parser `parser`. */
  datatype Delivery = Delivery(parser: nat, geometry: Geometry, ids: Option<seq<int>>)

  datatype Machine = Machine(stream: Stream, stack: seq<Frame>, nextId: nat, delivered: seq<Delivery>)

  function Top(stack: seq<Frame>): Frame
    requires stack != []
  {
    stack[|stack| - 1]
  }

  function ReplaceTop(stack: seq<Frame>, f: Frame): seq<Frame>
    requires stack != []
  {
    stack[..|stack| - 1] + [f]
  }

  function AsPoints(vs: seq<Vec>): (gs: seq<Geometry>)
    ensures |gs| == |vs| && forall i | 0 <= i < |vs| :: gs[i] == Point(vs[i])
  {
    seq(|vs|, i requires 0 <= i < |vs| => Point(vs[i]))
  }

  /** Every parser that reports to a parent sits directly above that parent, which is a
      nested parser with the expected identity. */
  ghost predicate WellFormed(m: Machine) {
    forall i | 0 <= i < |m.stack| :: m.stack[i].sink.ToParent? ==>
      0 < i && m.stack[i - 1].NestedParser? && m.stack[i - 1].id == m.stack[i].sink.parent
  }

  /** The parent a sink names is the parser on top of the stack. */
  ghost predicate SinkReady(m: Machine, sink: Sink) {
    sink.ToParent? ==>
      m.stack != [] && Top(m.stack).NestedParser? && Top(m.stack).id == sink.parent
  }

  /** popThisParser() when the parser on top is the caller, which is the only way the parsers
      of this file call it (the class GeometryObjectParser models the failing cases). */
  function Pop(m: Machine): (r: Machine)
    requires m.stack != []
    ensures |r.stack| == |m.stack| - 1
  {
    m.(stack := m.stack[..|m.stack| - 1])
  }

  /** A finished parser `from` hands `g` to its sink.  A nested parent appends it (already
      mapped by the child's wrap) and, once it holds `count` results, pops itself and hands its
      own result on to its sink. */
  function Deliver(m: Machine, from: nat, g: Geometry, sink: Sink): (r: Result<Machine, Error>)
    ensures r.Success? ==> r.value.stream == m.stream && r.value.nextId == m.nextId
    ensures r.Success? ==> m.delivered <= r.value.delivered
    ensures r.Success? ==> |r.value.stack| <= |m.stack|
    decreases |m.stack|
  {
    match sink
    case ToCaller(ids) =>
      Success(m.(delivered := m.delivered + [Delivery(from, g, ids)]))
    case ToParent(pid) =>
      if m.stack == [] then Failure(IllegalState)
      else
        var top := Top(m.stack);
        if !top.NestedParser? || top.id != pid then Failure(IllegalState)
        else
          var parts := top.parts + [g];
          if |parts| == top.count then
            Deliver(Pop(m), top.id, Composite(top.wrap, parts), top.sink)
          else
            Success(m.(stack := ReplaceTop(m.stack, top.(parts := parts))))
  }

  /** The child parser a nested parser `parent` pushes; a PointsParser and a PolygonParser read
      their count from the stream when they are constructed. */
  function NewChild(m: Machine, parent: nat, child: ChildKind): Result<(Frame, Stream), Error>
  {
    match child
    case PointChild => Success((PointParser(m.nextId, ToParent(parent)), m.stream))
    case PointsChild(wrap) =>
      var c :- ReadCount(m.stream);
      Success((PointsParser(m.nextId, ToParent(parent), wrap, c.0, []), c.1))
    case PolygonChild =>
      var c :- ReadCount(m.stream);
      Success((NestedParser(m.nextId, ToParent(parent), Polygon, PointsChild(Ring), c.0, []), c.1))
  }

  /** parsePoint(): one step of the parser on top of the stack; nothing when the stack is
      empty. */
  function Step(m: Machine): (r: Result<Machine, Error>)
    ensures m.stack == [] ==> r == Success(m)
    ensures r.Success? ==> r.value.stream.input == m.stream.input && m.stream.pos <= r.value.stream.pos
    ensures r.Success? ==> m.delivered <= r.value.delivered
  {
    if m.stack == [] then Success(m)
    else
      var top := Top(m.stack);
      match top
      case PointParser(id, sink) =>
        var p :- ReadPoint(m.stream);
        Deliver(Pop(m.(stream := p.1)), id, Point(p.0), sink)
      case PointsParser(id, sink, wrap, count, points) =>
        var p :- ReadPoint(m.stream);
        var points' := points + [p.0];
        if |points'| == count then
          Deliver(Pop(m.(stream := p.1)), id, Composite(wrap, AsPoints(points')), sink)
        else
          Success(m.(stream := p.1, stack := ReplaceTop(m.stack, top.(points := points'))))
      case NestedParser(id, _, _, child, _, _) =>
        var c :- NewChild(m, id, child);
        Success(Machine(c.1, m.stack + [c.0], m.nextId + 1, m.delivered))
  }

  /** k successive parsePoint() calls. */
  function Run(m: Machine, k: nat): Result<Machine, Error>
    decreases k
  {
    if k == 0 then Success(m)
    else
      var m1 :- Step(m);
      Run(m1, k - 1)
  }

  // ---------------------------------------------------------------------------------------
  // Starting a geometry: parsePoint(onParse), parseLineString, parsePolygon, parseMultiPoint,
  // parseMultiLine, pushMultiPolygon.  The new parser gets identity m.nextId.

  function Push(m: Machine, f: Frame): Machine {
    m.(stack := m.stack + [f], nextId := m.nextId + 1)
  }

  function StartPoint(m: Machine): Machine {
    Push(m, PointParser(m.nextId, ToCaller(None)))
  }

  function StartLineString(m: Machine): Result<Machine, Error> {
    var c :- ReadCount(m.stream);
    Success(Push(m.(stream := c.1), PointsParser(m.nextId, ToCaller(None), LineString, c.0, [])))
  }

  function StartPolygon(m: Machine): Result<Machine, Error> {
    var c :- ReadCount(m.stream);
    Success(Push(m.(stream := c.1),
      NestedParser(m.nextId, ToCaller(None), Polygon, PointsChild(Ring), c.0, [])))
  }

  function StartMultiPoint(m: Machine, n: int, ids: seq<int>): Machine {
    Push(m, NestedParser(m.nextId, ToCaller(Some(ids)), MultiPoint, PointChild, n, []))
  }

  function StartMultiLine(m: Machine, n: int, ids: seq<int>): Machine {
    Push(m, NestedParser(m.nextId, ToCaller(Some(ids)), MultiLineString, PointsChild(LineString), n, []))
  }

  function StartMultiPolygon(m: Machine, n: int, ids: seq<int>): Machine {
    Push(m, NestedParser(m.nextId, ToCaller(Some(ids)), MultiPolygon, PolygonChild, n, []))
  }

  // ---------------------------------------------------------------------------------------
  // Properties

  lemma {:induction false} DeliverWellFormed(m: Machine, from: nat, g: Geometry, sink: Sink)
    requires WellFormed(m) && SinkReady(m, sink)
    ensures Deliver(m, from, g, sink).Success?
    ensures WellFormed(Deliver(m, from, g, sink).value)
    decreases |m.stack|
  {
    if sink.ToParent? {
      var top := Top(m.stack);
      var parts := top.parts + [g];
      var n := |m.stack|;
      if |parts| == top.count {
        var m1 := m.(stack := m.stack[..n - 1]);
        assert WellFormed(m1) by {
          forall i | 0 <= i < |m1.stack| ensures m1.stack[i] == m.stack[i] { }
        }
        if top.sink.ToParent? {
          assert m.stack[n - 1].sink.ToParent?;
        }
        DeliverWellFormed(m1, top.id, Composite(top.wrap, parts), top.sink);
      } else {
        var m1 := m.(stack := ReplaceTop(m.stack, top.(parts := parts)));
        assert forall i | 0 <= i < n - 1 :: m1.stack[i] == m.stack[i];
      }
    }
  }

  /** Popping the top keeps the stack invariant, and the popped parser's sink is ready. */
  lemma {:induction false} PopWellFormed(m: Machine)
    requires WellFormed(m) && m.stack != []
    ensures WellFormed(Pop(m)) && SinkReady(Pop(m), Top(m.stack).sink)
  {
    var n := |m.stack|;
    forall i | 0 <= i < n - 1 ensures Pop(m).stack[i] == m.stack[i] { }
    if Top(m.stack).sink.ToParent? {
      assert m.stack[n - 1].sink.ToParent?;
    }
  }

  /** Pushing a parser for a caller, or a child right above its nested parent, keeps the stack
      invariant. */
  lemma {:induction false} PushWellFormed(m: Machine, f: Frame)
    requires WellFormed(m) && SinkReady(m, f.sink)
    ensures WellFormed(Push(m, f))
  {
    var n := |m.stack|;
    forall i | 0 <= i < n ensures Push(m, f).stack[i] == m.stack[i] { }
  }

  /** Under the stack invariant, parsePoint() never reaches the IllegalStateException of
      popThisParser: it either succeeds and keeps the invariant, or runs out of input. */
  lemma {:induction false} StepWellFormed(m: Machine)
    requires WellFormed(m)
    ensures Step(m).Success? || Step(m) == Failure(EndOfInput)
    ensures Step(m).Success? ==> WellFormed(Step(m).value)
  {
    if m.stack != [] {
      match Top(m.stack)
      case PointParser(_, _) => StepPointWellFormed(m);
      case PointsParser(_, _, _, _, _) => StepPointsWellFormed(m);
      case NestedParser(_, _, _, _, _, _) => StepNestedWellFormed(m);
    }
  }

  lemma {:induction false} StepPointWellFormed(m: Machine)
    requires WellFormed(m) && m.stack != [] && Top(m.stack).PointParser?
    ensures Step(m).Success? || Step(m) == Failure(EndOfInput)
    ensures Step(m).Success? ==> WellFormed(Step(m).value)
  {
    var top := Top(m.stack);
    var p := ReadPoint(m.stream);
    if p.Success? {
      var m0 := m.(stream := p.value.1);
      PopWellFormed(m0);
      DeliverWellFormed(Pop(m0), top.id, Point(p.value.0), top.sink);
    }
  }

  lemma {:induction false} StepPointsWellFormed(m: Machine)
    requires WellFormed(m) && m.stack != [] && Top(m.stack).PointsParser?
    ensures Step(m).Success? || Step(m) == Failure(EndOfInput)
    ensures Step(m).Success? ==> WellFormed(Step(m).value)
  {
    var top := Top(m.stack);
    var n := |m.stack|;
    var p := ReadPoint(m.stream);
    if p.Success? {
      var points' := top.points + [p.value.0];
      if |points'| == top.count {
        var m0 := m.(stream := p.value.1);
        PopWellFormed(m0);
        DeliverWellFormed(Pop(m0), top.id, Composite(top.wrap, AsPoints(points')), top.sink);
      } else {
        var s := ReplaceTop(m.stack, top.(points := points'));
        assert forall i | 0 <= i < n - 1 :: s[i] == m.stack[i];
      }
    }
  }

  lemma {:induction false} StepNestedWellFormed(m: Machine)
    requires WellFormed(m) && m.stack != [] && Top(m.stack).NestedParser?
    ensures Step(m).Success? || Step(m) == Failure(EndOfInput)
    ensures Step(m).Success? ==> WellFormed(Step(m).value)
  {
    var top := Top(m.stack);
    var n := |m.stack|;
    var c := NewChild(m, top.id, top.child);
    if c.Success? {
      var s := m.stack + [c.value.0];
      assert forall i | 0 <= i < n :: s[i] == m.stack[i];
      assert s[n].sink == ToParent(top.id);
    }
  }

  /** parsingObject() and parsePoint() on an empty stack: nothing happens, however often. */
  lemma {:induction false} RunOnEmptyStack(m: Machine, k: nat)
    requires m.stack == []
    ensures Run(m, k) == Success(m)
  {
    if k > 0 {
      RunOnEmptyStack(m, k - 1);
    }
  }

  /** A PointParser on top consumes exactly one point, pops itself and then hands the point to
      its consumer. */
  lemma {:induction false} PointParserStep(m: Machine, ids: Option<seq<int>>)
    requires m.stack != [] && Top(m.stack).PointParser? && Top(m.stack).sink == ToCaller(ids)
    ensures Step(m).Success? <==> m.stream.pos + 2 <= |m.stream.input|
    ensures Step(m).Success? ==>
      var p := ReadPoint(m.stream).value;
      Step(m).value == Machine(p.1, m.stack[..|m.stack| - 1], m.nextId,
        m.delivered + [Delivery(Top(m.stack).id, Point(p.0), ids)])
  {
  }

  /** A PointsParser that has not reached its count takes one more point per step, in read
      order, and stays on top.  With a count of 0 (or less) this holds for every number of
      steps: such a parser never completes. */
  lemma {:induction false} PointsParserProgress(m: Machine, j: nat)
    decreases j
    requires m.stack != [] && Top(m.stack).PointsParser?
    requires Top(m.stack).count <= 0 || |Top(m.stack).points| + j < Top(m.stack).count
    requires ReadPoints(m.stream, j).Success?
    ensures Run(m, j) == Success(m.(stream := ReadPoints(m.stream, j).value.1,
      stack := ReplaceTop(m.stack, Top(m.stack).(points := Top(m.stack).points + ReadPoints(m.stream, j).value.0))))
  {
    var top := Top(m.stack);
    if j == 0 {
      assert top.points + [] == top.points;
      assert top.(points := top.points) == m.stack[|m.stack| - 1];
      assert m.stack[..|m.stack| - 1] + [m.stack[|m.stack| - 1]] == m.stack;
    } else {
      var p := ReadPoint(m.stream).value;
      var m1 := m.(stream := p.1, stack := ReplaceTop(m.stack, top.(points := top.points + [p.0])));
      assert Step(m) == Success(m1);
      PointsParserProgress(m1, j - 1);
      var rest := ReadPoints(p.1, j - 1).value;
      assert ReadPoints(m.stream, j).value == ([p.0] + rest.0, rest.1);
      assert top.points + [p.0] + rest.0 == top.points + ([p.0] + rest.0);
      assert ReplaceTop(m1.stack, top.(points := top.points + [p.0] + rest.0))
          == ReplaceTop(m.stack, top.(points := top.points + ([p.0] + rest.0)));
    }
  }

  /** A PointsParser that needs j more points completes after exactly j steps, whatever its
      sink: it pops itself and hands all its points, in read order and wrapped as `wrap`, to
      its sink (a caller's consumer, or the PolygonParser or MultiLineStringParser below it). */
  lemma {:induction false} PointsParserDelivers(m: Machine, j: nat)
    decreases j
    requires m.stack != [] && Top(m.stack).PointsParser?
    requires j >= 1 && Top(m.stack).count == |Top(m.stack).points| + j
    requires ReadPoints(m.stream, j).Success?
    ensures Run(m, j) == Deliver(Machine(ReadPoints(m.stream, j).value.1, m.stack[..|m.stack| - 1],
      m.nextId, m.delivered), Top(m.stack).id,
      Composite(Top(m.stack).wrap, AsPoints(Top(m.stack).points + ReadPoints(m.stream, j).value.0)),
      Top(m.stack).sink)
  {
    var top := Top(m.stack);
    var p := ReadPoint(m.stream).value;
    var rest := ReadPoints(p.1, j - 1).value;
    assert ReadPoints(m.stream, j).value == ([p.0] + rest.0, rest.1);
    assert top.points + [p.0] + rest.0 == top.points + ([p.0] + rest.0);
    if j == 1 {
      assert rest == ([], p.1);
      assert [p.0] + rest.0 == [p.0];
      assert Run(m, 1) == Step(m);
    } else {
      var m1 := m.(stream := p.1, stack := ReplaceTop(m.stack, top.(points := top.points + [p.0])));
      assert Step(m) == Success(m1);
      assert Run(m, j) == Run(m1, j - 1);
      assert Top(m1.stack) == top.(points := top.points + [p.0]);
      PointsParserDelivers(m1, j - 1);
      assert m1.stack[..|m1.stack| - 1] == m.stack[..|m.stack| - 1];
    }
  }

  /** A caller's PointsParser that needs j more points completes after exactly j steps: it pops
      itself and its consumer receives all its points, in read order, wrapped as `wrap`. */
  lemma {:induction false} PointsParserCompletes(m: Machine, ids: Option<seq<int>>, j: nat)
    requires m.stack != [] && Top(m.stack).PointsParser? && Top(m.stack).sink == ToCaller(ids)
    requires j >= 1 && Top(m.stack).count == |Top(m.stack).points| + j
    requires ReadPoints(m.stream, j).Success?
    ensures Run(m, j) == Success(Machine(ReadPoints(m.stream, j).value.1, m.stack[..|m.stack| - 1],
      m.nextId, m.delivered + [Delivery(Top(m.stack).id,
        Composite(Top(m.stack).wrap, AsPoints(Top(m.stack).points + ReadPoints(m.stream, j).value.0)), ids)]))
  {
    PointsParserDelivers(m, j);
  }

  /** A caller's MultiPointParser that needs j more points completes after exactly 2j steps
      (push a PointParser, let it read): its consumer receives the j points read, in order, as
      one MultiPoint, together with the caller's ids, unchanged. */
  lemma {:induction false} MultiPointCompletes(m: Machine, ids: seq<int>, j: nat)
    decreases j
    requires m.stack != [] && Top(m.stack).NestedParser? && Top(m.stack).child == PointChild
    requires Top(m.stack).sink == ToCaller(Some(ids))
    requires j >= 1 && Top(m.stack).count == |Top(m.stack).parts| + j
    requires ReadPoints(m.stream, j).Success?
    ensures Run(m, 2 * j) == Success(Machine(ReadPoints(m.stream, j).value.1, m.stack[..|m.stack| - 1],
      m.nextId + j, m.delivered + [Delivery(Top(m.stack).id,
        Composite(Top(m.stack).wrap, Top(m.stack).parts + AsPoints(ReadPoints(m.stream, j).value.0)), Some(ids))]))
  {
    var top := Top(m.stack);
    var p := ReadPoint(m.stream).value;
    var rest := ReadPoints(p.1, j - 1).value;
    assert ReadPoints(m.stream, j).value == ([p.0] + rest.0, rest.1);
    var m1, next := PushThenReadPoint(m, ids);
    RunTwoSteps(m, m1, next, 2 * (j - 1));
    if j == 1 {
      MultiPointLast(top.parts, p, rest);
    } else {
      MultiPointCompletes(next, ids, j - 1);
      assert next.stack[..|next.stack| - 1] == m.stack[..|m.stack| - 1];
      assert top.parts + [Point(p.0)] + AsPoints(rest.0) == top.parts + AsPoints([p.0] + rest.0);
    }
  }

  lemma {:induction false} MultiPointLast(parts: seq<Geometry>, p: (Vec, Stream), rest: (seq<Vec>, Stream))
    requires ReadPoints(p.1, 0).Success? && ReadPoints(p.1, 0).value == rest
    ensures rest == ([], p.1) && [p.0] + rest.0 == [p.0]
    ensures parts + [Point(p.0)] == parts + AsPoints([p.0] + rest.0)
  {
  }

  lemma {:induction false} RunTwoSteps(m: Machine, m1: Machine, next: Machine, k: nat)
    requires Step(m) == Success(m1) && Step(m1) == Success(next)
    ensures Run(m, k + 2) == Run(next, k)
  {
  }

  /** The two steps of one multi-point child: the nested parser pushes a PointParser, which
      reads a point, pops itself and hands the point to its parent; the parent either
      completes (delivering to the caller) or keeps waiting. */
  lemma {:induction false} PushThenReadPoint(m: Machine, ids: seq<int>) returns (m1: Machine, next: Machine)
    requires m.stack != [] && Top(m.stack).NestedParser? && Top(m.stack).child == PointChild
    requires Top(m.stack).sink == ToCaller(Some(ids))
    requires Top(m.stack).count > |Top(m.stack).parts| && ReadPoint(m.stream).Success?
    ensures Step(m) == Success(m1) && Step(m1) == Success(next)
    ensures var top := Top(m.stack);
      var p := ReadPoint(m.stream).value;
      var parts := top.parts + [Point(p.0)];
      && (top.count == |parts| ==> next == Machine(p.1, m.stack[..|m.stack| - 1], m.nextId + 1,
            m.delivered + [Delivery(top.id, Composite(top.wrap, parts), Some(ids))]))
      && (top.count != |parts| ==>
            next == Machine(p.1, ReplaceTop(m.stack, top.(parts := parts)), m.nextId + 1, m.delivered))
  {
    var top := Top(m.stack);
    var p := ReadPoint(m.stream).value;
    var child := PointParser(m.nextId, ToParent(top.id));
    m1 := Machine(m.stream, m.stack + [child], m.nextId + 1, m.delivered);
    assert Step(m) == Success(m1);
    var m2 := m1.(stream := p.1, stack := m.stack);
    assert m1.stack[..|m1.stack| - 1] == m.stack;
    assert Pop(m1.(stream := p.1)) == m2;
    var parts := top.parts + [Point(p.0)];
    if top.count == |parts| {
      next := Machine(p.1, m.stack[..|m.stack| - 1], m.nextId + 1,
        m.delivered + [Delivery(top.id, Composite(top.wrap, parts), Some(ids))]);
      assert Deliver(m2, child.id, Point(p.0), ToParent(top.id)) == Success(next);
    } else {
      next := m2.(stack := ReplaceTop(m.stack, top.(parts := parts)));
      assert Deliver(m2, child.id, Point(p.0), ToParent(top.id)) == Success(next);
    }
  }

  // ---------------------------------------------------------------------------------------
  // Nested geometries: the stream layout they read and their completion

  /** What a run of child parsers reads: their results, the stream after them, the number of
      parsePoint() steps they take and the number of parser identities they use. */
  datatype Read<T> = Read(value: T, rest: Stream, steps: nat, ids: nat)

  /** One list of points as a child PointsParser reads it: a count c of at least 1, then c
      points.  None when the input ends first or the count is not positive (with a count of 0
      or less the parser never completes, see PointsParserProgress). */
  function ReadList(s: Stream): Option<(seq<Vec>, Stream)>
  {
    match ReadCount(s)
    case Failure(_) => None
    case Success((c, s1)) =>
      if c < 1 then None
      else
        match ReadPoints(s1, c)
        case Failure(_) => None
        case Success(r) => Some(r)
  }

  /** j lists in a row: one step to push each list's parser, then one per point, and one
      identity per list. */
  function ReadLists(s: Stream, j: nat): (r: Option<Read<seq<seq<Vec>>>>)
    decreases j
    ensures r.Some? ==> |r.value.value| == j && r.value.ids == j
  {
    if j == 0 then Some(Read([], s, 0, 0))
    else
      match ReadList(s)
      case None => None
      case Some((l, s1)) =>
        match ReadLists(s1, j - 1)
        case None => None
        case Some(r) => Some(Read([l] + r.value, r.rest, 1 + |l| + r.steps, 1 + r.ids))
  }

  /** The first of j lists, and the j - 1 after it. */
  lemma {:induction false} ReadListsCons(s: Stream, j: nat, r: Read<seq<seq<Vec>>>)
    returns (l: seq<Vec>, s1: Stream, r': Read<seq<seq<Vec>>>)
    requires j >= 1 && ReadLists(s, j) == Some(r)
    ensures ReadList(s) == Some((l, s1)) && ReadLists(s1, j - 1) == Some(r')
    ensures r == Read([l] + r'.value, r'.rest, 1 + |l| + r'.steps, 1 + r'.ids)
  {
    l, s1 := ReadList(s).value.0, ReadList(s).value.1;
    r' := ReadLists(s1, j - 1).value;
  }

  /** Each list wrapped as a `wrap` geometry (a Ring or a LineString). */
  function Wrapped(wrap: Kind, ls: seq<seq<Vec>>): (gs: seq<Geometry>)
    ensures |gs| == |ls| && forall i | 0 <= i < |ls| :: gs[i] == Composite(wrap, AsPoints(ls[i]))
  {
    seq(|ls|, i requires 0 <= i < |ls| => Composite(wrap, AsPoints(ls[i])))
  }

  /** Steps compose: running a + b steps is running a steps, then b more. */
  lemma {:induction false} RunAdd(m: Machine, a: nat, b: nat)
    decreases a
    requires Run(m, a).Success?
    ensures Run(m, a + b) == Run(Run(m, a).value, b)
  {
    if a == 0 {
      assert Run(m, a) == Success(m) && a + b == b;
    } else {
      var m1 := Step(m).value;
      assert Run(m, a) == Run(m1, a - 1);
      RunAdd(m1, a - 1, b);
      assert Run(m, a + b) == Run(m1, a - 1 + b);
    }
  }

  /** Running a + b steps when the first a end in m2. */
  lemma {:induction false} RunThen(m: Machine, a: nat, m2: Machine, b: nat, total: nat)
    requires Run(m, a) == Success(m2) && total == a + b
    ensures Run(m, total) == Run(m2, b)
  {
    RunAdd(m, a, b);
  }

  /** n successful readPoint() calls give n points. */
  lemma {:induction false} ReadPointsLength(s: Stream, n: nat)
    decreases n
    requires ReadPoints(s, n).Success?
    ensures |ReadPoints(s, n).value.0| == n
  {
    if n > 0 {
      ReadPointsLength(ReadPoint(s).value.1, n - 1);
    }
  }

  /** A nested parser on top pushes the child NewChild makes, and that is all the step does. */
  lemma {:induction false} StepNested(m: Machine, m1: Machine, k: nat)
    requires m.stack != [] && Top(m.stack).NestedParser?
    requires NewChild(m, Top(m.stack).id, Top(m.stack).child).Success?
    requires var c := NewChild(m, Top(m.stack).id, Top(m.stack).child).value;
      m1 == Machine(c.1, m.stack + [c.0], m.nextId + 1, m.delivered)
    ensures Run(m, 1 + k) == Run(m1, k)
  {
    var top := Top(m.stack);
    assert Step(m) == Success(m1);
  }

  /** A child's result arriving at the nested parser on top: appended, and once the parser
      holds `count` results it pops itself and hands them on to its own sink. */
  lemma {:induction false} DeliverToParent(m: Machine, from: nat, g: Geometry)
    requires m.stack != [] && Top(m.stack).NestedParser?
    ensures var top := Top(m.stack);
      var parts := top.parts + [g];
      Deliver(m, from, g, ToParent(top.id)) ==
        if |parts| == top.count then Deliver(Pop(m), top.id, Composite(top.wrap, parts), top.sink)
        else Success(m.(stack := ReplaceTop(m.stack, top.(parts := parts))))
  {
  }

  /** The next child of a nested parser whose children are PointsParsers: one step reads the
      child's count and pushes it, its points follow, and the list arrives at the parent. */
  lemma {:induction false} ListChildDelivers(m: Machine, l: seq<Vec>, s1: Stream)
    requires m.stack != [] && Top(m.stack).NestedParser? && Top(m.stack).child.PointsChild?
    requires ReadList(m.stream) == Some((l, s1))
    ensures Run(m, 1 + |l|) == Deliver(Machine(s1, m.stack, m.nextId + 1, m.delivered), m.nextId,
      Composite(Top(m.stack).child.wrap, AsPoints(l)), ToParent(Top(m.stack).id))
  {
    var top := Top(m.stack);
    var (c, s0) := ReadCount(m.stream).value;
    assert ReadPoints(s0, c) == Success((l, s1));
    ReadPointsLength(s0, c);
    var child := PointsParser(m.nextId, ToParent(top.id), top.child.wrap, c, []);
    assert NewChild(m, top.id, top.child) == Success((child, s0));
    var m1 := Machine(s0, m.stack + [child], m.nextId + 1, m.delivered);
    StepNested(m, m1, c);
    PointsParserDelivers(m1, c);
    assert [] + l == l;
    assert m1.stack[..|m1.stack| - 1] == m.stack;
  }

  /** A list child that is not the parent's last: appended, and the parent stays on top. */
  lemma {:induction false} ListChildAppends(m: Machine, l: seq<Vec>, s1: Stream)
    requires m.stack != [] && Top(m.stack).NestedParser? && Top(m.stack).child.PointsChild?
    requires Top(m.stack).count != |Top(m.stack).parts| + 1
    requires ReadList(m.stream) == Some((l, s1))
    ensures var top := Top(m.stack);
      Run(m, 1 + |l|) == Success(Machine(s1,
        ReplaceTop(m.stack, top.(parts := top.parts + [Composite(top.child.wrap, AsPoints(l))])),
        m.nextId + 1, m.delivered))
  {
    var top := Top(m.stack);
    ListChildDelivers(m, l, s1);
    DeliverToParent(Machine(s1, m.stack, m.nextId + 1, m.delivered), m.nextId,
      Composite(top.child.wrap, AsPoints(l)));
  }

  /** A list child that is the parent's last: the parent pops itself and hands its result on. */
  lemma {:induction false} ListChildCompletes(m: Machine, l: seq<Vec>, s1: Stream)
    requires m.stack != [] && Top(m.stack).NestedParser? && Top(m.stack).child.PointsChild?
    requires Top(m.stack).count == |Top(m.stack).parts| + 1
    requires ReadList(m.stream) == Some((l, s1))
    ensures var top := Top(m.stack);
      Run(m, 1 + |l|) == Deliver(Machine(s1, m.stack[..|m.stack| - 1], m.nextId + 1, m.delivered),
        top.id, Composite(top.wrap, top.parts + [Composite(top.child.wrap, AsPoints(l))]), top.sink)
  {
    var top := Top(m.stack);
    var m0 := Machine(s1, m.stack, m.nextId + 1, m.delivered);
    ListChildDelivers(m, l, s1);
    DeliverToParent(m0, m.nextId, Composite(top.child.wrap, AsPoints(l)));
    assert Pop(m0) == Machine(s1, m.stack[..|m.stack| - 1], m.nextId + 1, m.delivered);
  }

  /** Replacing the top keeps the frames below it. */
  lemma {:induction false} ReplaceTopFrames(stack: seq<Frame>, f: Frame)
    requires stack != []
    ensures ReplaceTop(stack, f) != [] && Top(ReplaceTop(stack, f)) == f
    ensures ReplaceTop(stack, f)[..|stack| - 1] == stack[..|stack| - 1]
  {
  }

  /** One more child result, then the remaining ones. */
  lemma {:induction false} PartsThenRest(parts: seq<Geometry>, g: Geometry, rest: seq<Geometry>, all: seq<Geometry>)
    requires all == [g] + rest
    ensures (parts + [g]) + rest == parts + all
  {
  }

  lemma {:induction false} WrappedCons(w: Kind, l: seq<Vec>, ls: seq<seq<Vec>>)
    ensures Wrapped(w, [l] + ls) == [Composite(w, AsPoints(l))] + Wrapped(w, ls)
  {
    var a, b := Wrapped(w, [l] + ls), [Composite(w, AsPoints(l))] + Wrapped(w, ls);
    forall i | 0 <= i < |a| ensures a[i] == b[i] {
      if i > 0 {
        assert ([l] + ls)[i] == ls[i - 1];
      }
    }
    assert a == b;
  }

  lemma {:induction false} PolygonsCons(p: seq<seq<Vec>>, ps: seq<seq<seq<Vec>>>)
    ensures Polygons([p] + ps) == [Composite(Polygon, Wrapped(Ring, p))] + Polygons(ps)
  {
    var a, b := Polygons([p] + ps), [Composite(Polygon, Wrapped(Ring, p))] + Polygons(ps);
    forall i | 0 <= i < |a| ensures a[i] == b[i] {
      if i > 0 {
        assert ([p] + ps)[i] == ps[i - 1];
      }
    }
    assert a == b;
  }

  /** A nested parser `top` whose children are lists of points (a PolygonParser and its rings,
      a MultiLineStringParser and its lines) that needs j more children, laid out in the stream
      as `r` says, completes after r.steps steps: it pops itself and hands all its children, in
      read order, to its sink, whether that is a caller's consumer or the MultiPolygonParser
      below it.  Each child parser uses one identity. */
  lemma {:induction false} NestedListsComplete(m: Machine, j: nat, top: Frame, r: Read<seq<seq<Vec>>>)
    decreases j, 1
    requires m.stack != [] && Top(m.stack) == top && top.NestedParser? && top.child.PointsChild?
    requires j >= 1 && top.count == |top.parts| + j
    requires ReadLists(m.stream, j) == Some(r)
    ensures Run(m, r.steps) == Deliver(Machine(r.rest, m.stack[..|m.stack| - 1], m.nextId + j, m.delivered),
      top.id, Composite(top.wrap, top.parts + Wrapped(top.child.wrap, r.value)), top.sink)
  {
    var l, s1, r' := ReadListsCons(m.stream, j, r);
    if j == 1 {
      ListChildCompletes(m, l, s1);
      assert r'.value == [];
      assert Wrapped(top.child.wrap, r.value) == [Composite(top.child.wrap, AsPoints(l))];
    } else {
      NestedListsMore(m, j, top, r, l, s1, r');
    }
  }

  /** A list child that is not the last: it is appended and the remaining children follow. */
  lemma {:induction false} NestedListsMore(m: Machine, j: nat, top: Frame, r: Read<seq<seq<Vec>>>,
                                           l: seq<Vec>, s1: Stream, r': Read<seq<seq<Vec>>>)
    decreases j, 0
    requires m.stack != [] && Top(m.stack) == top && top.NestedParser? && top.child.PointsChild?
    requires j >= 2 && top.count == |top.parts| + j
    requires ReadList(m.stream) == Some((l, s1)) && ReadLists(s1, j - 1) == Some(r')
    requires r == Read([l] + r'.value, r'.rest, 1 + |l| + r'.steps, 1 + r'.ids)
    ensures Run(m, r.steps) == Deliver(Machine(r.rest, m.stack[..|m.stack| - 1], m.nextId + j, m.delivered),
      top.id, Composite(top.wrap, top.parts + Wrapped(top.child.wrap, r.value)), top.sink)
  {
    var w := top.child.wrap;
    var n := |m.stack|;
    var parts := top.parts + [Composite(w, AsPoints(l))];
    var top' := top.(parts := parts);
    var m2 := Machine(s1, ReplaceTop(m.stack, top'), m.nextId + 1, m.delivered);
    var a := Machine(r'.rest, m2.stack[..n - 1], m2.nextId + (j - 1), m.delivered);
    var g := Composite(top'.wrap, top'.parts + Wrapped(top'.child.wrap, r'.value));
    assert Run(m, r.steps) == Run(m2, r'.steps) by {
      ListChildAppends(m, l, s1);
      RunThen(m, 1 + |l|, m2, r'.steps, r.steps);
    }
    assert Run(m2, r'.steps) == Deliver(a, top'.id, g, top'.sink) by {
      ReplaceTopFrames(m.stack, top');
      NestedListsComplete(m2, j - 1, top', r');
    }
    assert a == Machine(r.rest, m.stack[..n - 1], m.nextId + j, m.delivered) by {
      ReplaceTopFrames(m.stack, top');
    }
    assert g == Composite(top.wrap, top.parts + Wrapped(w, r.value)) by {
      WrappedCons(w, l, r'.value);
      PartsThenRest(top.parts, Composite(w, AsPoints(l)), Wrapped(w, r'.value), Wrapped(w, r.value));
    }
  }

  /** A caller's PolygonParser that needs j more rings completes after the steps its rings take:
      its consumer receives one Polygon holding the earlier rings and the j rings read, in
      order. */
  lemma {:induction false} PolygonCompletes(m: Machine, j: nat, r: Read<seq<seq<Vec>>>)
    requires m.stack != [] && Top(m.stack).NestedParser? && Top(m.stack).sink == ToCaller(None)
    requires Top(m.stack).wrap == Polygon && Top(m.stack).child == PointsChild(Ring)
    requires j >= 1 && Top(m.stack).count == |Top(m.stack).parts| + j
    requires ReadLists(m.stream, j) == Some(r)
    ensures Run(m, r.steps) == Success(Machine(r.rest, m.stack[..|m.stack| - 1], m.nextId + j, m.delivered +
      [Delivery(Top(m.stack).id, Composite(Polygon, Top(m.stack).parts + Wrapped(Ring, r.value)), None)]))
  {
    NestedListsComplete(m, j, Top(m.stack), r);
  }

  /** One polygon as a MultiPolygonParser's child reads it: a ring count c of at least 1, then c
      rings; one step and one identity for the PolygonParser, then its rings'. */
  function ReadPolygon(s: Stream): Option<Read<seq<seq<Vec>>>>
  {
    match ReadCount(s)
    case Failure(_) => None
    case Success((c, s1)) =>
      if c < 1 then None
      else
        match ReadLists(s1, c)
        case None => None
        case Some(r) => Some(Read(r.value, r.rest, 1 + r.steps, 1 + r.ids))
  }

  /** j polygons in a row, with their steps and identities added up. */
  function ReadPolygons(s: Stream, j: nat): (r: Option<Read<seq<seq<seq<Vec>>>>>)
    decreases j
    ensures r.Some? ==> |r.value.value| == j
  {
    if j == 0 then Some(Read([], s, 0, 0))
    else
      match ReadPolygon(s)
      case None => None
      case Some(p) =>
        match ReadPolygons(p.rest, j - 1)
        case None => None
        case Some(r) => Some(Read([p.value] + r.value, r.rest, p.steps + r.steps, p.ids + r.ids))
  }

  /** A polygon's ring count and rings. */
  lemma {:induction false} ReadPolygonUnfold(s: Stream, p: Read<seq<seq<Vec>>>) returns (c: int, s0: Stream, r: Read<seq<seq<Vec>>>)
    requires ReadPolygon(s) == Some(p)
    ensures ReadCount(s) == Success((c, s0)) && c >= 1 && ReadLists(s0, c) == Some(r)
    ensures p == Read(r.value, r.rest, 1 + r.steps, 1 + c)
  {
    c, s0 := ReadCount(s).value.0, ReadCount(s).value.1;
    r := ReadLists(s0, c).value;
  }

  /** The first of j polygons, and the j - 1 after it. */
  lemma {:induction false} ReadPolygonsCons(s: Stream, j: nat, r: Read<seq<seq<seq<Vec>>>>)
    returns (p: Read<seq<seq<Vec>>>, r': Read<seq<seq<seq<Vec>>>>)
    requires j >= 1 && ReadPolygons(s, j) == Some(r)
    ensures ReadPolygon(s) == Some(p) && ReadPolygons(p.rest, j - 1) == Some(r')
    ensures r == Read([p.value] + r'.value, r'.rest, p.steps + r'.steps, p.ids + r'.ids)
  {
    p := ReadPolygon(s).value;
    r' := ReadPolygons(p.rest, j - 1).value;
  }

  /** Each polygon's rings wrapped as one Polygon. */
  function Polygons(ps: seq<seq<seq<Vec>>>): (gs: seq<Geometry>)
    ensures |gs| == |ps| && forall i | 0 <= i < |ps| :: gs[i] == Composite(Polygon, Wrapped(Ring, ps[i]))
  {
    seq(|ps|, i requires 0 <= i < |ps| => Composite(Polygon, Wrapped(Ring, ps[i])))
  }

  /** The step that pushes a MultiPolygonParser's next PolygonParser. */
  lemma {:induction false} PushPolygonChild(m: Machine, c: int, s0: Stream, k: nat)
    requires m.stack != [] && Top(m.stack).NestedParser? && Top(m.stack).child == PolygonChild
    requires ReadCount(m.stream) == Success((c, s0))
    ensures Run(m, 1 + k) == Run(Machine(s0, m.stack + [NestedParser(m.nextId, ToParent(Top(m.stack).id),
      Polygon, PointsChild(Ring), c, [])], m.nextId + 1, m.delivered), k)
  {
    var top := Top(m.stack);
    var child := NestedParser(m.nextId, ToParent(top.id), Polygon, PointsChild(Ring), c, []);
    assert NewChild(m, top.id, top.child) == Success((child, s0));
    StepNested(m, Machine(s0, m.stack + [child], m.nextId + 1, m.delivered), k);
  }

  /** The next child of a MultiPolygonParser: one step reads its ring count and pushes a
      PolygonParser, its rings follow, and the polygon arrives at the parent. */
  lemma {:induction false} PolygonChildDelivers(m: Machine, p: Read<seq<seq<Vec>>>)
    requires m.stack != [] && Top(m.stack).NestedParser? && Top(m.stack).child == PolygonChild
    requires ReadPolygon(m.stream) == Some(p)
    ensures Run(m, p.steps) == Deliver(Machine(p.rest, m.stack, m.nextId + p.ids, m.delivered), m.nextId,
      Composite(Polygon, Wrapped(Ring, p.value)), ToParent(Top(m.stack).id))
  {
    var top := Top(m.stack);
    var c, s0, r := ReadPolygonUnfold(m.stream, p);
    var child := NestedParser(m.nextId, ToParent(top.id), Polygon, PointsChild(Ring), c, []);
    var m1 := Machine(s0, m.stack + [child], m.nextId + 1, m.delivered);
    PushPolygonChild(m, c, s0, r.steps);
    assert m1.stack[..|m1.stack| - 1] == m.stack;
    NestedListsComplete(m1, c, child, r);
    var a := Machine(r.rest, m1.stack[..|m1.stack| - 1], m1.nextId + c, m.delivered);
    assert a == Machine(p.rest, m.stack, m.nextId + p.ids, m.delivered);
    var g := Composite(child.wrap, child.parts + Wrapped(child.child.wrap, r.value));
    assert g == Composite(Polygon, Wrapped(Ring, p.value)) by {
      assert [] + Wrapped(Ring, r.value) == Wrapped(Ring, r.value);
    }
    assert Run(m1, r.steps) == Deliver(a, child.id, g, child.sink);
  }

  /** A polygon child that is not the parent's last: appended, and the parent stays on top. */
  lemma {:induction false} PolygonChildAppends(m: Machine, p: Read<seq<seq<Vec>>>)
    requires m.stack != [] && Top(m.stack).NestedParser? && Top(m.stack).child == PolygonChild
    requires Top(m.stack).count != |Top(m.stack).parts| + 1
    requires ReadPolygon(m.stream) == Some(p)
    ensures var top := Top(m.stack);
      Run(m, p.steps) == Success(Machine(p.rest,
        ReplaceTop(m.stack, top.(parts := top.parts + [Composite(Polygon, Wrapped(Ring, p.value))])),
        m.nextId + p.ids, m.delivered))
  {
    PolygonChildDelivers(m, p);
    DeliverToParent(Machine(p.rest, m.stack, m.nextId + p.ids, m.delivered), m.nextId,
      Composite(Polygon, Wrapped(Ring, p.value)));
  }

  /** A polygon child that is the parent's last: the parent pops itself and hands its result on. */
  lemma {:induction false} PolygonChildCompletes(m: Machine, p: Read<seq<seq<Vec>>>)
    requires m.stack != [] && Top(m.stack).NestedParser? && Top(m.stack).child == PolygonChild
    requires Top(m.stack).count == |Top(m.stack).parts| + 1
    requires ReadPolygon(m.stream) == Some(p)
    ensures var top := Top(m.stack);
      Run(m, p.steps) == Deliver(Machine(p.rest, m.stack[..|m.stack| - 1], m.nextId + p.ids, m.delivered),
        top.id, Composite(top.wrap, top.parts + [Composite(Polygon, Wrapped(Ring, p.value))]), top.sink)
  {
    var m0 := Machine(p.rest, m.stack, m.nextId + p.ids, m.delivered);
    PolygonChildDelivers(m, p);
    DeliverToParent(m0, m.nextId, Composite(Polygon, Wrapped(Ring, p.value)));
    assert Pop(m0) == Machine(p.rest, m.stack[..|m.stack| - 1], m.nextId + p.ids, m.delivered);
  }

  /** A MultiPolygonParser `top` that needs j more polygons, laid out in the stream as `r` says,
      completes after r.steps steps: it pops itself and hands all its polygons, in read order,
      to its sink; with a caller's sink the consumer receives them together with the caller's
      ids. */
  lemma {:induction false} MultiPolygonCompletes(m: Machine, j: nat, top: Frame, r: Read<seq<seq<seq<Vec>>>>)
    decreases j, 1
    requires m.stack != [] && Top(m.stack) == top && top.NestedParser? && top.child == PolygonChild
    requires j >= 1 && top.count == |top.parts| + j
    requires ReadPolygons(m.stream, j) == Some(r)
    ensures Run(m, r.steps) == Deliver(Machine(r.rest, m.stack[..|m.stack| - 1], m.nextId + r.ids, m.delivered),
      top.id, Composite(top.wrap, top.parts + Polygons(r.value)), top.sink)
  {
    var p, r' := ReadPolygonsCons(m.stream, j, r);
    if j == 1 {
      PolygonChildCompletes(m, p);
      assert r' == Read([], p.rest, 0, 0);
      assert Polygons(r.value) == [Composite(Polygon, Wrapped(Ring, p.value))];
    } else {
      MultiPolygonMore(m, j, top, r, p, r');
    }
  }

  /** A polygon child that is not the last: it is appended and the remaining polygons follow. */
  lemma {:induction false} MultiPolygonMore(m: Machine, j: nat, top: Frame, r: Read<seq<seq<seq<Vec>>>>,
                                            p: Read<seq<seq<Vec>>>, r': Read<seq<seq<seq<Vec>>>>)
    decreases j, 0
    requires m.stack != [] && Top(m.stack) == top && top.NestedParser? && top.child == PolygonChild
    requires j >= 2 && top.count == |top.parts| + j
    requires ReadPolygon(m.stream) == Some(p) && ReadPolygons(p.rest, j - 1) == Some(r')
    requires r == Read([p.value] + r'.value, r'.rest, p.steps + r'.steps, p.ids + r'.ids)
    ensures Run(m, r.steps) == Deliver(Machine(r.rest, m.stack[..|m.stack| - 1], m.nextId + r.ids, m.delivered),
      top.id, Composite(top.wrap, top.parts + Polygons(r.value)), top.sink)
  {
    var n := |m.stack|;
    var parts := top.parts + [Composite(Polygon, Wrapped(Ring, p.value))];
    var top' := top.(parts := parts);
    var m2 := Machine(p.rest, ReplaceTop(m.stack, top'), m.nextId + p.ids, m.delivered);
    PolygonChildAppends(m, p);
    RunThen(m, p.steps, m2, r'.steps, r.steps);
    ReplaceTopFrames(m.stack, top');
    MultiPolygonCompletes(m2, j - 1, top', r');
    var a := Machine(r'.rest, m2.stack[..n - 1], m2.nextId + r'.ids, m.delivered);
    assert a == Machine(r.rest, m.stack[..n - 1], m.nextId + r.ids, m.delivered);
    var g := Composite(top'.wrap, top'.parts + Polygons(r'.value));
    assert g == Composite(top.wrap, top.parts + Polygons(r.value)) by {
      PolygonsCons(p.value, r'.value);
      PartsThenRest(top.parts, Composite(Polygon, Wrapped(Ring, p.value)), Polygons(r'.value), Polygons(r.value));
    }
    assert Run(m2, r'.steps) == Deliver(a, top'.id, g, top'.sink);
  }
}
