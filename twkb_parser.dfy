/** The imperative TWKB geometry parser: GeometryStream and GeometryObjectParser with its
    stack of parsers, each method proved to follow the functions of TwkbSpec. */
module TwkbParser {
  import opened Wrappers
  import opened TwkbSpec

  /** GeometryStream: reads decoded varints and keeps the running coordinate sums. */
  class GeometryStream {
    const input: seq<int>
    var pos: nat
    var x: int
    var y: int

    ghost function Value(): Stream
      reads this
    {
      Stream(input, pos, x, y)
    }

    constructor (input: seq<int>)
      ensures Value() == Stream(input, 0, 0, 0)
    {
      this.input := input;
      pos, x, y := 0, 0, 0;
    }

    /** readPoint(): x is advanced before y is read, so running out of input after the
        x-delta leaves x advanced. */
    method ReadPoint() returns (r: Result<Vec, Error>)
      requires pos <= |input|
      modifies this
      ensures pos <= |input|
      ensures TwkbSpec.ReadPoint(old(Value())).Success? ==>
        r == Success(TwkbSpec.ReadPoint(old(Value())).value.0) && Value() == TwkbSpec.ReadPoint(old(Value())).value.1
      ensures TwkbSpec.ReadPoint(old(Value())).Failure? ==> r == Failure(EndOfInput) && y == old(y)
      ensures TwkbSpec.ReadPoint(old(Value())).Failure? && old(pos) < |input| ==>
        x == old(x) + input[old(pos)] && pos == old(pos) + 1
      ensures TwkbSpec.ReadPoint(old(Value())).Failure? && old(pos) == |input| ==> Value() == old(Value())
    {
      if pos == |input| {
        return Failure(EndOfInput);
      }
      x := x + input[pos];
      pos := pos + 1;
      if pos == |input| {
        return Failure(EndOfInput);
      }
      y := y + input[pos];
      pos := pos + 1;
      r := Success(Vec(x, y));
    }

    /** readCount(). */
    method ReadCount() returns (r: Result<int, Error>)
      requires pos <= |input|
      modifies this
      ensures pos <= |input|
      ensures TwkbSpec.ReadCount(old(Value())).Success? ==>
        r == Success(TwkbSpec.ReadCount(old(Value())).value.0) && Value() == TwkbSpec.ReadCount(old(Value())).value.1
      ensures TwkbSpec.ReadCount(old(Value())).Failure? ==> r == Failure(EndOfInput) && Value() == old(Value())
    {
      if pos == |input| {
        return Failure(EndOfInput);
      }
      r := Success(input[pos]);
      pos := pos + 1;
    }
  }

  /** GeometryObjectParser: a stack of geometry parsers fed one point at a time.  Results a
      parser hands to the caller's consumer are appended to `delivered`. */
  class GeometryObjectParser {
    const stream: GeometryStream
    var parsers: seq<Frame>
    var nextId: nat
    var delivered: seq<Delivery>

    ghost function State(): Machine
      reads this, stream
    {
      Machine(stream.Value(), parsers, nextId, delivered)
    }

    ghost predicate Valid()
      reads this, stream
    {
      WellFormed(State()) && stream.pos <= |stream.input|
    }

    constructor (input: seq<int>)
      ensures Valid() && fresh(stream)
      ensures State() == Machine(Stream(input, 0, 0, 0), [], 0, [])
    {
      stream := new GeometryStream(input);
      parsers, nextId, delivered := [], 0, [];
    }

    /** parsingObject(): some parser is still waiting for points. */
    method ParsingObject() returns (b: bool)
      ensures b <==> parsers != []
    {
      b := parsers != [];
    }

    /** parsePoint(): the parser on top of the stack takes one step. */
    method ParsePoint() returns (r: Outcome<Error>)
      requires Valid()
      modifies this, stream
      ensures Valid()
      ensures Step(old(State())).Success? ==> r == Pass && State() == Step(old(State())).value
      ensures Step(old(State())).Failure? ==>
        r == Fail(EndOfInput) && parsers == old(parsers) && nextId == old(nextId) && delivered == old(delivered)
    {
      if parsers == [] {
        return Pass;
      }
      StepWellFormed(State());
      match parsers[|parsers| - 1]
      case PointParser(_, _) =>
        r := StepPointParser();
      case PointsParser(_, _, _, _, _) =>
        r := StepPointsParser();
      case NestedParser(_, _, _, _, _, _) =>
        r := StepNestedParser();
    }

    /** The outcome of one parsePoint() from machine state m0, as Step describes it. */
    ghost predicate Stepped(m0: Machine, r: Outcome<Error>)
      reads this, stream
    {
      && (Step(m0).Success? ==> r == Pass && State() == Step(m0).value)
      && (Step(m0).Failure? ==>
            r == Fail(EndOfInput) && parsers == m0.stack && nextId == m0.nextId && delivered == m0.delivered)
    }

    /** A PointParser reads one point, pops itself and delivers the point. */
    method StepPointParser() returns (r: Outcome<Error>)
      requires Valid() && parsers != [] && Top(parsers).PointParser?
      modifies this, stream
      ensures stream.pos <= |stream.input|
      ensures Stepped(old(State()), r)
    {
      var top := parsers[|parsers| - 1];
      var p := stream.ReadPoint();
      if p.Failure? {
        return Fail(p.error);
      }
      PopWellFormed(State());
      var popped := PopThisParser(top.id);
      assert popped == Pass;
      Deliver(top.id, Point(p.value), top.sink);
      r := Pass;
    }

    /** A PointsParser reads one point; once it has `count` of them it pops itself and
        delivers them. */
    method StepPointsParser() returns (r: Outcome<Error>)
      requires Valid() && parsers != [] && Top(parsers).PointsParser?
      modifies this, stream
      ensures stream.pos <= |stream.input|
      ensures Stepped(old(State()), r)
    {
      var top := parsers[|parsers| - 1];
      var p := stream.ReadPoint();
      if p.Failure? {
        return Fail(p.error);
      }
      var points' := top.points + [p.value];
      if |points'| == top.count {
        PopWellFormed(State());
        var popped := PopThisParser(top.id);
        assert popped == Pass;
        Deliver(top.id, Composite(top.wrap, AsPoints(points')), top.sink);
      } else {
        parsers := ReplaceTop(parsers, top.(points := points'));
      }
      r := Pass;
    }

    /** A nested parser pushes the parser of its next child. */
    method StepNestedParser() returns (r: Outcome<Error>)
      requires Valid() && parsers != [] && Top(parsers).NestedParser?
      modifies this, stream
      ensures stream.pos <= |stream.input|
      ensures Stepped(old(State()), r)
    {
      var top := parsers[|parsers| - 1];
      var frame: Frame;
      match top.child {
      case PointChild =>
        frame := PointParser(nextId, ToParent(top.id));
      case PointsChild(wrap) =>
        var c := stream.ReadCount();
        if c.Failure? {
          return Fail(c.error);
        }
        frame := PointsParser(nextId, ToParent(top.id), wrap, c.value, []);
      case PolygonChild =>
        var c := stream.ReadCount();
        if c.Failure? {
          return Fail(c.error);
        }
        frame := NestedParser(nextId, ToParent(top.id), Polygon, PointsChild(Ring), c.value, []);
      }
      PushParser(frame);
      r := Pass;
    }

    /** parsePoint(onParse): a PointParser for the caller; `id` names its deliveries. */
    method PushPoint() returns (id: nat)
      requires Valid()
      modifies this
      ensures Valid() && id == old(nextId)
      ensures State() == StartPoint(old(State()))
    {
      id := nextId;
      PushWellFormed(State(), PointParser(id, ToCaller(None)));
      PushParser(PointParser(id, ToCaller(None)));
    }

    /** parseLineString(onParse): a PointsParser whose count is read first. */
    method PushLineString() returns (r: Result<nat, Error>)
      requires Valid()
      modifies this, stream
      ensures Valid()
      ensures StartLineString(old(State())).Success? ==>
        r == Success(old(nextId)) && State() == StartLineString(old(State())).value
      ensures StartLineString(old(State())).Failure? ==> r == Failure(EndOfInput) && State() == old(State())
    {
      var c := stream.ReadCount();
      if c.Failure? {
        return Failure(c.error);
      }
      var f := PointsParser(nextId, ToCaller(None), LineString, c.value, []);
      PushWellFormed(State(), f);
      r := Success(nextId);
      PushParser(f);
    }

    /** parsePolygon(onParse): a PolygonParser whose ring count is read first. */
    method PushPolygon() returns (r: Result<nat, Error>)
      requires Valid()
      modifies this, stream
      ensures Valid()
      ensures StartPolygon(old(State())).Success? ==>
        r == Success(old(nextId)) && State() == StartPolygon(old(State())).value
      ensures StartPolygon(old(State())).Failure? ==> r == Failure(EndOfInput) && State() == old(State())
    {
      var c := stream.ReadCount();
      if c.Failure? {
        return Failure(c.error);
      }
      var f := NestedParser(nextId, ToCaller(None), Polygon, PointsChild(Ring), c.value, []);
      PushWellFormed(State(), f);
      r := Success(nextId);
      PushParser(f);
    }

    /** parseMultiPoint(n, ids, onParse). */
    method PushMultiPoint(n: int, ids: seq<int>) returns (id: nat)
      requires Valid()
      modifies this
      ensures Valid() && id == old(nextId)
      ensures State() == StartMultiPoint(old(State()), n, ids)
    {
      id := nextId;
      var f := NestedParser(id, ToCaller(Some(ids)), MultiPoint, PointChild, n, []);
      PushWellFormed(State(), f);
      PushParser(f);
    }

    /** parseMultiLine(n, ids, onParse). */
    method PushMultiLine(n: int, ids: seq<int>) returns (id: nat)
      requires Valid()
      modifies this
      ensures Valid() && id == old(nextId)
      ensures State() == StartMultiLine(old(State()), n, ids)
    {
      id := nextId;
      var f := NestedParser(id, ToCaller(Some(ids)), MultiLineString, PointsChild(LineString), n, []);
      PushWellFormed(State(), f);
      PushParser(f);
    }

    /** pushMultiPolygon(n, ids, onParse). */
    method PushMultiPolygon(n: int, ids: seq<int>) returns (id: nat)
      requires Valid()
      modifies this
      ensures Valid() && id == old(nextId)
      ensures State() == StartMultiPolygon(old(State()), n, ids)
    {
      id := nextId;
      var f := NestedParser(id, ToCaller(Some(ids)), MultiPolygon, PolygonChild, n, []);
      PushWellFormed(State(), f);
      PushParser(f);
    }

    /** pushParser(): the new parser takes the next identity. */
    method PushParser(f: Frame)
      modifies this`parsers, this`nextId
      ensures parsers == old(parsers) + [f] && nextId == old(nextId) + 1
    {
      parsers := parsers + [f];
      nextId := nextId + 1;
    }

    /** popParser() followed by popThisParser()'s identity check: the top is removed even when
        it is not the caller, and the failure is reported afterwards. */
    method PopThisParser(id: nat) returns (r: Outcome<Error>)
      modifies this`parsers
      ensures old(parsers) == [] ==> parsers == [] && r == Fail(IllegalState)
      ensures old(parsers) != [] ==> parsers == old(parsers)[..|old(parsers)| - 1]
      ensures old(parsers) != [] ==> (r == Pass <==> Top(old(parsers)).id == id)
      ensures r.Fail? ==> r.error == IllegalState
    {
      if parsers == [] {
        return Fail(IllegalState);
      }
      var removed := parsers[|parsers| - 1];
      parsers := parsers[..|parsers| - 1];
      r := if removed.id == id then Pass else Fail(IllegalState);
    }

    /** A finished parser hands `g` to `sink`: each nested parent appends it in its
        onNestedParsed and, when complete, pops itself and passes its own result on, until a
        caller's consumer receives one. */
    method Deliver(from: nat, g: Geometry, sink: Sink)
      requires WellFormed(State()) && SinkReady(State(), sink)
      modifies this`parsers, this`delivered
      ensures TwkbSpec.Deliver(old(State()), from, g, sink) == Success(State())
    {
      var f, h, s := from, g, sink;
      while s.ToParent?
        invariant WellFormed(State()) && SinkReady(State(), s)
        invariant TwkbSpec.Deliver(old(State()), from, g, sink) == TwkbSpec.Deliver(State(), f, h, s)
        decreases |parsers|
      {
        var top := parsers[|parsers| - 1];
        var parts := top.parts + [h];
        if |parts| == top.count {
          PopWellFormed(State());
          var popped := PopThisParser(top.id);
          assert popped == Pass;
          f, h, s := top.id, Composite(top.wrap, parts), top.sink;
        } else {
          parsers := ReplaceTop(parsers, top.(parts := parts));
          return;
        }
      }
      delivered := delivered + [Delivery(f, h, s.ids)];
    }
  }
}
