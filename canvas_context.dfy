/** Context2DCanvasContext: draws SVG elements on a canvas.  The canvas (Context2d) is an
    append-only trace of the commands issued to it; colour parsing, transform parsing, style
    font extraction and path-data processing are functions handed in by the caller.  Angles are
    kept in degrees: the conversion to radians and the skew's tangent are not modelled. */
module CanvasContexts {
  import opened Wrappers

  datatype Color = Color(argb: int)

  /** Color.parseHex, Colors.isColorName / Colors.forName and Color.parseColor. */
  datatype ColorParsing = ColorParsing(parseHex: string -> Color, isColorName: string -> bool,
                                       forName: string -> Color, parseColor: string -> Color)

  datatype TextAlign = Start | Center | End

  datatype TextBaseline = Alphabetic | Top | Middle | Bottom

  datatype TransformName = Scale | SkewX | SkewY | Rotate | Translate | Matrix | OtherName(name: string)

  /** ParsingUtil.Result: a transform's name and its numeric parameters, by position. */
  datatype ParsedTransform = ParsedTransform(name: TransformName, params: seq<real>)

  /** The commands a Context2d receives. */
  datatype Command =
    | Save | Restore
    | SetFillColor(fill: Option<Color>) | SetStrokeColor(stroke: Option<Color>)
    | SetLineWidth(width: real) | SetLineDash(dash: seq<real>) | SetLineJoinBevel
    | ScaleBy(sx: real, sy: real) | SkewXBy(degreesX: real) | SkewYBy(degreesY: real)
    | TranslateBy(tx: real, ty: real) | RotateBy(degrees: real)
    | TransformBy(m11: real, m12: real, m21: real, m22: real, dx: real, dy: real)
    | BeginPath | Arc(cx: real, cy: real, r: real) | MoveTo(x1: real, y1: real) | LineTo(x2: real, y2: real)
    | PathData(d: Option<string>)
    | SetGlobalAlpha(alpha: real)
    | Fill | FillEvenOdd | StrokePath
    | FillRect(x: real, y: real, w: real, h: real) | StrokeRect(sx0: real, sy0: real, sw: real, sh: real)
    | SetTextBaseline(baseline: TextBaseline) | SetTextAlign(align: TextAlign) | SetFont(font: string)
    | StrokeText(st: string, stx: real, sty: real) | FillText(ft: string, ftx: real, fty: real)

  /** The IllegalArgumentExceptions of the text and transform conversions, and the
      NullPointerException of a missing transform parameter. */
  datatype CanvasError = UnsupportedTextAnchor(anchor: string) | UnsupportedDy(dy: string)
                       | UnknownTransform(name: string) | MissingParam(index: nat)

  const DefaultFont: string := "15px arial"

  /** parseColorString(s): no colour for null or "none"; otherwise hex, named or generic
      parsing, by the string's form. */
  function ParseColorString(p: ColorParsing, s: Option<string>): (r: Option<Color>)
    ensures r.None? <==> s == None || s == Some("none")
    ensures s.Some? && s.value != "none" && |s.value| > 0 && s.value[0] == '#' ==> r == Some(p.parseHex(s.value))
    ensures s.Some? && s.value != "none" && !(|s.value| > 0 && s.value[0] == '#') && p.isColorName(s.value) ==>
      r == Some(p.forName(s.value))
    ensures s.Some? && s.value != "none" && !(|s.value| > 0 && s.value[0] == '#') && !p.isColorName(s.value) ==>
      r == Some(p.parseColor(s.value))
  {
    if s == None || s == Some("none") then None
    else if |s.value| > 0 && s.value[0] == '#' then Some(p.parseHex(s.value))
    else if p.isColorName(s.value) then Some(p.forName(s.value))
    else Some(p.parseColor(s.value))
  }

  /** toTextAlign(textAnchor). */
  function ToTextAlign(textAnchor: Option<string>): (r: Result<TextAlign, CanvasError>)
    ensures r.Success? <==> textAnchor in {None, Some("middle"), Some("end")}
    ensures r == Success(Start) <==> textAnchor == None
    ensures r == Success(Center) <==> textAnchor == Some("middle")
    ensures r == Success(End) <==> textAnchor == Some("end")
  {
    match textAnchor
    case None => Success(Start)
    case Some(a) =>
      if a == "middle" then Success(Center)
      else if a == "end" then Success(End)
      else Failure(UnsupportedTextAnchor(a))
  }

  /** toTextBaseline(textDy). */
  function ToTextBaseline(textDy: Option<string>): (r: Result<TextBaseline, CanvasError>)
    ensures r.Success? <==> textDy in {None, Some("1.4em"), Some("0.7em"), Some("0.35em")}
    ensures r == Success(Top) <==> textDy in {Some("1.4em"), Some("0.7em")}
    ensures r == Success(Middle) <==> textDy == Some("0.35em")
    ensures r == Success(Bottom) <==> textDy == None
    ensures r != Success(Alphabetic)
  {
    match textDy
    case None => Success(Bottom)
    case Some(dy) =>
      if dy == "1.4em" || dy == "0.7em" then Success(Top)
      else if dy == "0.35em" then Success(Middle)
      else Failure(UnsupportedDy(dy))
  }

  /** `t.getParam(i)!!`. */
  function Param(t: ParsedTransform, i: nat): (r: Result<real, CanvasError>)
    ensures r.Success? <==> i < |t.params|
    ensures r.Success? ==> r.value == t.params[i]
    ensures r.Failure? ==> r.error == MissingParam(i)
  {
    if i < |t.params| then Success(t.params[i]) else Failure(MissingParam(i))
  }

  /** The commands of one transform of applyTransform. */
  function TransformStep(t: ParsedTransform): (r: Result<seq<Command>, CanvasError>)
    ensures t.name.OtherName? ==> r == Failure(UnknownTransform(t.name.name))
    ensures t.name == Scale && |t.params| == 1 ==> r == Success([ScaleBy(t.params[0], t.params[0])])
    ensures t.name == Scale && |t.params| >= 2 ==> r == Success([ScaleBy(t.params[0], t.params[1])])
    ensures t.name == Translate && |t.params| == 1 ==> r == Success([TranslateBy(t.params[0], 0.0)])
    ensures t.name == Translate && |t.params| >= 2 ==> r == Success([TranslateBy(t.params[0], t.params[1])])
    ensures t.name == Rotate && |t.params| == 3 ==> r == Success([TranslateBy(t.params[1], t.params[2]), RotateBy(t.params[0])])
    ensures t.name == Rotate && |t.params| != 3 && |t.params| >= 1 ==> r == Success([RotateBy(t.params[0])])
    ensures t.name != Matrix && !t.name.OtherName? && t.params == [] ==> r == Failure(MissingParam(0))
    ensures r.Success? ==> forall c | c in r.value :: IsTransformCommand(c)
  {
    match t.name
    case Scale =>
      var sx :- Param(t, 0);
      var sy := if 1 < |t.params| then t.params[1] else sx;
      Success([ScaleBy(sx, sy)])
    case SkewX =>
      var a :- Param(t, 0);
      Success([SkewXBy(a)])
    case SkewY =>
      var a :- Param(t, 0);
      Success([SkewYBy(a)])
    case Rotate =>
      var a :- Param(t, 0);
      if |t.params| == 3 then Success([TranslateBy(t.params[1], t.params[2]), RotateBy(a)]) else Success([RotateBy(a)])
    case Translate =>
      var tx :- Param(t, 0);
      var ty := if 1 < |t.params| then t.params[1] else 0.0;
      Success([TranslateBy(tx, ty)])
    case Matrix =>
      var m11 :- Param(t, 0);
      var m12 :- Param(t, 1);
      var m21 :- Param(t, 2);
      var m22 :- Param(t, 3);
      var dx :- Param(t, 4);
      var dy :- Param(t, 5);
      Success([TransformBy(m11, m12, m21, m22, dx, dy)])
    case OtherName(name) => Failure(UnknownTransform(name))
  }

  predicate IsTransformCommand(c: Command) {
    c.ScaleBy? || c.SkewXBy? || c.SkewYBy? || c.TranslateBy? || c.RotateBy? || c.TransformBy?
  }

  /** The commands applyTransform issues for `ts`, up to the first failing transform, and
      whether it got through. */
  function TransformCommands(ts: seq<ParsedTransform>): (r: (seq<Command>, Outcome<CanvasError>))
    ensures forall c | c in r.0 :: IsTransformCommand(c)
    ensures r.1.Pass? <==> forall i | 0 <= i < |ts| :: TransformStep(ts[i]).Success?
  {
    if ts == [] then ([], Pass)
    else
      var n := |ts| - 1;
      var front := TransformCommands(ts[..n]);
      assert forall i | 0 <= i < n :: ts[..n][i] == ts[i];
      if front.1.Fail? then front
      else
        var step := TransformStep(ts[n]);
        if step.Failure? then (front.0, Fail(step.error)) else (front.0 + step.value, Pass)
  }

  /** The commands of drawNextElement: save, then colours, width, dash and transform. */
  function NextElementCommands(lineDash: Option<seq<real>>, transform: Option<seq<ParsedTransform>>,
                               fill: Option<Color>, stroke: Option<Color>, width: real): (r: (seq<Command>, Outcome<CanvasError>))
    ensures |r.0| >= 4 && r.0[0] == Save
    ensures r.0[1..4] == [SetFillColor(fill), SetStrokeColor(stroke), SetLineWidth(width)]
  {
    var head := NextElementHead(lineDash, fill, stroke, width);
    var tail := if transform.Some? then TransformCommands(transform.value) else ([], Pass);
    (head + tail.0, tail.1)
  }

  /** After its opening save, drawNextElement neither saves, restores, strokes nor fills. */
  lemma {:induction false} NextElementOnlySetsState(lineDash: Option<seq<real>>, transform: Option<seq<ParsedTransform>>,
                                                    fill: Option<Color>, stroke: Option<Color>, width: real)
    ensures var r := NextElementCommands(lineDash, transform, fill, stroke, width);
      forall c | c in r.0[1..] :: c != Save && c != Restore && !c.StrokePath? && !c.Fill?
  {
    var head := NextElementHead(lineDash, fill, stroke, width);
    var tail := if transform.Some? then TransformCommands(transform.value) else ([], Pass);
    var r := NextElementCommands(lineDash, transform, fill, stroke, width);
    assert r.0[1..] == head[1..] + tail.0;
    forall c | c in r.0[1..] ensures c != Save && c != Restore && !c.StrokePath? && !c.Fill? {
      if c !in head[1..] {
        assert IsTransformCommand(c);
      }
    }
  }

  /** The state drawNextElement sets before any transform. */
  function NextElementHead(lineDash: Option<seq<real>>, fill: Option<Color>, stroke: Option<Color>, width: real): seq<Command> {
    [Save, SetFillColor(fill), SetStrokeColor(stroke), SetLineWidth(width)]
      + (if lineDash.Some? then [SetLineDash(lineDash.value)] else [])
  }

  /** stroke(isStrokeRequired, opacity). */
  function StrokeCommands(required: bool, opacity: real): seq<Command> {
    if required then [SetGlobalAlpha(opacity), StrokePath] else []
  }

  /** A draw's trace once it got through: one save first, one restore last, none between. */
  predicate Framed(s: seq<Command>) {
    && |s| >= 2 && s[0] == Save && s[|s| - 1] == Restore
    && forall i | 0 < i < |s| - 1 :: s[i] != Save && s[i] != Restore
  }

  /** A draw's trace when it stopped with an exception: saved, never restored. */
  predicate LeftSaved(s: seq<Command>) {
    |s| >= 1 && s[0] == Save && Restore !in s
  }

  /** The drawing part of a draw, between drawNextElement and the restore. */
  function Frame(next: (seq<Command>, Outcome<CanvasError>), body: Result<seq<Command>, CanvasError>): (seq<Command>, Outcome<CanvasError>) {
    if next.1.Fail? then next
    else if body.Failure? then (next.0, Fail(body.error))
    else (next.0 + body.value + [Restore], Pass)
  }

  function CircleBody(cx: real, cy: real, r: real, fillOpacity: real, stroke: Option<Color>, strokeOpacity: real): seq<Command> {
    [BeginPath, Arc(cx, cy, r), SetGlobalAlpha(fillOpacity), Fill] + StrokeCommands(stroke.Some?, strokeOpacity)
  }

  function LineBody(x1: real, y1: real, x2: real, y2: real, strokeOpacity: real): seq<Command> {
    [SetGlobalAlpha(strokeOpacity), BeginPath, MoveTo(x1, y1), LineTo(x2, y2), StrokePath]
  }

  function RectBody(x: real, y: real, w: real, h: real, fill: Option<Color>, fillOpacity: real,
                    stroke: Option<Color>, strokeOpacity: real): seq<Command> {
    (if fill.Some? then [SetGlobalAlpha(fillOpacity), FillRect(x, y, w, h)] else [])
    + (if stroke.Some? then [SetGlobalAlpha(strokeOpacity), StrokeRect(x, y, w, h)] else [])
  }

  function PathBody(d: Option<string>, fillOpacity: real, stroke: Option<Color>, strokeOpacity: real): seq<Command> {
    [SetLineJoinBevel, BeginPath, PathData(d), SetGlobalAlpha(fillOpacity), FillEvenOdd]
    + StrokeCommands(stroke.Some?, strokeOpacity)
  }

  function TextBody(x: real, y: real, text: string, font: string, fillOpacity: real, stroke: Option<Color>,
                    strokeOpacity: real, strokeWidth: real, textAnchor: Option<string>, textDy: Option<string>): Result<seq<Command>, CanvasError> {
    var strokes := if stroke.Some? && strokeWidth > 0.0 then [SetGlobalAlpha(strokeOpacity), StrokeText(text, x, y)] else [];
    var align :- ToTextAlign(textAnchor);
    var baseline :- ToTextBaseline(textDy);
    Success([SetTextBaseline(Alphabetic), SetFont(font)] + strokes
      + [SetGlobalAlpha(fillOpacity), SetTextAlign(align), SetTextBaseline(baseline), FillText(text, x, y)])
  }

  /** The commands drawText actually writes after drawNextElement: all of TextBody when both
      conversions succeed, otherwise those issued before the conversion that throws. */
  function TextIssued(x: real, y: real, text: string, font: string, fillOpacity: real, stroke: Option<Color>,
                      strokeOpacity: real, strokeWidth: real, textAnchor: Option<string>, textDy: Option<string>): seq<Command> {
    var strokes := if stroke.Some? && strokeWidth > 0.0 then [SetGlobalAlpha(strokeOpacity), StrokeText(text, x, y)] else [];
    var head := [SetTextBaseline(Alphabetic), SetFont(font)] + strokes + [SetGlobalAlpha(fillOpacity)];
    match ToTextAlign(textAnchor)
    case Failure(_) => head
    case Success(align) =>
      match ToTextBaseline(textDy)
      case Failure(_) => head + [SetTextAlign(align)]
      case Success(baseline) => head + [SetTextAlign(align), SetTextBaseline(baseline), FillText(text, x, y)]
  }

  /** A body issues neither save nor restore. */
  predicate Unframed(body: seq<Command>) {
    forall c | c in body :: c != Save && c != Restore
  }

  /** Every draw is one balanced save/restore frame when it gets through, and leaves the
      context saved when a conversion throws. */
  lemma {:induction false} FrameBalanced(next: (seq<Command>, Outcome<CanvasError>), body: Result<seq<Command>, CanvasError>)
    requires |next.0| >= 1 && next.0[0] == Save && forall c | c in next.0[1..] :: c != Save && c != Restore
    requires body.Success? ==> Unframed(body.value)
    ensures Frame(next, body).1.Pass? ==> Framed(Frame(next, body).0)
    ensures Frame(next, body).1.Fail? ==> LeftSaved(Frame(next, body).0)
  {
    var f := Frame(next, body);
    if f.1.Pass? {
      var s := f.0;
      assert s == next.0 + body.value + [Restore];
      forall i | 0 < i < |s| - 1 ensures s[i] != Save && s[i] != Restore {
        if i < |next.0| {
          assert s[i] == next.0[1..][i - 1];
          assert s[i] in next.0[1..];
        } else {
          assert s[i] == body.value[i - |next.0|];
          assert s[i] in body.value;
        }
      }
    } else {
      assert f.0 == next.0;
      assert next.0 == [Save] + next.0[1..];
      assert Restore !in next.0[1..];
    }
  }

  /** Every draw*: whatever its body, once drawNextElement and the body get through, the
      commands it issued form one frame; when a conversion throws, the context stays saved. */
  lemma {:induction false} DrawFramed(lineDash: Option<seq<real>>, transform: Option<seq<ParsedTransform>>,
                                      fill: Option<Color>, stroke: Option<Color>, width: real,
                                      body: Result<seq<Command>, CanvasError>)
    requires body.Success? ==> Unframed(body.value)
    ensures var f := Frame(NextElementCommands(lineDash, transform, fill, stroke, width), body);
      && (f.1.Pass? ==> Framed(f.0))
      && (f.1.Fail? ==> LeftSaved(f.0))
  {
    NextElementOnlySetsState(lineDash, transform, fill, stroke, width);
    FrameBalanced(NextElementCommands(lineDash, transform, fill, stroke, width), body);
  }

  /** drawCircle always fills and strokes only with a stroke colour. */
  lemma {:induction false} CircleFillsAndStrokes(cx: real, cy: real, r: real, fillOpacity: real, stroke: Option<Color>, strokeOpacity: real)
    ensures var body := CircleBody(cx, cy, r, fillOpacity, stroke, strokeOpacity);
      Unframed(body) && Fill in body && (StrokePath in body <==> stroke.Some?)
  {
    var body := CircleBody(cx, cy, r, fillOpacity, stroke, strokeOpacity);
    assert body[3] == Fill;
    if stroke.Some? {
      assert body[5] == StrokePath;
    }
  }

  /** drawPath always fills (even-odd) and strokes only with a stroke colour. */
  lemma {:induction false} PathFillsAndStrokes(d: Option<string>, fillOpacity: real, stroke: Option<Color>, strokeOpacity: real)
    ensures var body := PathBody(d, fillOpacity, stroke, strokeOpacity);
      Unframed(body) && FillEvenOdd in body && (StrokePath in body <==> stroke.Some?)
  {
    var body := PathBody(d, fillOpacity, stroke, strokeOpacity);
    assert body[4] == FillEvenOdd;
    if stroke.Some? {
      assert body[6] == StrokePath;
    }
  }

  /** drawRect fills only with a fill colour and strokes only with a stroke colour. */
  lemma {:induction false} RectFillsAndStrokes(x: real, y: real, w: real, h: real, fill: Option<Color>, fillOpacity: real,
                                               stroke: Option<Color>, strokeOpacity: real)
    ensures var body := RectBody(x, y, w, h, fill, fillOpacity, stroke, strokeOpacity);
      Unframed(body) && (FillRect(x, y, w, h) in body <==> fill.Some?) && (StrokeRect(x, y, w, h) in body <==> stroke.Some?)
  {
    var body := RectBody(x, y, w, h, fill, fillOpacity, stroke, strokeOpacity);
    if fill.Some? {
      assert body[1] == FillRect(x, y, w, h);
    }
    if stroke.Some? {
      assert body[|body| - 1] == StrokeRect(x, y, w, h);
    }
  }

  /** drawText always fills its text and strokes it only with a stroke colour and a positive
      width. */
  lemma {:induction false} TextFillsAndStrokes(x: real, y: real, text: string, font: string, fillOpacity: real,
                                               stroke: Option<Color>, strokeOpacity: real, strokeWidth: real,
                                               textAnchor: Option<string>, textDy: Option<string>)
    ensures var t := TextBody(x, y, text, font, fillOpacity, stroke, strokeOpacity, strokeWidth, textAnchor, textDy);
      t.Success? ==>
        && Unframed(t.value) && FillText(text, x, y) in t.value
        && (StrokeText(text, x, y) in t.value <==> stroke.Some? && strokeWidth > 0.0)
  {
    var t := TextBody(x, y, text, font, fillOpacity, stroke, strokeOpacity, strokeWidth, textAnchor, textDy);
    if t.Success? {
      assert t.value[|t.value| - 1] == FillText(text, x, y);
      if stroke.Some? && strokeWidth > 0.0 {
        assert t.value[3] == StrokeText(text, x, y);
      }
    }
  }

  /** What drawText writes is its whole body when the conversions succeed; when one throws,
      it never fills the text; either way it issues no save or restore. */
  lemma {:induction false} TextIssuedBody(x: real, y: real, text: string, font: string, fillOpacity: real,
                                          stroke: Option<Color>, strokeOpacity: real, strokeWidth: real,
                                          textAnchor: Option<string>, textDy: Option<string>)
    ensures var t := TextBody(x, y, text, font, fillOpacity, stroke, strokeOpacity, strokeWidth, textAnchor, textDy);
      var issued := TextIssued(x, y, text, font, fillOpacity, stroke, strokeOpacity, strokeWidth, textAnchor, textDy);
      && Unframed(issued)
      && (t.Success? ==> issued == t.value)
      && (t.Failure? ==> FillText(text, x, y) !in issued)
  {
    var strokes := if stroke.Some? && strokeWidth > 0.0 then [SetGlobalAlpha(strokeOpacity), StrokeText(text, x, y)] else [];
    var head := [SetTextBaseline(Alphabetic), SetFont(font)] + strokes + [SetGlobalAlpha(fillOpacity)];
    assert Unframed(head) && FillText(text, x, y) !in head;
    var align, baseline := ToTextAlign(textAnchor), ToTextBaseline(textDy);
    if align.Success? {
      var withAlign := head + [SetTextAlign(align.value)];
      assert Unframed(withAlign) && FillText(text, x, y) !in withAlign;
      if baseline.Success? {
        var all := head + [SetTextAlign(align.value), SetTextBaseline(baseline.value), FillText(text, x, y)];
        assert Unframed(all);
      }
    }
  }

  /** A draw that stops inside its body after drawNextElement, having issued no save or
      restore there, leaves the context saved. */
  lemma {:induction false} StoppedLeftSaved(next: seq<Command>, issued: seq<Command>)
    requires |next| >= 1 && next[0] == Save && forall c | c in next[1..] :: c != Save && c != Restore
    requires Unframed(issued)
    ensures LeftSaved(next + issued)
  {
    var s := next + issued;
    assert next == [Save] + next[1..];
    forall c | c in s ensures c != Restore {
      var i :| 0 <= i < |s| && s[i] == c;
      if 0 < i < |next| {
        assert s[i] in next[1..];
      }
    }
  }

  /** The trace of a draw whose drawNextElement got through: its commands, then the body's. */
  lemma TraceAfterBody(start: seq<Command>, next: seq<Command>, trace: seq<Command>, body: Result<seq<Command>, CanvasError>)
    requires start + next <= trace
    requires body.Success? ==> trace == start + next + body.value
    ensures body.Success? ==> trace + [Restore] == start + Frame((next, Pass), body).0
  {
  }

  class Context2DCanvasContext {
    /** The commands issued to the canvas so far. */
    var trace: seq<Command>
    const colors: ColorParsing
    const parseTransform: string -> seq<ParsedTransform>
    const styleFont: Option<string> -> Option<string>

    constructor (colors: ColorParsing, parseTransform: string -> seq<ParsedTransform>, styleFont: Option<string> -> Option<string>)
      ensures this.colors == colors && this.parseTransform == parseTransform && this.styleFont == styleFont && trace == []
    {
      this.colors, this.parseTransform, this.styleFont := colors, parseTransform, styleFont;
      trace := [];
    }

    function Parsed(transform: Option<string>): Option<seq<ParsedTransform>> {
      if transform.Some? then Some(parseTransform(transform.value)) else None
    }

    /** push(transform): save, then the transform if there is one. */
    method Push(transform: Option<string>) returns (out: Outcome<CanvasError>)
      modifies this
      ensures var tc := if transform.Some? then TransformCommands(parseTransform(transform.value)) else ([], Pass);
        trace == old(trace) + [Save] + tc.0 && out == tc.1
    {
      trace := trace + [Save];
      out := Pass;
      if transform.Some? {
        out := ApplyTransform(parseTransform(transform.value));
      }
    }

    method Restore()
      modifies this
      ensures trace == old(trace) + [Command.Restore]
    {
      trace := trace + [Command.Restore];
    }

    /** applyTransform(transforms): each transform in turn; the first one that fails stops
        the rest. */
    method ApplyTransform(transforms: seq<ParsedTransform>) returns (out: Outcome<CanvasError>)
      modifies this
      ensures trace == old(trace) + TransformCommands(transforms).0 && out == TransformCommands(transforms).1
    {
      var i := 0;
      while i < |transforms|
        invariant 0 <= i <= |transforms|
        invariant TransformCommands(transforms[..i]).1.Pass?
        invariant trace == old(trace) + TransformCommands(transforms[..i]).0
      {
        TransformCommandsNext(transforms, i);
        var step := TransformStep(transforms[i]);
        if step.Failure? {
          TransformPrefixFails(transforms, i + 1);
          return Fail(step.error);
        }
        trace := trace + step.value;
        i := i + 1;
      }
      assert transforms[..i] == transforms;
      out := Pass;
    }

    /** drawNextElement(...): save, set the colours and width, the dash if any, then the
        transform if any. */
    method DrawNextElement(lineDash: Option<seq<real>>, transform: Option<string>, fill: Option<Color>,
                           stroke: Option<Color>, width: real) returns (out: Outcome<CanvasError>)
      modifies this
      ensures var next := NextElementCommands(lineDash, Parsed(transform), fill, stroke, width);
        trace == old(trace) + next.0 && out == next.1
    {
      ghost var next := NextElementCommands(lineDash, Parsed(transform), fill, stroke, width);
      trace := trace + NextElementHead(lineDash, fill, stroke, width);
      out := Pass;
      if transform.Some? {
        ghost var tail := TransformCommands(parseTransform(transform.value));
        assert next == (NextElementHead(lineDash, fill, stroke, width) + tail.0, tail.1);
        out := ApplyTransform(parseTransform(transform.value));
      } else {
        assert next == (NextElementHead(lineDash, fill, stroke, width) + [], Pass);
      }
    }

    method Stroke(required: bool, opacity: real)
      modifies this
      ensures trace == old(trace) + StrokeCommands(required, opacity)
    {
      if required {
        trace := trace + [SetGlobalAlpha(opacity), StrokePath];
      }
    }

    /** drawCircle(...): always fills, strokes only with a stroke colour. */
    method DrawCircle(cx: real, cy: real, r: real, lineDash: Option<seq<real>>, transform: Option<string>,
                      fillColor: Option<string>, fillOpacity: real, strokeColor: Option<string>,
                      strokeOpacity: real, strokeWidth: real) returns (out: Outcome<CanvasError>)
      modifies this
      ensures var fill, stroke := ParseColorString(colors, fillColor), ParseColorString(colors, strokeColor);
        var f := Frame(NextElementCommands(lineDash, Parsed(transform), fill, stroke, strokeWidth),
                       Success(CircleBody(cx, cy, r, fillOpacity, stroke, strokeOpacity)));
        trace == old(trace) + f.0 && out == f.1
    {
      var fill := ParseColorString(colors, fillColor);
      var stroke := ParseColorString(colors, strokeColor);
      out := DrawNextElement(lineDash, transform, fill, stroke, strokeWidth);
      if out.Fail? {
        return;
      }
      trace := trace + [BeginPath, Arc(cx, cy, r), SetGlobalAlpha(fillOpacity), Fill];
      Stroke(stroke.Some?, strokeOpacity);
      Restore();
    }

    /** drawLine(...): no fill colour; always strokes. */
    method DrawLine(x1: real, y1: real, x2: real, y2: real, lineDash: Option<seq<real>>, transform: Option<string>,
                    strokeColor: Option<string>, strokeOpacity: real, strokeWidth: real) returns (out: Outcome<CanvasError>)
      modifies this
      ensures var stroke := ParseColorString(colors, strokeColor);
        var f := Frame(NextElementCommands(lineDash, Parsed(transform), None, stroke, strokeWidth),
                       Success(LineBody(x1, y1, x2, y2, strokeOpacity)));
        trace == old(trace) + f.0 && out == f.1
    {
      var stroke := ParseColorString(colors, strokeColor);
      out := DrawNextElement(lineDash, transform, None, stroke, strokeWidth);
      if out.Fail? {
        return;
      }
      trace := trace + [SetGlobalAlpha(strokeOpacity), BeginPath, MoveTo(x1, y1), LineTo(x2, y2), StrokePath];
      Restore();
    }

    /** drawRect(...): fills only with a fill colour, strokes only with a stroke colour. */
    method DrawRect(x: real, y: real, width: real, height: real, lineDash: Option<seq<real>>, transform: Option<string>,
                    fillColor: Option<string>, fillOpacity: real, strokeColor: Option<string>,
                    strokeOpacity: real, strokeWidth: real) returns (out: Outcome<CanvasError>)
      modifies this
      ensures var fill, stroke := ParseColorString(colors, fillColor), ParseColorString(colors, strokeColor);
        var f := Frame(NextElementCommands(lineDash, Parsed(transform), fill, stroke, strokeWidth),
                       Success(RectBody(x, y, width, height, fill, fillOpacity, stroke, strokeOpacity)));
        trace == old(trace) + f.0 && out == f.1
    {
      var fill := ParseColorString(colors, fillColor);
      var stroke := ParseColorString(colors, strokeColor);
      out := DrawNextElement(lineDash, transform, fill, stroke, strokeWidth);
      if out.Fail? {
        return;
      }
      if fill.Some? {
        trace := trace + [SetGlobalAlpha(fillOpacity), FillRect(x, y, width, height)];
      }
      if stroke.Some? {
        trace := trace + [SetGlobalAlpha(strokeOpacity), StrokeRect(x, y, width, height)];
      }
      Restore();
    }

    /** drawPath(...): always fills (even-odd), strokes only with a stroke colour. */
    method DrawPath(d: Option<string>, lineDash: Option<seq<real>>, transform: Option<string>,
                    fillColor: Option<string>, fillOpacity: real, strokeColor: Option<string>,
                    strokeOpacity: real, strokeWidth: real) returns (out: Outcome<CanvasError>)
      modifies this
      ensures var fill, stroke := ParseColorString(colors, fillColor), ParseColorString(colors, strokeColor);
        var f := Frame(NextElementCommands(lineDash, Parsed(transform), fill, stroke, strokeWidth),
                       Success(PathBody(d, fillOpacity, stroke, strokeOpacity)));
        trace == old(trace) + f.0 && out == f.1
    {
      var fill := ParseColorString(colors, fillColor);
      var stroke := ParseColorString(colors, strokeColor);
      out := DrawNextElement(lineDash, transform, fill, stroke, strokeWidth);
      if out.Fail? {
        return;
      }
      trace := trace + [SetLineJoinBevel, BeginPath, PathData(d), SetGlobalAlpha(fillOpacity), FillEvenOdd];
      Stroke(stroke.Some?, strokeOpacity);
      Restore();
    }

    /** drawText(...): strokes only with a stroke colour and a positive width; an unsupported
        anchor or dy throws after the stroke, leaving the context saved. */
    method DrawText(x: real, y: real, text: string, style: Option<string>, transform: Option<string>,
                    fillColor: Option<string>, fillOpacity: real, strokeColor: Option<string>,
                    strokeOpacity: real, strokeWidth: real, textAnchor: Option<string>,
                    textDy: Option<string>) returns (out: Outcome<CanvasError>)
      modifies this
      ensures var fill, stroke := ParseColorString(colors, fillColor), ParseColorString(colors, strokeColor);
        var font := styleFont(style).GetOr(DefaultFont);
        var next := NextElementCommands(None, Parsed(transform), fill, stroke, strokeWidth);
        var body := TextBody(x, y, text, font, fillOpacity, stroke, strokeOpacity, strokeWidth, textAnchor, textDy);
        out == Frame(next, body).1
        && (next.1.Pass? ==> old(trace) + next.0 <= trace)
        && (next.1.Fail? ==> trace == old(trace) + next.0)
        && (out.Pass? ==> trace == old(trace) + Frame(next, body).0)
        && (next.1.Pass? && out.Fail? ==>
              trace == old(trace) + next.0 + TextIssued(x, y, text, font, fillOpacity, stroke, strokeOpacity, strokeWidth, textAnchor, textDy))
    {
      var fill := ParseColorString(colors, fillColor);
      var stroke := ParseColorString(colors, strokeColor);
      out := DrawNextElement(None, transform, fill, stroke, strokeWidth);
      if out.Fail? {
        return;
      }
      var font := styleFont(style).GetOr(DefaultFont);
      ghost var saved := trace;
      out := WriteText(x, y, text, font, fillOpacity, stroke, strokeOpacity, strokeWidth, textAnchor, textDy);
      ghost var body := TextBody(x, y, text, font, fillOpacity, stroke, strokeOpacity, strokeWidth, textAnchor, textDy);
      ghost var next := NextElementCommands(None, Parsed(transform), fill, stroke, strokeWidth);
      TraceAfterBody(old(trace), next.0, trace, body);
      if out.Fail? {
        return;
      }
      Restore();
    }

    /** The text commands of drawText, up to the conversion that throws, if any. */
    method WriteText(x: real, y: real, text: string, font: string, fillOpacity: real, stroke: Option<Color>,
                     strokeOpacity: real, strokeWidth: real, textAnchor: Option<string>,
                     textDy: Option<string>) returns (out: Outcome<CanvasError>)
      modifies this
      ensures var body := TextBody(x, y, text, font, fillOpacity, stroke, strokeOpacity, strokeWidth, textAnchor, textDy);
        && trace == old(trace) + TextIssued(x, y, text, font, fillOpacity, stroke, strokeOpacity, strokeWidth, textAnchor, textDy)
        && (body.Success? ==> out == Pass && trace == old(trace) + body.value)
        && (body.Failure? ==> out == Fail(body.error))
    {
      var before := trace;
      var strokes := if stroke.Some? && strokeWidth > 0.0 then [SetGlobalAlpha(strokeOpacity), StrokeText(text, x, y)] else [];
      var head := [SetTextBaseline(Alphabetic), SetFont(font)] + strokes + [SetGlobalAlpha(fillOpacity)];
      trace := before + head;
      var align := ToTextAlign(textAnchor);
      if align.Failure? {
        return Fail(align.error);
      }
      trace := before + (head + [SetTextAlign(align.value)]);
      var baseline := ToTextBaseline(textDy);
      if baseline.Failure? {
        return Fail(baseline.error);
      }
      var all := head + [SetTextAlign(align.value), SetTextBaseline(baseline.value), FillText(text, x, y)];
      assert all == head + [SetTextAlign(align.value)] + [SetTextBaseline(baseline.value), FillText(text, x, y)];
      trace := before + all;
      out := Pass;
    }
  }

  /** The transforms up to i + 1: those up to i, then transform i. */
  lemma {:induction false} TransformCommandsNext(ts: seq<ParsedTransform>, i: nat)
    requires i < |ts| && TransformCommands(ts[..i]).1.Pass?
    ensures var front, step := TransformCommands(ts[..i]), TransformStep(ts[i]);
      TransformCommands(ts[..i + 1]) == if step.Failure? then (front.0, Fail(step.error)) else (front.0 + step.value, Pass)
  {
    assert ts[..i + 1][..i] == ts[..i];
  }

  lemma {:induction false} FailedPrefixStays(ts: seq<ParsedTransform>, k: nat)
    requires k < |ts| && TransformCommands(ts[..k]).1.Fail?
    ensures TransformCommands(ts[..k + 1]) == TransformCommands(ts[..k])
  {
    assert ts[..k + 1][..k] == ts[..k];
  }

  /** Once a transform of a prefix fails, applyTransform's outcome over the whole list is
      that failure and its commands are the prefix's. */
  lemma {:induction false} TransformPrefixFails(ts: seq<ParsedTransform>, k: nat)
    requires k <= |ts| && TransformCommands(ts[..k]).1.Fail?
    ensures TransformCommands(ts) == TransformCommands(ts[..k])
    decreases |ts| - k
  {
    if k < |ts| {
      FailedPrefixStays(ts, k);
      TransformPrefixFails(ts, k + 1);
    } else {
      assert ts[..k] == ts;
    }
  }
}
