/** HintsCollection: the tooltip layout hints of one data point, keyed by aesthetic, built
    from HintConfig objects that a HintConfigFactory stamps out with its current defaults.
    The data point and GeomHelper.toClient are values handed in by the caller. */
module HintsCollections {
  import opened Wrappers
  import opened Numerics

  datatype Aes = Aes(name: string)

  datatype Vec = Vec(x: real, y: real)

  datatype Color = Color(red: int, green: int, blue: int, alpha: int) {
    function ChangeAlpha(a: int): (c: Color)
      ensures c.red == red && c.green == green && c.blue == blue && c.alpha == a
    {
      Color(red, green, blue, a)
    }
  }

  /** TipLayoutHint.Kind; only the first three have a hint constructor here. */
  datatype Kind = VerticalTooltip | HorizontalTooltip | CursorTooltip | XAxisTooltip | YAxisTooltip

  /** A layout hint; a cursor tooltip carries no object radius. */
  datatype TipLayoutHint = TipLayoutHint(kind: Kind, coord: Vec, objectRadius: Option<real>, color: Color)

  /** The IllegalArgumentExceptions of getCoord and createHint, and the NullPointerException
      of `color!!`. */
  datatype HintError = XNotSet | ObjectRadiusNotSet | UnknownKind(kind: Option<Kind>) | ColorNotSet

  /** DataPointAesthetics: which aesthetics are defined at the point, and their values. */
  datatype DataPoint = DataPoint(defined: Aes -> bool, value: Aes -> real)

  /** createHint's dispatch on the hint kind, once the object radius is known. */
  function HintOfKind(kind: Option<Kind>, coord: Vec, objectRadius: real, color: Option<Color>): (r: Result<TipLayoutHint, HintError>)
    ensures r.Success? <==> kind in {Some(VerticalTooltip), Some(HorizontalTooltip), Some(CursorTooltip)} && color.Some?
    ensures kind !in {Some(VerticalTooltip), Some(HorizontalTooltip), Some(CursorTooltip)} ==> r == Failure(UnknownKind(kind))
    ensures r.Success? ==> r.value.kind == kind.value && r.value.coord == coord && r.value.color == color.value
    ensures r.Success? ==> (r.value.objectRadius == None <==> kind == Some(CursorTooltip))
    ensures r.Success? && kind != Some(CursorTooltip) ==> r.value.objectRadius == Some(objectRadius)
  {
    match kind
    case Some(VerticalTooltip) =>
      if color.None? then Failure(ColorNotSet) else Success(TipLayoutHint(VerticalTooltip, coord, Some(objectRadius), color.value))
    case Some(HorizontalTooltip) =>
      if color.None? then Failure(ColorNotSet) else Success(TipLayoutHint(HorizontalTooltip, coord, Some(objectRadius), color.value))
    case Some(CursorTooltip) =>
      if color.None? then Failure(ColorNotSet) else Success(TipLayoutHint(CursorTooltip, coord, None, color.value))
    case _ => Failure(UnknownKind(kind))
  }

  /** The factory's defaults; each HintConfig copies them when it is created. */
  class HintConfigFactory {
    var defaultObjectRadius: Option<real>
    var defaultX: Option<real>
    var defaultColor: Option<Color>
    var defaultKind: Option<Kind>

    constructor ()
      ensures defaultObjectRadius == None && defaultX == None && defaultColor == None && defaultKind == None
    {
      defaultObjectRadius, defaultX, defaultColor, defaultKind := None, None, None, None;
    }

    method DefaultObjectRadius(v: real) returns (self: HintConfigFactory)
      modifies this`defaultObjectRadius
      ensures self == this && defaultObjectRadius == Some(v)
    {
      defaultObjectRadius := Some(v);
      self := this;
    }

    method DefaultX(v: real) returns (self: HintConfigFactory)
      modifies this`defaultX
      ensures self == this && defaultX == Some(v)
    {
      defaultX := Some(v);
      self := this;
    }

    /** defaultColor(v, alpha): with an alpha, the colour's alpha becomes (255 * alpha)
        truncated toward zero; without one, the colour is kept as given. */
    method DefaultColor(v: Color, alpha: Option<real>) returns (self: HintConfigFactory)
      modifies this`defaultColor
      ensures self == this && defaultColor.Some?
      ensures alpha.None? ==> defaultColor == Some(v)
      ensures alpha.Some? ==> defaultColor == Some(v.ChangeAlpha(TruncateToInt(255.0 * alpha.value)))
      ensures alpha.Some? && 0.0 <= alpha.value <= 1.0 ==> 0 <= defaultColor.value.alpha <= 255
    {
      if alpha.Some? {
        defaultColor := Some(v.ChangeAlpha(TruncateToInt(255.0 * alpha.value)));
      } else {
        defaultColor := Some(v);
      }
      self := this;
    }

    method DefaultKind(kind: Kind) returns (self: HintConfigFactory)
      modifies this`defaultKind
      ensures self == this && defaultKind == Some(kind)
    {
      defaultKind := Some(kind);
      self := this;
    }

    /** create(aes): a new HintConfig holding the current defaults. */
    method Create(aes: Aes) returns (c: HintConfig)
      ensures fresh(c) && c.aes == aes
      ensures c.kind == defaultKind && c.objectRadius == defaultObjectRadius && c.x == defaultX && c.color == defaultColor
    {
      c := new HintConfig(aes, defaultKind, defaultObjectRadius, defaultX, defaultColor);
    }
  }

  /** HintConfig: the aesthetic, the kind fixed at creation, and settable radius, x and
      colour. */
  class HintConfig {
    const aes: Aes
    const kind: Option<Kind>
    var objectRadius: Option<real>
    var x: Option<real>
    var color: Option<Color>

    constructor (aes: Aes, kind: Option<Kind>, objectRadius: Option<real>, x: Option<real>, color: Option<Color>)
      ensures this.aes == aes && this.kind == kind && this.objectRadius == objectRadius && this.x == x && this.color == color
    {
      this.aes, this.kind := aes, kind;
      this.objectRadius, this.x, this.color := objectRadius, x, color;
    }

    method ObjectRadius(v: real) returns (self: HintConfig)
      modifies this`objectRadius
      ensures self == this && objectRadius == Some(v)
    {
      objectRadius := Some(v);
      self := this;
    }

    method X(v: real) returns (self: HintConfig)
      modifies this`x
      ensures self == this && x == Some(v)
    {
      x := Some(v);
      self := this;
    }

    method SetColor(v: Color) returns (self: HintConfig)
      modifies this`color
      ensures self == this && color == Some(v)
    {
      color := Some(v);
      self := this;
    }
  }

  /** A config made by the factory keeps the defaults of its creation: changing the factory
      afterwards leaves it alone. */
  method SnapshotDefaults(factory: HintConfigFactory, aes: Aes, x: real) returns (c: HintConfig)
    modifies factory`defaultX
    ensures fresh(c) && c.x == old(factory.defaultX) && factory.defaultX == Some(x)
  {
    c := factory.Create(aes);
    var _ := factory.DefaultX(x);
  }

  class HintsCollection {
    const point: DataPoint
    const toClient: (Vec, DataPoint) -> Vec
    var hints: map<Aes, TipLayoutHint>

    constructor (point: DataPoint, toClient: (Vec, DataPoint) -> Vec)
      ensures this.point == point && this.toClient == toClient && hints == map[]
    {
      this.point, this.toClient := point, toClient;
      hints := map[];
    }

    /** getCoord(config): an unset x is an error; an aesthetic undefined at the point gives
        no coordinate; otherwise (x, the point's value) in client coordinates. */
    function Coord(c: HintConfig): (r: Result<Option<Vec>, HintError>)
      reads c
      ensures r.Failure? <==> c.x.None?
      ensures r.Failure? ==> r.error == XNotSet
      ensures r.Success? ==> (r.value.None? <==> !point.defined(c.aes))
      ensures r.Success? && r.value.Some? ==> r.value.value == toClient(Vec(c.x.value, point.value(c.aes)), point)
    {
      if c.x.None? then Failure(XNotSet)
      else if !point.defined(c.aes) then Success(None)
      else Success(Some(toClient(Vec(c.x.value, point.value(c.aes)), point)))
    }

    /** createHint(config, coord): an unset object radius is an error, before the kind is
        looked at. */
    function CreateHint(c: HintConfig, coord: Vec): (r: Result<TipLayoutHint, HintError>)
      reads c
      ensures c.objectRadius.None? ==> r == Failure(ObjectRadiusNotSet)
      ensures c.objectRadius.Some? ==>
        (r.Success? <==> c.kind in {Some(VerticalTooltip), Some(HorizontalTooltip), Some(CursorTooltip)} && c.color.Some?)
      ensures r.Success? ==> r.value.kind == c.kind.value && r.value.coord == coord && r.value.color == c.color.value
      ensures r.Success? ==> (r.value.objectRadius == None <==> c.kind == Some(CursorTooltip))
      ensures r.Success? && c.kind != Some(CursorTooltip) ==> r.value.objectRadius == c.objectRadius
    {
      if c.objectRadius.None? then Failure(ObjectRadiusNotSet)
      else HintOfKind(c.kind, coord, c.objectRadius.value, c.color)
    }

    /** addHint(config): an unset x is an error even for an undefined aesthetic; an aesthetic
        undefined at the point leaves the hints alone without looking at the radius; otherwise
        the hint at (x, the point's value) in client coordinates replaces that aesthetic's
        entry, unless the radius is unset or the kind and colour give no hint. */
    method AddHint(c: HintConfig) returns (r: Result<HintsCollection, HintError>)
      modifies this`hints
      ensures r.Success? ==> r.value == this
      ensures r.Failure? ==> hints == old(hints)
      ensures c.x.None? ==> r == Failure(XNotSet)
      ensures c.x.Some? && !point.defined(c.aes) ==> r.Success? && hints == old(hints)
      ensures c.x.Some? && point.defined(c.aes) && c.objectRadius.None? ==> r == Failure(ObjectRadiusNotSet)
      ensures c.x.Some? && point.defined(c.aes) && c.objectRadius.Some? ==>
        var coord := toClient(Vec(c.x.value, point.value(c.aes)), point);
        var hint := HintOfKind(c.kind, coord, c.objectRadius.value, c.color);
        && (hint.Failure? ==> r == Failure(hint.error))
        && (hint.Success? ==> r.Success? && hints == old(hints)[c.aes := hint.value])
      ensures forall a | a != c.aes :: (a in hints <==> a in old(hints)) && (a in hints ==> hints[a] == old(hints)[a])
    {
      var coord := Coord(c);
      if coord.Failure? {
        return Failure(coord.error);
      }
      if coord.value.Some? {
        var hint := CreateHint(c, coord.value.value);
        if hint.Failure? {
          return Failure(hint.error);
        }
        hints := hints[c.aes := hint.value];
      }
      r := Success(this);
    }
  }
}
