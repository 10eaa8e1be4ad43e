/** GuideConfig: turns a guide specification (a guide name, or a map of options with a
    feature name) into legend, colour-bar or "no guide" options.  The option keys and the guide
    names are abstract here (the Option.Guide constants are not part of this model); reading an
    option follows OptionsAccessor as used by the code: a missing number is null, a value that
    is not a number is an error, and a missing or non-boolean flag is false. */
module GuideConfigs {
  import opened Wrappers
  import opened Numerics

  datatype OptionKey = Reverse | ColCount | RowCount | ByRow | Width | Height | BinCount | OtherKey(name: string)

  datatype OptionValue = Num(n: real) | Flag(b: bool) | Text(s: string)

  type Options = map<OptionKey, OptionValue>

  datatype GuideKind = LegendGuide | ColorBarGuide | NoGuide

  /** COLOR_BAR, COLOR_BAR_GB and NONE. */
  datatype GuideNames = GuideNames(colorBar: string, colorBarGb: string, none: string)

  /** The `guide` argument of create(): a map of options, or any other value by its
      toString(). */
  datatype Guide = GuideMap(options: Options) | GuideValue(text: string)

  /** The RuntimeException of reading a number from a non-number. */
  datatype OptionError = NotANumber(key: OptionKey)

  /** getDouble(key). */
  function GetDouble(opts: Options, key: OptionKey): (r: Result<Option<real>, OptionError>)
    ensures key !in opts ==> r == Success(None)
    ensures key in opts && opts[key].Num? ==> r == Success(Some(opts[key].n))
    ensures key in opts && !opts[key].Num? ==> r == Failure(NotANumber(key))
  {
    if key !in opts then Success(None)
    else if opts[key].Num? then Success(Some(opts[key].n))
    else Failure(NotANumber(key))
  }

  /** getBoolean(key). */
  function GetBoolean(opts: Options, key: OptionKey): (b: bool)
    ensures b <==> key in opts && opts[key] == Flag(true)
  {
    key in opts && opts[key].Flag? && opts[key].b
  }

  /** createForName(name, options): the dispatch on the guide's name. */
  function KindForName(names: GuideNames, name: string): (k: GuideKind)
    ensures k == ColorBarGuide <==> name == names.colorBar || name == names.colorBarGb
    ensures k == NoGuide <==> name != names.colorBar && name != names.colorBarGb && name == names.none
    ensures k == LegendGuide <==> name !in {names.colorBar, names.colorBarGb, names.none}
  {
    if name == names.colorBar || name == names.colorBarGb then ColorBarGuide
    else if name == names.none then NoGuide
    else LegendGuide
  }

  /** `trySafe { field = getDouble(key)!!.toInt() }`: a number, truncated; anything else
      throws inside trySafe and leaves the field as it was. */
  function CountOption(opts: Options, key: OptionKey, current: Option<int>): (r: Option<int>)
    ensures key in opts && opts[key].Num? ==> r == Some(TruncateToInt(opts[key].n))
    ensures !(key in opts && opts[key].Num?) ==> r == current
  {
    var d := GetDouble(opts, key);
    if d.Failure? || d.value.None? then current else Some(TruncateToInt(d.value.value))
  }

  /** `trySafe { field = getDouble(key) }`: a missing key stores null; a non-number throws
      inside trySafe and leaves the field as it was. */
  function SizeOption(opts: Options, key: OptionKey, current: Option<real>): (r: Option<real>)
    ensures key !in opts ==> r == None
    ensures key in opts && opts[key].Num? ==> r == Some(opts[key].n)
    ensures key in opts && !opts[key].Num? ==> r == current
  {
    var d := GetDouble(opts, key);
    if d.Failure? then current else d.value
  }

  /** GuideOptions with its LegendOptions and ColorBarOptions subclasses, tagged by kind; the
      fields of the other kinds keep their defaults. */
  class GuideOptions {
    const kind: GuideKind
    var isReverse: bool
    var colCount: Option<int>
    var rowCount: Option<int>
    var byRow: bool
    var width: Option<real>
    var height: Option<real>
    var binCount: Option<int>

    constructor (kind: GuideKind)
      ensures this.kind == kind && !isReverse && !byRow
      ensures colCount == None && rowCount == None && width == None && height == None && binCount == None
    {
      this.kind := kind;
      isReverse, byRow := false, false;
      colCount, rowCount, width, height, binCount := None, None, None, None, None;
    }
  }

  class GuideConfig {
    const kind: GuideKind
    const opts: Options

    constructor (kind: GuideKind, opts: Options)
      ensures this.kind == kind && this.opts == opts
    {
      this.kind, this.opts := kind, opts;
    }

    /** createGuideOptionsIntern(): the shared NONE options for no guide; otherwise fresh
        options read from the configuration. */
    method CreateGuideOptionsIntern(none: GuideOptions) returns (o: GuideOptions)
      ensures kind == NoGuide ==> o == none
      ensures kind == LegendGuide ==>
        && fresh(o) && o.kind == LegendGuide && !o.isReverse
        && o.colCount == CountOption(opts, ColCount, None) && o.rowCount == CountOption(opts, RowCount, None)
        && o.byRow == GetBoolean(opts, ByRow)
      ensures kind == ColorBarGuide ==>
        && fresh(o) && o.kind == ColorBarGuide && !o.isReverse
        && o.width == SizeOption(opts, Width, None) && o.height == SizeOption(opts, Height, None)
        && o.binCount == CountOption(opts, BinCount, None)
    {
      match kind
      case NoGuide =>
        o := none;
      case LegendGuide =>
        o := new GuideOptions(LegendGuide);
        var colCount := GetDouble(opts, ColCount);
        if colCount.Success? && colCount.value.Some? {
          o.colCount := Some(TruncateToInt(colCount.value.value));
        }
        var rowCount := GetDouble(opts, RowCount);
        if rowCount.Success? && rowCount.value.Some? {
          o.rowCount := Some(TruncateToInt(rowCount.value.value));
        }
        o.byRow := GetBoolean(opts, ByRow);
      case ColorBarGuide =>
        o := new GuideOptions(ColorBarGuide);
        var width := GetDouble(opts, Width);
        if width.Success? {
          o.width := width.value;
        }
        var height := GetDouble(opts, Height);
        if height.Success? {
          o.height := height.value;
        }
        var binCount := GetDouble(opts, BinCount);
        if binCount.Success? && binCount.value.Some? {
          o.binCount := Some(TruncateToInt(binCount.value.value));
        }
    }

    /** createGuideOptions(): the kind's options with isReverse read from REVERSE, also on the
        shared NONE object. */
    method CreateGuideOptions(none: GuideOptions) returns (o: GuideOptions)
      modifies none`isReverse
      ensures o.isReverse == GetBoolean(opts, Reverse)
      ensures kind == NoGuide ==> o == none
      ensures kind == LegendGuide ==>
        && fresh(o) && o.kind == LegendGuide
        && o.colCount == CountOption(opts, ColCount, None) && o.rowCount == CountOption(opts, RowCount, None)
        && o.byRow == GetBoolean(opts, ByRow)
      ensures kind == ColorBarGuide ==>
        && fresh(o) && o.kind == ColorBarGuide
        && o.width == SizeOption(opts, Width, None) && o.height == SizeOption(opts, Height, None)
        && o.binCount == CountOption(opts, BinCount, None)
      ensures kind != NoGuide ==> none.isReverse == old(none.isReverse)
    {
      o := CreateGuideOptionsIntern(none);
      o.isReverse := GetBoolean(opts, Reverse);
    }
  }

  /** createForName(name, options): the none config gets no options of its own. */
  method CreateForName(names: GuideNames, name: string, guideOptions: Options) returns (c: GuideConfig)
    ensures fresh(c) && c.kind == KindForName(names, name)
    ensures c.opts == (if c.kind == NoGuide then map[] else guideOptions)
  {
    if name == names.colorBar || name == names.colorBarGb {
      return new GuideConfig(ColorBarGuide, guideOptions);
    }
    if name == names.none {
      c := new GuideConfig(NoGuide, map[]);
    } else {
      c := new GuideConfig(LegendGuide, guideOptions);
    }
  }

  /** create(guide): a map is dispatched on its feature name and keeps its options; any other
      value is dispatched on its text with no options. */
  method Create(names: GuideNames, featureName: Options -> string, guide: Guide) returns (c: GuideConfig)
    ensures fresh(c)
    ensures guide.GuideMap? ==>
      c.kind == KindForName(names, featureName(guide.options)) && c.opts == (if c.kind == NoGuide then map[] else guide.options)
    ensures guide.GuideValue? ==> c.kind == KindForName(names, guide.text) && c.opts == map[]
  {
    if guide.GuideMap? {
      c := CreateForName(names, featureName(guide.options), guide.options);
    } else {
      c := CreateForName(names, guide.text, map[]);
    }
  }
}
