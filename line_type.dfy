/** NamedLineType: the table of named line types with their codes and dash arrays. */
module LineTypes {
  import opened Wrappers

  datatype NamedLineType = Blank | Solid | Dashed | Dotted | DotDash | LongDash | TwoDash

  /** The IllegalStateException of asking a blank or solid line for its dash array. */
  datatype LineTypeError = NoDashArray(name: string)

  /** The code of each line type: 0 = blank, 1 = solid, 2 = dashed, 3 = dotted,
      4 = dotdash, 5 = longdash, 6 = twodash. */
  function Code(t: NamedLineType): (c: nat)
    ensures c <= 6
  {
    match t
    case Blank => 0
    case Solid => 1
    case Dashed => 2
    case Dotted => 3
    case DotDash => 4
    case LongDash => 5
    case TwoDash => 6
  }

  /** The line type with a given code, when there is one. */
  function FromCode(c: int): (r: Option<NamedLineType>)
    ensures r.Some? <==> 0 <= c <= 6
    ensures r.Some? ==> Code(r.value) == c
  {
    if c == 0 then Some(Blank)
    else if c == 1 then Some(Solid)
    else if c == 2 then Some(Dashed)
    else if c == 3 then Some(Dotted)
    else if c == 4 then Some(DotDash)
    else if c == 5 then Some(LongDash)
    else if c == 6 then Some(TwoDash)
    else None
  }

  /** Codes are distinct: the code identifies the line type. */
  lemma CodesDistinct(a: NamedLineType, b: NamedLineType)
    ensures Code(a) == Code(b) ==> a == b
    ensures FromCode(Code(a)) == Some(a)
  {
  }

  function IsBlank(t: NamedLineType): (b: bool)
    ensures b <==> t == Blank
  {
    t.Blank?
  }

  function IsSolid(t: NamedLineType): (b: bool)
    ensures b <==> t == Solid
  {
    t.Solid?
  }

  /** The constructor's dash array: none for blank and solid. */
  function StoredDashArray(t: NamedLineType): (r: Option<seq<real>>)
    ensures r.None? <==> t in {Blank, Solid}
  {
    match t
    case Blank => None
    case Solid => None
    case Dashed => Some([4.3, 4.3])
    case Dotted => Some([1.0, 3.2])
    case DotDash => Some([1.0, 3.2, 4.3, 3.2])
    case LongDash => Some([7.4, 3.2])
    case TwoDash => Some([2.4, 2.4, 6.4, 2.4])
  }

  /** The lower-case enum name, as the error message uses it. */
  function LowerName(t: NamedLineType): string {
    match t
    case Blank => "blank"
    case Solid => "solid"
    case Dashed => "dashed"
    case Dotted => "dotted"
    case DotDash => "dotdash"
    case LongDash => "longdash"
    case TwoDash => "twodash"
  }

  /** dashArray: an error for blank and solid lines; otherwise the stored dash array, an
      alternation of dash and gap lengths that are all positive. */
  function DashArray(t: NamedLineType): (r: Result<seq<real>, LineTypeError>)
    ensures r.Failure? <==> IsSolid(t) || IsBlank(t)
    ensures r.Failure? ==> r.error == NoDashArray(LowerName(t))
    ensures r.Success? ==> |r.value| > 0 && |r.value| % 2 == 0
    ensures r.Success? ==> forall k | 0 <= k < |r.value| :: r.value[k] > 0.0
  {
    if !(IsSolid(t) || IsBlank(t)) then Success(StoredDashArray(t).value)
    else Failure(NoDashArray(LowerName(t)))
  }
}
