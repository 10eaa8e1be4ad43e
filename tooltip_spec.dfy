/** TooltipSpecFactory: the tooltip specs for a geometry target, built from per-aes layout
    hints, the general list of mapped aesthetics and the axis tooltips.  The mapped-data access
    and the geometry target are values handed in by the caller. */
module TooltipSpecs {
  import opened Wrappers
  import opened Collections

  /** An aesthetic; X, Y and MAP_ID are the ones the factory singles out. */
  datatype Aes = X | Y | MapId | Other(name: string)

  datatype MappedData = MappedData(labelText: string, value: string, isContinuous: bool)

  datatype Vec = Vec(x: real, y: real)

  datatype Color = Color(argb: int)

  datatype HintKind = XAxisTooltip | YAxisTooltip | OtherHint(name: string)

  datatype TipLayoutHint = TipLayoutHint(kind: HintKind, coord: Vec, color: Option<Color>)

  datatype TooltipSpec = TooltipSpec(layoutHint: TipLayoutHint, lines: seq<string>, fill: Option<Color>)

  /** The hit: its index into the data, its own layout hint and the per-aes hints in the
      order the target's map yields them. */
  datatype GeomTarget = GeomTarget(hitIndex: int, tipLayoutHint: TipLayoutHint, aesTipLayoutHints: seq<(Aes, TipLayoutHint)>)

  /** MappedDataAccess: which aesthetics are mapped, and the data of an aesthetic at an index. */
  datatype DataAccess = DataAccess(isMapped: Aes -> bool, mappedData: (Aes, int) -> MappedData)

  /** createHintForAxis's IllegalArgumentException. */
  datatype TooltipError = NotAnAxisAes

  const MapCoordinateNames: set<string> := {"lon", "longitude", "lat", "latitude"}

  const AutoGeneratedNames: set<string> := {}

  /** The tooltips of one geometry target (TargetTootipSpecBuilder). */
  class SpecBuilder {
    const tooltipAes: seq<Aes>
    const axisAes: seq<Aes>
    const access: DataAccess
    const axisOrigin: Vec
    const axisTooltipColor: Color
    const target: GeomTarget
    const shortLabels: seq<string>
    var tooltipSpecs: seq<TooltipSpec>
    var aesWithoutHint: seq<Aes>

    /** The short labels are those of X and Y, when mapped. */
    constructor (tooltipAes: seq<Aes>, axisAes: seq<Aes>, access: DataAccess, axisOrigin: Vec, axisTooltipColor: Color, target: GeomTarget)
      ensures this.tooltipAes == tooltipAes && this.axisAes == axisAes && this.access == access
      ensures this.axisOrigin == axisOrigin && this.axisTooltipColor == axisTooltipColor && this.target == target
      ensures shortLabels ==
        (if access.isMapped(X) then [access.mappedData(X, target.hitIndex).labelText] else [])
        + (if access.isMapped(Y) then [access.mappedData(Y, target.hitIndex).labelText] else [])
      ensures tooltipSpecs == [] && aesWithoutHint == tooltipAes
    {
      this.tooltipAes, this.axisAes, this.access := tooltipAes, axisAes, access;
      this.axisOrigin, this.axisTooltipColor, this.target := axisOrigin, axisTooltipColor, target;
      var labels := [];
      if access.isMapped(X) {
        labels := labels + [access.mappedData(X, target.hitIndex).labelText];
      }
      if access.isMapped(Y) {
        labels := labels + [access.mappedData(Y, target.hitIndex).labelText];
      }
      shortLabels := labels;
      tooltipSpecs := [];
      aesWithoutHint := tooltipAes;
    }

    predicate IsMapped(aes: Aes) {
      access.isMapped(aes)
    }

    function Data(aes: Aes): MappedData {
      access.mappedData(aes, target.hitIndex)
    }

    /** isVariableContinuous(aes): an unmapped aesthetic is never continuous. */
    predicate IsContinuous(aes: Aes): (b: bool)
      ensures !IsMapped(aes) ==> !b
      ensures IsMapped(aes) ==> (b <==> Data(aes).isContinuous)
    {
      IsMapped(aes) && Data(aes).isContinuous
    }

    /** format(mappedData): the value alone when the label is empty or an axis's short
        label, otherwise "label: value". */
    function Format(md: MappedData): (s: string)
      ensures md.labelText == [] || md.labelText in shortLabels ==> s == md.value
      ensures md.labelText != [] && md.labelText !in shortLabels ==> s == md.labelText + ": " + md.value
      ensures |s| >= |md.value|
    {
      if md.labelText == [] then md.value
      else if md.labelText in shortLabels then md.value
      else md.labelText + ": " + md.value
    }

    /** The formatted data of the mapped aesthetics of `aesList`, in order. */
    function Lines(aesList: seq<Aes>): (lines: seq<string>)
      ensures forall i | 0 <= i < |aesList| && IsMapped(aesList[i]) :: Format(Data(aesList[i])) in lines
      ensures forall s | s in lines :: exists a | a in aesList && IsMapped(a) :: s == Format(Data(a))
    {
      if aesList == [] then []
      else
        var n := |aesList| - 1;
        assert forall i | 0 <= i < n :: aesList[..n][i] == aesList[i];
        Lines(aesList[..n]) + (if IsMapped(aesList[n]) then [Format(Data(aesList[n]))] else [])
    }

    /** The lines makeText produces: each formatted line once, in first-seen order. */
    function Text(aesList: seq<Aes>): seq<string> {
      Dedup(Lines(aesList))
    }

    /** makeText(aesList): one line per mapped aesthetic, skipping lines already present. */
    method MakeText(aesList: seq<Aes>) returns (lines: seq<string>)
      ensures lines == Text(aesList)
      ensures NoDuplicates(lines)
      ensures forall i | 0 <= i < |aesList| && IsMapped(aesList[i]) :: Format(Data(aesList[i])) in lines
      ensures forall s | s in lines :: exists a | a in aesList && IsMapped(a) :: s == Format(Data(a))
    {
      lines := [];
      var i := 0;
      while i < |aesList|
        invariant 0 <= i <= |aesList|
        invariant lines == Text(aesList[..i])
      {
        var aes := aesList[i];
        TextStep(aesList, i);
        if IsMapped(aes) {
          var mappedData := Data(aes);
          var line := Format(mappedData);
          if line !in lines {
            lines := lines + [line];
          }
        }
        i := i + 1;
      }
      assert aesList[..|aesList|] == aesList;
    }

    /** One more aesthetic adds its line to the text unless the line is already there. */
    lemma TextStep(aesList: seq<Aes>, i: nat)
      requires i < |aesList|
      ensures var d := Text(aesList[..i]);
        var line := Format(Data(aesList[i]));
        Text(aesList[..i + 1]) == if IsMapped(aesList[i]) && line !in d then d + [line] else d
    {
      var aes := aesList[i];
      assert aesList[..i + 1][..i] == aesList[..i];
      var prefix := Lines(aesList[..i]);
      var next := if IsMapped(aes) then [Format(Data(aes))] else [];
      assert Lines(aesList[..i + 1]) == prefix + next;
      if next != [] {
        assert (prefix + next)[..|prefix|] == prefix;
      } else {
        assert prefix + next == prefix;
      }
    }

    /** isAxisTooltipAllowed(aes): mapped, continuous and not a map coordinate. */
    predicate IsAxisTooltipAllowed(aes: Aes)
      ensures IsAxisTooltipAllowed(aes) ==> IsContinuous(aes) && Data(aes).labelText !in MapCoordinateNames
    {
      if !IsMapped(aes) then false
      else if Data(aes).labelText in MapCoordinateNames then false
      else IsContinuous(aes)
    }

    /** createHintForAxis(aes): an axis tooltip at the hit's coordinate on that axis and the
        axis origin on the other; any aesthetic but X and Y is an error. */
    function CreateHintForAxis(aes: Aes): (r: Result<TipLayoutHint, TooltipError>)
      ensures r.Failure? <==> aes != X && aes != Y
      ensures r.Success? ==> r.value.color == Some(axisTooltipColor)
      ensures aes == X ==> r.value.kind == XAxisTooltip && r.value.coord == Vec(target.tipLayoutHint.coord.x, axisOrigin.y)
      ensures aes == Y ==> r.value.kind == YAxisTooltip && r.value.coord == Vec(axisOrigin.x, target.tipLayoutHint.coord.y)
    {
      if aes == X then Success(TipLayoutHint(XAxisTooltip, Vec(target.tipLayoutHint.coord.x, axisOrigin.y), Some(axisTooltipColor)))
      else if aes == Y then Success(TipLayoutHint(YAxisTooltip, Vec(axisOrigin.x, target.tipLayoutHint.coord.y), Some(axisTooltipColor)))
      else Failure(NotAnAxisAes)
    }

    /** The axis tooltips of `axes`, in order; the first allowed aesthetic that is not an
        axis stops them with an error. */
    function AxisSpecs(axes: seq<Aes>): (r: Result<seq<TooltipSpec>, TooltipError>)
      ensures r.Success? ==> |r.value| <= |axes|
      ensures r.Success? ==> forall s | s in r.value :: s.layoutHint.kind in {XAxisTooltip, YAxisTooltip} && s.fill == Some(axisTooltipColor)
    {
      if axes == [] then Success([])
      else
        var n := |axes| - 1;
        var front :- AxisSpecs(axes[..n]);
        if IsAxisTooltipAllowed(axes[n]) then
          var hint :- CreateHintForAxis(axes[n]);
          Success(front + [TooltipSpec(hint, Text([axes[n]]), hint.color)])
        else Success(front)
    }

    /** The axis tooltips fail exactly when an allowed aesthetic is neither X nor Y. */
    lemma {:induction false} AxisSpecsFail(axes: seq<Aes>)
      ensures AxisSpecs(axes).Failure? <==>
        exists i | 0 <= i < |axes| :: IsAxisTooltipAllowed(axes[i]) && axes[i] != X && axes[i] != Y
    {
      if axes != [] {
        var n := |axes| - 1;
        AxisSpecsFail(axes[..n]);
        assert forall i | 0 <= i < n :: axes[..n][i] == axes[i];
      }
    }

    /** addAxisTooltipSpec(): one tooltip per allowed axis aesthetic. */
    method AddAxisTooltipSpec() returns (r: Outcome<TooltipError>)
      modifies this`tooltipSpecs
      ensures AxisSpecs(axisAes).Success? ==> r == Pass && tooltipSpecs == old(tooltipSpecs) + AxisSpecs(axisAes).value
      ensures AxisSpecs(axisAes).Failure? ==> r == Fail(NotAnAxisAes)
    {
      var i := 0;
      while i < |axisAes|
        invariant 0 <= i <= |axisAes|
        invariant AxisSpecs(axisAes[..i]).Success?
        invariant tooltipSpecs == old(tooltipSpecs) + AxisSpecs(axisAes[..i]).value
      {
        var aes := axisAes[i];
        assert axisAes[..i + 1][..i] == axisAes[..i];
        if IsAxisTooltipAllowed(aes) {
          var layoutHint := CreateHintForAxis(aes);
          if layoutHint.Failure? {
            AxisSpecsFail(axisAes[..i + 1]);
            AxisSpecsFail(axisAes);
            assert axisAes[..i + 1][i] == axisAes[i];
            return Fail(layoutHint.error);
          }
          var text := MakeText([aes]);
          tooltipSpecs := tooltipSpecs + [TooltipSpec(layoutHint.value, text, layoutHint.value.color)];
        }
        i := i + 1;
      }
      assert axisAes[..|axisAes|] == axisAes;
      r := Pass;
    }

    /** The fill of a tooltip: the hint's colour, else the target's. */
    function Fill(layoutHint: TipLayoutHint): (c: Option<Color>)
      ensures layoutHint.color.Some? ==> c == layoutHint.color
      ensures layoutHint.color.None? ==> c == target.tipLayoutHint.color
    {
      if layoutHint.color.Some? then layoutHint.color else target.tipLayoutHint.color
    }

    /** addHintTooltipSpec(aes, layoutHint): nothing for no aesthetics; otherwise one tooltip,
        and those aesthetics no longer lack a hint. */
    method AddHintTooltipSpec(aes: seq<Aes>, layoutHint: TipLayoutHint)
      modifies this`tooltipSpecs, this`aesWithoutHint
      ensures aes == [] ==> tooltipSpecs == old(tooltipSpecs) && aesWithoutHint == old(aesWithoutHint)
      ensures aes != [] ==> tooltipSpecs == old(tooltipSpecs) + [TooltipSpec(layoutHint, Text(aes), Fill(layoutHint))]
      ensures aes != [] ==> aesWithoutHint == Filter(old(aesWithoutHint), a => a !in aes)
    {
      if aes == [] {
        return;
      }
      var text := MakeText(aes);
      var fill := if layoutHint.color.Some? then layoutHint.color else target.tipLayoutHint.color;
      tooltipSpecs := tooltipSpecs + [TooltipSpec(layoutHint, text, fill)];
      aesWithoutHint := Filter(aesWithoutHint, a => a !in aes);
    }

    /** An aesthetic that shares its label with a continuous axis aesthetic of `axes`. */
    predicate HiddenByAxis(a: Aes, axes: seq<Aes>) {
      exists ax | ax in axes :: IsContinuous(ax) && Data(a).labelText == Data(ax).labelText
    }

    /** removeAxisMapping(list): drops every aesthetic labelled like a continuous axis. */
    method RemoveAxisMapping(list: seq<Aes>) returns (r: seq<Aes>)
      ensures r == Filter(list, a => !HiddenByAxis(a, axisAes))
      ensures forall a :: a in r <==> a in list && !HiddenByAxis(a, axisAes)
    {
      r := list;
      FilterAll(list, a => !HiddenByAxis(a, axisAes[..0]));
      var i := 0;
      while i < |axisAes|
        invariant 0 <= i <= |axisAes|
        invariant r == Filter(list, a => !HiddenByAxis(a, axisAes[..i]))
      {
        AxisFilterStep(list, i);
        if IsContinuous(axisAes[i]) {
          r := Filter(r, a => Data(a).labelText != Data(axisAes[i]).labelText);
        }
        i := i + 1;
      }
      assert axisAes[..|axisAes|] == axisAes;
    }

    /** One axis of removeAxisMapping: a continuous axis removes its label, any other axis
        removes nothing. */
    lemma AxisFilterStep(list: seq<Aes>, i: nat)
      requires i < |axisAes|
      ensures IsContinuous(axisAes[i]) ==>
        Filter(Filter(list, a => !HiddenByAxis(a, axisAes[..i])), a => Data(a).labelText != Data(axisAes[i]).labelText)
        == Filter(list, a => !HiddenByAxis(a, axisAes[..i + 1]))
      ensures !IsContinuous(axisAes[i]) ==>
        Filter(list, a => !HiddenByAxis(a, axisAes[..i])) == Filter(list, a => !HiddenByAxis(a, axisAes[..i + 1]))
    {
      assert axisAes[..i + 1] == axisAes[..i] + [axisAes[i]];
      if IsContinuous(axisAes[i]) {
        FilterTwice(list, a => !HiddenByAxis(a, axisAes[..i]), a => Data(a).labelText != Data(axisAes[i]).labelText,
          a => !HiddenByAxis(a, axisAes[..i + 1]));
      } else {
        FilterAgree(list, a => !HiddenByAxis(a, axisAes[..i]), a => !HiddenByAxis(a, axisAes[..i + 1]));
      }
    }

    predicate NotAutoGenerated(a: Aes) {
      Data(a).labelText !in AutoGeneratedNames
    }

    /** removeAutoGeneratedMappings(list): the set of generated names is empty, so nothing goes. */
    function RemoveAutoGeneratedMappings(list: seq<Aes>): (r: seq<Aes>)
      ensures r == list
    {
      FilterAll(list, NotAutoGenerated);
      Filter(list, NotAutoGenerated)
    }

    /** removeMapIdMapping(list). */
    function RemoveMapIdMapping(list: seq<Aes>): (r: seq<Aes>)
      ensures MapId !in r
      ensures forall a | a != MapId :: a in r <==> a in list
    {
      Filter(list, a => a != MapId)
    }

    /** Every entry of `m` is a mapped aesthetic of `list` filed under its own label. */
    ghost predicate LabelMap(list: seq<Aes>, m: map<string, (Aes, MappedData)>) {
      forall l | l in m :: m[l].0 in list && IsMapped(m[l].0) && m[l].1 == Data(m[l].0) && m[l].1.labelText == l
    }

    /** A mapped aesthetic under label l, and a continuous one when `continuous` is set. */
    predicate MappedUnder(a: Aes, l: string, continuous: bool) {
      IsMapped(a) && Data(a).labelText == l && (continuous ==> Data(a).isContinuous)
    }

    /** The first aesthetic of s, in list order, that is mapped under label l (and continuous
        when `continuous` is set). */
    function FirstMapped(s: seq<Aes>, l: string, continuous: bool): (r: Option<Aes>)
      ensures r.Some? ==> r.value in s && MappedUnder(r.value, l, continuous)
      ensures r.None? <==> forall a | a in s :: !MappedUnder(a, l, continuous)
    {
      if s == [] then None
      else
        var init := s[..|s| - 1];
        assert forall a | a in init :: a in s;
        if FirstMapped(init, l, continuous).Some? then FirstMapped(init, l, continuous)
        else if MappedUnder(s[|s| - 1], l, continuous) then Some(s[|s| - 1])
        else
          assert forall a | a in s :: a in init || a == s[|s| - 1];
          None
    }

    /** FirstMapped is the first match: it sits at an index before which nothing matches. */
    lemma {:induction false} FirstMappedIsFirst(s: seq<Aes>, l: string, continuous: bool)
      requires FirstMapped(s, l, continuous).Some?
      ensures exists j | 0 <= j < |s| ::
        s[j] == FirstMapped(s, l, continuous).value && (forall i | 0 <= i < j :: !MappedUnder(s[i], l, continuous))
    {
      var init := s[..|s| - 1];
      var w := FirstMapped(s, l, continuous).value;
      if FirstMapped(init, l, continuous).Some? {
        assert w == FirstMapped(init, l, continuous).value;
        FirstMappedIsFirst(init, l, continuous);
        var j :| 0 <= j < |init| && init[j] == w && (forall i | 0 <= i < j :: !MappedUnder(init[i], l, continuous));
        assert s[j] == w;
        assert forall i | 0 <= i < j :: s[i] == init[i];
      } else {
        var j := |s| - 1;
        assert s[j] == w;
        forall i | 0 <= i < j ensures !MappedUnder(s[i], l, continuous) {
          assert s[i] == init[i] && init[i] in init;
        }
      }
    }

    /** The aesthetic shown for label l: the first continuous one mapped under l if there is
        one, otherwise the first mapped one. */
    function FirstWinner(s: seq<Aes>, l: string): Option<Aes> {
      if FirstMapped(s, l, true).Some? then FirstMapped(s, l, true) else FirstMapped(s, l, false)
    }

    /** One more aesthetic at the end of the list: the winner of every other label stays, and
        the winner of its own label follows the rule of the loop body. */
    lemma {:induction false} FirstWinnerStep(s: seq<Aes>, a: Aes, l: string)
      ensures !MappedUnder(a, l, false) ==> FirstWinner(s + [a], l) == FirstWinner(s, l)
      ensures MappedUnder(a, l, false) && FirstWinner(s, l).None? ==> FirstWinner(s + [a], l) == Some(a)
      ensures MappedUnder(a, l, false) && FirstWinner(s, l).Some? ==>
        FirstWinner(s + [a], l) ==
          if !Data(FirstWinner(s, l).value).isContinuous && Data(a).isContinuous then Some(a) else FirstWinner(s, l)
    {
      var t := s + [a];
      assert t[..|t| - 1] == s;
      var w := FirstWinner(s, l);
      if w.Some? && !Data(w.value).isContinuous {
        assert FirstMapped(s, l, true).None?;
      }
    }

    /** The label map holds, for exactly the labels that have one, each label's FirstWinner. */
    ghost predicate WinnerMap(list: seq<Aes>, m: map<string, (Aes, MappedData)>) {
      && (forall l | l in m :: FirstWinner(list, l) == Some(m[l].0))
      && (forall l | FirstWinner(list, l).Some? :: l in m)
    }

    /** r holds exactly one aesthetic per label that has a winner, and that is the winner. */
    ghost predicate ShowsFirstWinners(list: seq<Aes>, r: seq<Aes>) {
      && (forall b | b in r :: FirstWinner(list, Data(b).labelText) == Some(b))
      && (forall l | FirstWinner(list, l).Some? :: FirstWinner(list, l).value in r)
    }

    /** The label map of removeDiscreteDuplicatedMappings: for each label of a mapped
        aesthetic, the first one seen, replaced once by a continuous one. */
    method MappingsToShow(list: seq<Aes>) returns (m: map<string, (Aes, MappedData)>)
      ensures LabelMap(list, m)
      ensures forall j | 0 <= j < |list| && IsMapped(list[j]) :: Data(list[j]).labelText in m
      ensures forall j | 0 <= j < |list| && IsContinuous(list[j]) :: m[Data(list[j]).labelText].1.isContinuous
      ensures WinnerMap(list, m)
    {
      m := map[];
      var i := 0;
      while i < |list|
        invariant 0 <= i <= |list|
        invariant LabelMap(list, m)
        invariant forall l | l in m :: FirstWinner(list[..i], l) == Some(m[l].0)
        invariant forall l | FirstWinner(list[..i], l).Some? :: l in m
      {
        var aes := list[i];
        ghost var m0 := m;
        if IsMapped(aes) {
          var mappingToCheck := Data(aes);
          if mappingToCheck.labelText !in m {
            m := m[mappingToCheck.labelText := (aes, mappingToCheck)];
          } else {
            var mappingToShow := m[mappingToCheck.labelText].1;
            if !mappingToShow.isContinuous && mappingToCheck.isContinuous {
              m := m[mappingToCheck.labelText := (aes, mappingToCheck)];
            }
          }
        }
        assert list[..i + 1] == list[..i] + [aes];
        forall l ensures (l in m ==> FirstWinner(list[..i + 1], l) == Some(m[l].0)) &&
          (FirstWinner(list[..i + 1], l).Some? ==> l in m) {
          FirstWinnerStep(list[..i], aes, l);
        }
        i := i + 1;
      }
      assert list[..i] == list;
      forall j | 0 <= j < |list| && IsMapped(list[j])
        ensures Data(list[j]).labelText in m
        ensures IsContinuous(list[j]) ==> m[Data(list[j]).labelText].1.isContinuous
      {
        var l := Data(list[j]).labelText;
        assert MappedUnder(list[j], l, false) && list[j] in list;
        if IsContinuous(list[j]) {
          assert MappedUnder(list[j], l, true);
        }
      }
    }

    /** The aesthetics of the label map's values, in the map's (unspecified) key order. */
    method MapValues(m: map<string, (Aes, MappedData)>) returns (r: seq<Aes>, ghost order: seq<string>)
      ensures |r| == |order| && NoDuplicates(order)
      ensures forall k | 0 <= k < |order| :: order[k] in m && r[k] == m[order[k]].0
      ensures forall l | l in m :: l in order
    {
      r := [];
      var remaining := m.Keys;
      order := [];
      while remaining != {}
        invariant remaining <= m.Keys
        invariant |r| == |order| && NoDuplicates(order)
        invariant forall k | 0 <= k < |order| :: order[k] in m && order[k] !in remaining && r[k] == m[order[k]].0
        invariant forall l | l in m && l !in remaining :: l in order
        decreases remaining
      {
        ghost var some := Element(remaining);
        var key :| key in remaining;
        r := r + [m[key].0];
        order := order + [key];
        remaining := remaining - {key};
      }
    }

    /** removeDiscreteDuplicatedMappings(list): one mapped aesthetic per label, a continuous
        one when the label has any; the survivors come out in the order of the label map. */
    method RemoveDiscreteDuplicatedMappings(list: seq<Aes>) returns (r: seq<Aes>)
      ensures forall a | a in r :: a in list && IsMapped(a)
      ensures forall i, j | 0 <= i < j < |r| :: Data(r[i]).labelText != Data(r[j]).labelText
      ensures forall a | a in list && IsMapped(a) :: exists b | b in r :: Data(b).labelText == Data(a).labelText
      ensures forall a, b | a in list && b in r && IsContinuous(a) && Data(b).labelText == Data(a).labelText :: IsContinuous(b)
      ensures ShowsFirstWinners(list, r)
    {
      if list == [] {
        return [];
      }
      var mappingsToShow := MappingsToShow(list);
      ghost var order;
      r, order := MapValues(mappingsToShow);
      DedupProperties(list, mappingsToShow, r, order);
      DedupWinners(list, mappingsToShow, r, order);
    }

    /** What the label map and its values give removeDiscreteDuplicatedMappings. */
    lemma DedupProperties(list: seq<Aes>, m: map<string, (Aes, MappedData)>, r: seq<Aes>, order: seq<string>)
      requires LabelMap(list, m)
      requires forall j | 0 <= j < |list| && IsMapped(list[j]) :: Data(list[j]).labelText in m
      requires forall j | 0 <= j < |list| && IsContinuous(list[j]) :: m[Data(list[j]).labelText].1.isContinuous
      requires |r| == |order| && NoDuplicates(order)
      requires forall k | 0 <= k < |order| :: order[k] in m && r[k] == m[order[k]].0
      requires forall l | l in m :: l in order
      ensures forall a | a in r :: a in list && IsMapped(a)
      ensures forall i, j | 0 <= i < j < |r| :: Data(r[i]).labelText != Data(r[j]).labelText
      ensures forall a | a in list && IsMapped(a) :: exists b | b in r :: Data(b).labelText == Data(a).labelText
      ensures forall a, b | a in list && b in r && IsContinuous(a) && Data(b).labelText == Data(a).labelText :: IsContinuous(b)
    {
      assert forall k | 0 <= k < |r| :: Data(r[k]).labelText == order[k];
      forall a | a in list && IsMapped(a) ensures exists b | b in r :: Data(b).labelText == Data(a).labelText {
        var j :| 0 <= j < |list| && list[j] == a;
        var k :| 0 <= k < |order| && order[k] == Data(a).labelText;
        assert r[k] in r;
      }
      forall a, b | a in list && b in r && IsContinuous(a) && Data(b).labelText == Data(a).labelText ensures IsContinuous(b) {
        var j :| 0 <= j < |list| && list[j] == a;
        var k :| 0 <= k < |r| && r[k] == b;
      }
    }

    /** The values of a winner map are exactly the winners, one per label. */
    lemma DedupWinners(list: seq<Aes>, m: map<string, (Aes, MappedData)>, r: seq<Aes>, order: seq<string>)
      requires LabelMap(list, m) && WinnerMap(list, m)
      requires |r| == |order|
      requires forall k | 0 <= k < |order| :: order[k] in m && r[k] == m[order[k]].0
      requires forall l | l in m :: l in order
      ensures ShowsFirstWinners(list, r)
    {
      forall l | FirstWinner(list, l).Some? ensures FirstWinner(list, l).value in r {
        var k :| 0 <= k < |order| && order[k] == l;
        assert r[k] in r;
      }
    }

    /** The aesthetics the general tooltip chooses from, in order: those of `left` that no
        axis hides, without MAP_ID (no label is auto-generated). */
    function Candidates(left: seq<Aes>): seq<Aes> {
      RemoveMapIdMapping(Filter(left, a => !HiddenByAxis(a, axisAes)))
    }

    /** The general tooltip's aesthetics: those still without a hint, minus axis labels,
        generated names and MAP_ID, one per label, and for each label its FirstWinner
        among the candidates. */
    method AesListForTooltip() returns (list: seq<Aes>)
      ensures MapId !in list
      ensures forall a | a in list :: a in aesWithoutHint && IsMapped(a) && !HiddenByAxis(a, axisAes)
      ensures forall i, j | 0 <= i < j < |list| :: Data(list[i]).labelText != Data(list[j]).labelText
      ensures forall a | a in aesWithoutHint && IsMapped(a) && a != MapId && !HiddenByAxis(a, axisAes) ::
        exists b | b in list :: Data(b).labelText == Data(a).labelText
      ensures ShowsFirstWinners(Candidates(aesWithoutHint), list)
    {
      var aesListForTooltip := aesWithoutHint;
      aesListForTooltip := RemoveAxisMapping(aesListForTooltip);
      aesListForTooltip := RemoveAutoGeneratedMappings(aesListForTooltip);
      aesListForTooltip := RemoveMapIdMapping(aesListForTooltip);
      list := RemoveDiscreteDuplicatedMappings(aesListForTooltip);
    }

    /** addAesTooltipSpec(): the general tooltip, under the target's own layout hint. */
    method AddAesTooltipSpec() returns (ghost list: seq<Aes>)
      modifies this`tooltipSpecs, this`aesWithoutHint
      ensures MapId !in list
      ensures forall a | a in list :: a in old(aesWithoutHint) && IsMapped(a) && !HiddenByAxis(a, axisAes)
      ensures forall i, j | 0 <= i < j < |list| :: Data(list[i]).labelText != Data(list[j]).labelText
      ensures forall a | a in old(aesWithoutHint) && IsMapped(a) && a != MapId && !HiddenByAxis(a, axisAes) ::
        exists b | b in list :: Data(b).labelText == Data(a).labelText
      ensures ShowsFirstWinners(Candidates(old(aesWithoutHint)), list)
      ensures tooltipSpecs == old(tooltipSpecs) + GeneralSpec(list)
    {
      var aesListForTooltip := AesListForTooltip();
      list := aesListForTooltip;
      AddHintTooltipSpec(aesListForTooltip, target.tipLayoutHint);
    }

    /** The general tooltip of `list`: none when it is empty. */
    function GeneralSpec(list: seq<Aes>): seq<TooltipSpec> {
      if list == [] then [] else [TooltipSpec(target.tipLayoutHint, Text(list), Fill(target.tipLayoutHint))]
    }

    /** The per-aes tooltips, one per entry of the target's hint map. */
    function HintSpecs(hints: seq<(Aes, TipLayoutHint)>): (r: seq<TooltipSpec>)
      ensures |r| == |hints|
      ensures forall i | 0 <= i < |hints| :: r[i] == TooltipSpec(hints[i].1, Text([hints[i].0]), Fill(hints[i].1))
    {
      seq(|hints|, i requires 0 <= i < |hints| => TooltipSpec(hints[i].1, Text([hints[i].0]), Fill(hints[i].1)))
    }

    /** The aesthetics of `hints`. */
    function HintedAes(hints: seq<(Aes, TipLayoutHint)>): (r: seq<Aes>)
      ensures |r| == |hints| && forall i | 0 <= i < |hints| :: r[i] == hints[i].0
    {
      seq(|hints|, i requires 0 <= i < |hints| => hints[i].0)
    }

    lemma HintsStep(hints: seq<(Aes, TipLayoutHint)>, i: nat)
      requires i < |hints|
      ensures HintSpecs(hints[..i + 1]) == HintSpecs(hints[..i]) + [TooltipSpec(hints[i].1, Text([hints[i].0]), Fill(hints[i].1))]
      ensures HintedAes(hints[..i + 1]) == HintedAes(hints[..i]) + [hints[i].0]
    {
      var specs := HintSpecs(hints[..i + 1]);
      var specs' := HintSpecs(hints[..i]) + [TooltipSpec(hints[i].1, Text([hints[i].0]), Fill(hints[i].1))];
      forall k | 0 <= k < i + 1 ensures specs[k] == specs'[k] {
        assert hints[..i + 1][k] == hints[k];
      }
      var aes := HintedAes(hints[..i + 1]);
      var aes' := HintedAes(hints[..i]) + [hints[i].0];
      forall k | 0 <= k < i + 1 ensures aes[k] == aes'[k] {
        assert hints[..i + 1][k] == hints[k];
      }
    }

    lemma HintedFilterStep(left: seq<Aes>, hints: seq<(Aes, TipLayoutHint)>, i: nat)
      requires i < |hints|
      ensures Filter(Filter(left, a => a !in HintedAes(hints[..i])), a => a !in [hints[i].0])
        == Filter(left, a => a !in HintedAes(hints[..i + 1]))
    {
      HintsStep(hints, i);
      FilterTwice(left, a => a !in HintedAes(hints[..i]), a => a !in [hints[i].0], a => a !in HintedAes(hints[..i + 1]));
    }

    /** The loop over the target's aes hints in createTooltipSpecs(). */
    method AddAesHints()
      modifies this`tooltipSpecs, this`aesWithoutHint
      ensures tooltipSpecs == old(tooltipSpecs) + HintSpecs(target.aesTipLayoutHints)
      ensures aesWithoutHint == Filter(old(aesWithoutHint), a => a !in HintedAes(target.aesTipLayoutHints))
    {
      var hints := target.aesTipLayoutHints;
      ghost var specs0, left0 := tooltipSpecs, aesWithoutHint;
      FilterAll(left0, a => a !in HintedAes(hints[..0]));
      var i := 0;
      while i < |hints|
        invariant 0 <= i <= |hints|
        invariant tooltipSpecs == specs0 + HintSpecs(hints[..i])
        invariant aesWithoutHint == Filter(left0, a => a !in HintedAes(hints[..i]))
      {
        var aes, hint := hints[i].0, hints[i].1;
        HintsStep(hints, i);
        HintedFilterStep(left0, hints, i);
        AddHintTooltipSpec([aes], hint);
        i := i + 1;
      }
      assert hints[..|hints|] == hints;
    }

    /** `general` is the general tooltip's list for the aesthetics `left`: no MAP_ID, only
        mapped ones not hidden by an axis, one per label, every such label present, and
        under each label its FirstWinner among the candidates. */
    ghost predicate GeneralList(general: seq<Aes>, left: seq<Aes>) {
      && MapId !in general
      && (forall a | a in general :: a in left && IsMapped(a) && !HiddenByAxis(a, axisAes))
      && (forall i, j | 0 <= i < j < |general| :: Data(general[i]).labelText != Data(general[j]).labelText)
      && (forall a | a in left && IsMapped(a) && a != MapId && !HiddenByAxis(a, axisAes) ::
            exists b | b in general :: Data(b).labelText == Data(a).labelText)
      && ShowsFirstWinners(Candidates(left), general)
    }

    /** createTooltipSpecs(): the per-aes tooltips, then the general one, then the axis
        tooltips. */
    method CreateTooltipSpecs() returns (r: Result<seq<TooltipSpec>, TooltipError>, ghost general: seq<Aes>)
      modifies this`tooltipSpecs, this`aesWithoutHint
      ensures GeneralList(general, Filter(old(aesWithoutHint), a => a !in HintedAes(target.aesTipLayoutHints)))
      ensures r.Failure? <==> AxisSpecs(axisAes).Failure?
      ensures r.Success? ==>
        r.value == old(tooltipSpecs) + HintSpecs(target.aesTipLayoutHints) + GeneralSpec(general) + AxisSpecs(axisAes).value
    {
      AddAesHints();
      general := AddAesTooltipSpec();
      var axes := AddAxisTooltipSpec();
      if axes.Fail? {
        return Failure(axes.error), general;
      }
      r := Success(tooltipSpecs);
    }
  }

  /** TooltipSpecFactory: the contextual mapping's aesthetics and data access, and the axis
      origin.  AXIS_TOOLTIP_COLOR is a parameter. */
  class TooltipSpecFactory {
    const tooltipAes: seq<Aes>
    const axisAes: seq<Aes>
    const access: DataAccess
    const axisOrigin: Vec
    const axisTooltipColor: Color

    constructor (tooltipAes: seq<Aes>, axisAes: seq<Aes>, access: DataAccess, axisOrigin: Vec, axisTooltipColor: Color)
      ensures this.tooltipAes == tooltipAes && this.axisAes == axisAes && this.access == access
      ensures this.axisOrigin == axisOrigin && this.axisTooltipColor == axisTooltipColor
    {
      this.tooltipAes, this.axisAes, this.access := tooltipAes, axisAes, access;
      this.axisOrigin, this.axisTooltipColor := axisOrigin, axisTooltipColor;
    }

    /** create(geomTarget): a fresh builder's tooltip specs. */
    method Create(target: GeomTarget) returns (r: Result<seq<TooltipSpec>, TooltipError>, ghost builder: SpecBuilder, ghost general: seq<Aes>)
      ensures fresh(builder) && builder.target == target && builder.tooltipAes == tooltipAes && builder.axisAes == axisAes
      ensures builder.GeneralList(general, Filter(tooltipAes, a => a !in builder.HintedAes(target.aesTipLayoutHints)))
      ensures r.Failure? <==> builder.AxisSpecs(axisAes).Failure?
      ensures r.Success? ==>
        r.value == builder.HintSpecs(target.aesTipLayoutHints) + builder.GeneralSpec(general) + builder.AxisSpecs(axisAes).value
    {
      var b := new SpecBuilder(tooltipAes, axisAes, access, axisOrigin, axisTooltipColor, target);
      builder := b;
      ghost var hintSpecs := b.HintSpecs(target.aesTipLayoutHints);
      assert [] + hintSpecs == hintSpecs;
      r, general := b.CreateTooltipSpecs();
    }
  }
}
