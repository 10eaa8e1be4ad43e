# A verified model of core pieces of a Kotlin plotting and mapping library

This project is a Dafny model of fifteen classes from a Kotlin plotting and map-rendering library, each with proofs. The classes span:

- geometry decoding
- plot statistics and tooltips
- canvas drawing
- observable collections
- small value types

Each class is modelled in the form the Kotlin code takes:

- Objects whose methods update fields become Dafny classes. Their methods state the new state through pure specification functions.
- Pure computations become functions and lemmas.

| file | module | models |
|---|---|---|
| common.dfy | Wrappers, Numerics, Collections | Option/Result/Outcome for nulls and exceptions; JVM Long wrap-around and Double-to-Long truncation; list filtering and de-duplication |
| twkb_spec.dfy | TwkbSpec | the TWKB geometry parser (GeometryObjectParser.kt) as a value-level machine: the delta-decoded coordinate stream, the stack of parsers, one `parsePoint()` step |
| twkb_parser.dfy | TwkbParser | GeometryStream and GeometryObjectParser as classes, each method proved to follow TwkbSpec |
| vw_simplification.dfy | VisvalingamWhyatt | Visvalingam-Whyatt vertex weighting over linked Triangle objects and an area-sorted triangle list |
| regular_mesh.dfy | RegularMesh | RegularMeshDetector: the row and column mesh detectors |
| boxplot_stat.dfy | BoxplotStat | BoxplotStatUtil.buildStat: binning, fences, whiskers, outliers, and the nine statistic columns |
| tooltip_spec.dfy | TooltipSpecs | TooltipSpecFactory and its per-target spec builder |
| observable_set.dfy | ObservableSets | AbstractObservableSet and its iterator, with the events they fire |
| value_property.dfy | ValueProperties | ValueProperty and its lazily created handler container |
| observable_array_list.dfy | ObservableArrayLists | ObservableArrayList and its container, which exists only while the list has items |
| hints_collection.dfy | HintsCollections | HintsCollection, HintConfigFactory and HintConfig |
| guide_config.dfy | GuideConfigs | GuideConfig: legend, colour-bar and "none" guide options |
| canvas_context.dfy | CanvasContexts | Context2DCanvasContext as a trace of canvas commands |
| live_map.dfy | LiveMaps | LiveMap's frame throttle (UpdateController), first-tick initialisation, double-click zoom guard, executor choice |
| line_type.dfy | LineTypes | NamedLineType codes and dash arrays |
| instant.dfy | Instants | Instant arithmetic, comparison and equality on Long milliseconds |
| fluent_array.dfy | FluentArrays | FluentArray, a JSON array builder |

## Highlights

TwkbSpec:

- Under a stack invariant, `parsePoint()` never reaches `popThisParser`'s IllegalStateException (`StepWellFormed`).
- Delta decoding yields prefix sums of the deltas, and the sums carry over between reads.
- A LineString, a MultiPoint, a Polygon, a MultiLineString and a MultiPolygon complete after exactly the steps their input takes, and deliver their points, rings and polygons in read order, with the caller's ids where the parser has them. A PointsParser under a PolygonParser or a MultiLineStringParser hands its list to that parent.

VisvalingamWhyatt:

- The weights written are a running maximum, so they never decrease.
- A weight other than INITIAL_AREA marks exactly the vertices taken.
- The list `add()` keeps sorted stays a sorted permutation.

Instants: `compareTo` is wrong for far-apart instants (see Findings).

## Model

| member | source | states |
|---|---|---|
| Numerics.WrapLong | base/src/jvmMain/kotlin/datetime/Instant.kt:5-7 | a Long operation's result is a Long congruent to the exact result modulo 2^64, and equal to it when it fits |
| Numerics.WrapUnique | base/src/jvmMain/kotlin/datetime/Instant.kt:5-15 | the wrapped value is the only Long congruent to the exact one, which closes the wrap-around round trips |
| Numerics.TruncateToInt | livemap/src/commonMain/kotlin/jetbrains/livemap/LiveMap.kt:371 | Double.toLong() rounds toward zero: for a non-negative value the result is its floor, for a negative one its ceiling |
| Numerics.Abs | visualization-plot-gog/src/jvmMain/kotlin/common/data/RegularMeshDetector.kt:16-18 | the absolute difference in equalsEnough is non-negative and is the value or its negation |
| Collections.Filter | visualization-plot-gog/src/jvmMain/kotlin/config/event3/TooltipSpecFactory.kt:96 | removeIf keeps exactly the elements the predicate keeps, and never lengthens the list |
| Collections.FilterTwice | visualization-plot-gog/src/jvmMain/kotlin/config/event3/TooltipSpecFactory.kt:92-98 | two successive removeIf calls remove what either predicate removes |
| Collections.FilterAgree | visualization-plot-gog/src/jvmMain/kotlin/config/event3/TooltipSpecFactory.kt:92-98 | removeIf with predicates that agree on the list's elements gives the same list |
| Collections.FilterAll | visualization-plot-gog/src/jvmMain/kotlin/config/event3/TooltipSpecFactory.kt:128-130 | removeIf with a predicate that removes nothing leaves the list unchanged |
| Collections.Dedup | visualization-plot-gog/src/jvmMain/kotlin/config/event3/TooltipSpecFactory.kt:188-190 | a list that skips strings it already holds has no duplicates and the same elements as its input |
| TwkbSpec.ReadCount | gis/src/commonMain/kotlin/jetbrains/gis/common/twkb/GeometryObjectParser.kt:252-254 | readCount succeeds exactly when a value is left, returns it and advances one position |
| TwkbSpec.SumXStep | gis/src/commonMain/kotlin/jetbrains/gis/common/twkb/GeometryObjectParser.kt:246-250 | a prefix sum of x- or y-deltas is the first delta plus the prefix sum from the next point on |
| TwkbSpec.ReadPointsPrefixSums | gis/src/commonMain/kotlin/jetbrains/gis/common/twkb/GeometryObjectParser.kt:242-250 | reading n points succeeds exactly when 2n values are left; point k is the starting sums plus the first k+1 x- and y-deltas; the sums carry on and are never reset |
| TwkbSpec.AsPoints | gis/src/commonMain/kotlin/jetbrains/gis/common/twkb/GeometryObjectParser.kt:164-174 | a PointsParser's vectors become one Point geometry each, in order |
| TwkbSpec.Pop | gis/src/commonMain/kotlin/jetbrains/gis/common/twkb/GeometryObjectParser.kt:92-99 | popParser removes exactly one parser from the stack |
| TwkbSpec.Deliver | gis/src/commonMain/kotlin/jetbrains/gis/common/twkb/GeometryObjectParser.kt:188-194 | a finished parser handing its result on never moves the stream or the id counter; results already delivered to callers stay; the stack never grows |
| TwkbSpec.Step | gis/src/commonMain/kotlin/jetbrains/gis/common/twkb/GeometryObjectParser.kt:25-27 | parsePoint on an empty stack does nothing; a successful step never moves the read position back and never retracts a delivery |
| TwkbSpec.DeliverWellFormed | gis/src/commonMain/kotlin/jetbrains/gis/common/twkb/GeometryObjectParser.kt:188-194 | when the stack invariant holds and the sink is on top, delivery always succeeds and keeps the invariant |
| TwkbSpec.PopWellFormed | gis/src/commonMain/kotlin/jetbrains/gis/common/twkb/GeometryObjectParser.kt:105-110 | popping the top keeps the invariant and leaves the popped parser's parent on top |
| TwkbSpec.PushWellFormed | gis/src/commonMain/kotlin/jetbrains/gis/common/twkb/GeometryObjectParser.kt:88-90 | pushing a caller's parser, or a child directly above its parent, keeps the stack invariant |
| TwkbSpec.StepWellFormed | gis/src/commonMain/kotlin/jetbrains/gis/common/twkb/GeometryObjectParser.kt:25-27 | under the stack invariant, parsePoint either succeeds and keeps the invariant or runs out of input; the IllegalStateException of popThisParser is unreachable |
| TwkbSpec.StepPointWellFormed | gis/src/commonMain/kotlin/jetbrains/gis/common/twkb/GeometryObjectParser.kt:121-134 | the same for a PointParser on top |
| TwkbSpec.StepPointsWellFormed | gis/src/commonMain/kotlin/jetbrains/gis/common/twkb/GeometryObjectParser.kt:164-174 | the same for a PointsParser on top |
| TwkbSpec.StepNestedWellFormed | gis/src/commonMain/kotlin/jetbrains/gis/common/twkb/GeometryObjectParser.kt:176-195 | the same for a nested parser on top |
| TwkbSpec.RunOnEmptyStack | gis/src/commonMain/kotlin/jetbrains/gis/common/twkb/GeometryObjectParser.kt:25-31 | with no parser on the stack, any number of parsePoint calls change nothing |
| TwkbSpec.PointParserStep | gis/src/commonMain/kotlin/jetbrains/gis/common/twkb/GeometryObjectParser.kt:121-134 | a caller's PointParser succeeds exactly when two values are left; it reads one point, pops itself and delivers that point to its consumer |
| TwkbSpec.PointsParserProgress | gis/src/commonMain/kotlin/jetbrains/gis/common/twkb/GeometryObjectParser.kt:164-174 | a PointsParser short of its count gains one point per step, in read order, and stays on top; with a count of 0 or less it never completes |
| TwkbSpec.PointsParserCompletes | gis/src/commonMain/kotlin/jetbrains/gis/common/twkb/GeometryObjectParser.kt:164-174 | a caller's PointsParser needing j more points completes in exactly j steps and delivers all its points, in read order, wrapped as its kind |
| TwkbSpec.MultiPointCompletes | gis/src/commonMain/kotlin/jetbrains/gis/common/twkb/GeometryObjectParser.kt:206-216 | a caller's MultiPointParser needing j more points completes in exactly 2j steps and delivers the j points read, in order, as one MultiPoint with the caller's ids unchanged |
| TwkbSpec.MultiPointLast | gis/src/commonMain/kotlin/jetbrains/gis/common/twkb/GeometryObjectParser.kt:188-194 | the last point read completes the MultiPoint's list of parts |
| TwkbSpec.RunTwoSteps | gis/src/commonMain/kotlin/jetbrains/gis/common/twkb/GeometryObjectParser.kt:25-27 | two successful parsePoint steps advance a run by two |
| TwkbSpec.PushThenReadPoint | gis/src/commonMain/kotlin/jetbrains/gis/common/twkb/GeometryObjectParser.kt:184-194 | a multi-point child takes two steps: push a PointParser, then read, pop and hand the point to the parent, which completes and delivers or keeps waiting |
| TwkbSpec.PointsParserDelivers | gis/src/commonMain/kotlin/jetbrains/gis/common/twkb/GeometryObjectParser.kt:164-174 | a PointsParser needing j more points, whatever its sink, pops itself after exactly j steps and hands all its points, in read order and wrapped as its kind, to its sink: a caller's consumer or the PolygonParser or MultiLineStringParser below it |
| TwkbSpec.ReadLists | gis/src/commonMain/kotlin/jetbrains/gis/common/twkb/GeometryObjectParser.kt:176-195 | the stream layout of j point lists: it yields exactly j lists and uses one parser id per list |
| TwkbSpec.Wrapped | gis/src/commonMain/kotlin/jetbrains/gis/common/twkb/GeometryObjectParser.kt:197-204 | each list of points becomes one LineString or Ring of those points, in order |
| TwkbSpec.RunAdd | gis/src/commonMain/kotlin/jetbrains/gis/common/twkb/GeometryObjectParser.kt:25-27 | a + b parsePoint calls are a calls followed by b calls |
| TwkbSpec.StepNested | gis/src/commonMain/kotlin/jetbrains/gis/common/twkb/GeometryObjectParser.kt:184-186 | a nested parser's parsePoint pushes the child it makes directly above itself with the next id, and that is the whole step |
| TwkbSpec.ListChildDelivers | gis/src/commonMain/kotlin/jetbrains/gis/common/twkb/GeometryObjectParser.kt:184-194 | the next child list of a PolygonParser or MultiLineStringParser takes one step plus one per point and arrives at its parent as one LineString or Ring |
| TwkbSpec.ListChildAppends | gis/src/commonMain/kotlin/jetbrains/gis/common/twkb/GeometryObjectParser.kt:188-194 | a child list that is not the parent's last is appended to its parts and the parent stays on top |
| TwkbSpec.ListChildCompletes | gis/src/commonMain/kotlin/jetbrains/gis/common/twkb/GeometryObjectParser.kt:188-194 | a child list that is the parent's last completes the parent, which pops itself and hands on all its parts |
| TwkbSpec.NestedListsComplete | gis/src/commonMain/kotlin/jetbrains/gis/common/twkb/GeometryObjectParser.kt:176-204 | a PolygonParser or MultiLineStringParser needing j more lists completes after exactly the steps those lists take, with any sink, and hands on its earlier parts followed by the j lists read, in order |
| TwkbSpec.NestedListsMore | gis/src/commonMain/kotlin/jetbrains/gis/common/twkb/GeometryObjectParser.kt:176-204 | when more than one list is left, the first list read is appended to the parent's parts and the remaining lists then complete the parent, so the whole run delivers all the lists in read order |
| TwkbSpec.PolygonCompletes | gis/src/commonMain/kotlin/jetbrains/gis/common/twkb/GeometryObjectParser.kt:46-48 | a caller's PolygonParser delivers one Polygon of its earlier rings and the j rings read, in order, to its consumer, and leaves the parsers below it alone |
| TwkbSpec.ReadPolygons | gis/src/commonMain/kotlin/jetbrains/gis/common/twkb/GeometryObjectParser.kt:230-240 | the stream layout of j polygons: it yields exactly j polygons |
| TwkbSpec.PushPolygonChild | gis/src/commonMain/kotlin/jetbrains/gis/common/twkb/GeometryObjectParser.kt:184-186 | a MultiPolygonParser's parsePoint reads a ring count and pushes a PolygonParser above itself |
| TwkbSpec.PolygonChildDelivers | gis/src/commonMain/kotlin/jetbrains/gis/common/twkb/GeometryObjectParser.kt:184-204 | the next polygon of a MultiPolygonParser arrives at it as one Polygon of the rings read, after one step for the push and the steps of its rings |
| TwkbSpec.PolygonChildAppends | gis/src/commonMain/kotlin/jetbrains/gis/common/twkb/GeometryObjectParser.kt:188-194 | a polygon that is not the MultiPolygonParser's last is appended to its parts and the parser stays on top |
| TwkbSpec.PolygonChildCompletes | gis/src/commonMain/kotlin/jetbrains/gis/common/twkb/GeometryObjectParser.kt:188-194 | the last polygon completes the MultiPolygonParser, which pops itself and hands on all its parts |
| TwkbSpec.MultiPolygonCompletes | gis/src/commonMain/kotlin/jetbrains/gis/common/twkb/GeometryObjectParser.kt:70-78 | a MultiPolygonParser needing j more polygons completes after exactly the steps those polygons take and hands on its earlier polygons followed by the j polygons read, in order, to its sink with the caller's ids |
| TwkbSpec.MultiPolygonMore | gis/src/commonMain/kotlin/jetbrains/gis/common/twkb/GeometryObjectParser.kt:70-78 | when more than one polygon is left, the first polygon read is appended and the remaining polygons then complete the MultiPolygonParser, delivering all polygons in read order |
| TwkbParser.GeometryStream.constructor | gis/src/commonMain/kotlin/jetbrains/gis/common/twkb/GeometryObjectParser.kt:242-244 | a new stream starts at position 0 with both running sums 0 |
| TwkbParser.GeometryStream.ReadPoint | gis/src/commonMain/kotlin/jetbrains/gis/common/twkb/GeometryObjectParser.kt:246-250 | readPoint follows TwkbSpec.ReadPoint; input that ends after the x-delta leaves x advanced and y unchanged |
| TwkbParser.GeometryStream.ReadCount | gis/src/commonMain/kotlin/jetbrains/gis/common/twkb/GeometryObjectParser.kt:252-254 | readCount follows TwkbSpec.ReadCount and changes nothing at the end of the input |
| TwkbParser.GeometryObjectParser.constructor | gis/src/commonMain/kotlin/jetbrains/gis/common/twkb/GeometryObjectParser.kt:17-23 | a new parser has an empty stack over a fresh stream at position 0 |
| TwkbParser.GeometryObjectParser.ParsingObject | gis/src/commonMain/kotlin/jetbrains/gis/common/twkb/GeometryObjectParser.kt:29-31 | parsingObject is true exactly when a parser is on the stack |
| TwkbParser.GeometryObjectParser.ParsePoint | gis/src/commonMain/kotlin/jetbrains/gis/common/twkb/GeometryObjectParser.kt:25-27 | parsePoint moves the parser state exactly as TwkbSpec.Step does; at the end of the input it leaves the stack, the ids and the deliveries alone |
| TwkbParser.GeometryObjectParser.StepPointParser | gis/src/commonMain/kotlin/jetbrains/gis/common/twkb/GeometryObjectParser.kt:125-133 | PointParser.parsePoint follows TwkbSpec.Step |
| TwkbParser.GeometryObjectParser.StepPointsParser | gis/src/commonMain/kotlin/jetbrains/gis/common/twkb/GeometryObjectParser.kt:167-173 | PointsParser.parsePoint follows TwkbSpec.Step |
| TwkbParser.GeometryObjectParser.StepNestedParser | gis/src/commonMain/kotlin/jetbrains/gis/common/twkb/GeometryObjectParser.kt:184-186 | a nested parser's parsePoint pushes its next child, as TwkbSpec.Step does |
| TwkbParser.GeometryObjectParser.PushPoint | gis/src/commonMain/kotlin/jetbrains/gis/common/twkb/GeometryObjectParser.kt:33-35 | parsePoint(onParse) pushes a PointParser for the caller with the next id |
| TwkbParser.GeometryObjectParser.PushLineString | gis/src/commonMain/kotlin/jetbrains/gis/common/twkb/GeometryObjectParser.kt:37-44 | parseLineString reads a count, then pushes a PointsParser; at the end of the input nothing changes |
| TwkbParser.GeometryObjectParser.PushPolygon | gis/src/commonMain/kotlin/jetbrains/gis/common/twkb/GeometryObjectParser.kt:46-48 | parsePolygon reads a ring count, then pushes a PolygonParser; at the end of the input nothing changes |
| TwkbParser.GeometryObjectParser.PushMultiPoint | gis/src/commonMain/kotlin/jetbrains/gis/common/twkb/GeometryObjectParser.kt:50-58 | parseMultiPoint pushes a MultiPointParser carrying the caller's count and ids |
| TwkbParser.GeometryObjectParser.PushMultiLine | gis/src/commonMain/kotlin/jetbrains/gis/common/twkb/GeometryObjectParser.kt:60-68 | parseMultiLine pushes a MultiLineStringParser carrying the caller's count and ids |
| TwkbParser.GeometryObjectParser.PushMultiPolygon | gis/src/commonMain/kotlin/jetbrains/gis/common/twkb/GeometryObjectParser.kt:70-78 | pushMultiPolygon pushes a MultiPolygonParser carrying the caller's count and ids |
| TwkbParser.GeometryObjectParser.PushParser | gis/src/commonMain/kotlin/jetbrains/gis/common/twkb/GeometryObjectParser.kt:88-90 | pushParser puts the parser on top and uses up one id |
| TwkbParser.GeometryObjectParser.PopThisParser | gis/src/commonMain/kotlin/jetbrains/gis/common/twkb/GeometryObjectParser.kt:92-110 | an empty stack is an IllegalStateException; otherwise the top is removed, and it is an error exactly when the top is not the caller |
| TwkbParser.GeometryObjectParser.Deliver | gis/src/commonMain/kotlin/jetbrains/gis/common/twkb/GeometryObjectParser.kt:188-194 | the chain of onNestedParsed calls on the stack ends in exactly the state TwkbSpec.Deliver describes |
| VisvalingamWhyatt.TriangleArea | visualization-plot-gog/src/jvmMain/kotlin/common/geometry/VisvalingamWhyattSimplification.kt:136-142 | a triangle's area is non-negative, and zero exactly when its three points are collinear |
| VisvalingamWhyatt.TriangleAreaSymmetric | visualization-plot-gog/src/jvmMain/kotlin/common/geometry/VisvalingamWhyattSimplification.kt:136-142 | the area is the same with the triangle walked backwards or rotated |
| VisvalingamWhyatt.DegenerateTriangleArea | visualization-plot-gog/src/jvmMain/kotlin/common/geometry/VisvalingamWhyattSimplification.kt:136-142 | a triangle whose apex repeats an end point has no area |
| VisvalingamWhyatt.Triangle.constructor | visualization-plot-gog/src/jvmMain/kotlin/common/geometry/VisvalingamWhyattSimplification.kt:110-122 | a new triangle spans vertices currentVertex-1, currentVertex and currentVertex+1 with no links, and its area is the area they span |
| VisvalingamWhyatt.Triangle.TakeNextFrom | visualization-plot-gog/src/jvmMain/kotlin/common/geometry/VisvalingamWhyattSimplification.kt:124-128 | takeNextFrom takes the removed triangle's next vertex and link, keeps its own previous side and recomputes its area |
| VisvalingamWhyatt.Triangle.TakePrevFrom | visualization-plot-gog/src/jvmMain/kotlin/common/geometry/VisvalingamWhyattSimplification.kt:130-134 | takePrevFrom takes the removed triangle's previous vertex and link, keeps its own next side and recomputes its area |
| VisvalingamWhyatt.RemoveFirst | visualization-plot-gog/src/jvmMain/kotlin/common/geometry/VisvalingamWhyattSimplification.kt:105-108 | MutableList.remove removes one occurrence of a member and changes nothing for a non-member |
| VisvalingamWhyatt.UpdateKeepsMembers | visualization-plot-gog/src/jvmMain/kotlin/common/geometry/VisvalingamWhyattSimplification.kt:105-108 | update keeps every triangle that was in the list, including the one it moves |
| VisvalingamWhyatt.Twice | visualization-plot-gog/src/jvmMain/kotlin/common/geometry/VisvalingamWhyattSimplification.kt:26-47 | each pass records its vertex in verticesToRemove twice in a row |
| VisvalingamWhyatt.AppendRemoval | visualization-plot-gog/src/jvmMain/kotlin/common/geometry/VisvalingamWhyattSimplification.kt:28-33 | one more pass overwrites exactly its vertex's weight with the new running maximum |
| VisvalingamWhyatt.RunningMaximumMonotone | visualization-plot-gog/src/jvmMain/kotlin/common/geometry/VisvalingamWhyattSimplification.kt:24-33 | the weights, in removal order, never decrease; each is at least its own triangle's area and non-negative |
| VisvalingamWhyatt.WeightsOrdered | visualization-plot-gog/src/jvmMain/kotlin/common/geometry/VisvalingamWhyattSimplification.kt:24-33 | a weight written later is never smaller than one written earlier |
| VisvalingamWhyatt.WeightNonNegative | visualization-plot-gog/src/jvmMain/kotlin/common/geometry/VisvalingamWhyattSimplification.kt:24-33 | every weight written is non-negative |
| VisvalingamWhyatt.Replay | visualization-plot-gog/src/jvmMain/kotlin/common/geometry/VisvalingamWhyattSimplification.kt:21-33 | the weights list has one entry per point |
| VisvalingamWhyatt.ReplayWeights | visualization-plot-gog/src/jvmMain/kotlin/common/geometry/VisvalingamWhyattSimplification.kt:21-33 | a vertex's weight is other than INITIAL_AREA exactly when some pass took it, and then it is that vertex's last weight; the two end points keep INITIAL_AREA |
| VisvalingamWhyatt.Simplification.constructor | visualization-plot-gog/src/jvmMain/kotlin/common/geometry/VisvalingamWhyattSimplification.kt:11-12 | a new simplification has no triangles and no vertices to remove |
| VisvalingamWhyatt.Simplification.GetWeights | visualization-plot-gog/src/jvmMain/kotlin/common/geometry/VisvalingamWhyattSimplification.kt:20-51 | fewer than two points throw IllegalArgumentException; otherwise the weights are those the passes wrote over INITIAL_AREA, every interior vertex gets a weight, and the weights grow in removal order |
| VisvalingamWhyatt.Simplification.RemoveTriangles | visualization-plot-gog/src/jvmMain/kotlin/common/geometry/VisvalingamWhyattSimplification.kt:25-48 | the loop writes the running maximum of the areas taken; every interior vertex has a weight or a triangle still queued |
| VisvalingamWhyatt.Simplification.Pass | visualization-plot-gog/src/jvmMain/kotlin/common/geometry/VisvalingamWhyattSimplification.kt:26-47 | one pass takes the first triangle, an interior vertex with a non-negative area, records it twice and keeps the remaining queued triangles queued |
| VisvalingamWhyatt.Simplification.Relink | visualization-plot-gog/src/jvmMain/kotlin/common/geometry/VisvalingamWhyattSimplification.kt:35-45 | the taken triangle's next neighbour (when it is not also the previous one) now starts at the taken triangle's previous vertex and link, the previous neighbour now ends at its next vertex and link, both with their areas recomputed, the previous neighbour ends the list, no queued triangle is lost and no other triangle changes |
| VisvalingamWhyatt.Simplification.RelinkNext | visualization-plot-gog/src/jvmMain/kotlin/common/geometry/VisvalingamWhyattSimplification.kt:35-39 | the next neighbour, if any, takes the taken triangle's prev link and prevVertex, keeps its own next side, has its area recomputed from its new vertices, and is moved from its place in the list to the end; without a next neighbour the list is unchanged; no other triangle changes |
| VisvalingamWhyatt.Simplification.RelinkPrev | visualization-plot-gog/src/jvmMain/kotlin/common/geometry/VisvalingamWhyattSimplification.kt:41-45 | the previous neighbour, if any, takes the taken triangle's next link and nextVertex, keeps its own prev side, has its area recomputed from its new vertices, and is moved from its place in the list to the end; without a previous neighbour the list is unchanged; no other triangle changes |
| VisvalingamWhyatt.Simplification.TakeTriangle | visualization-plot-gog/src/jvmMain/kotlin/common/geometry/VisvalingamWhyattSimplification.kt:76-80 | takeTriangle polls the list's head and records its vertex once |
| VisvalingamWhyatt.Simplification.GetIndex | visualization-plot-gog/src/jvmMain/kotlin/common/geometry/VisvalingamWhyattSimplification.kt:87-93 | on a list sorted by area, the binary-search index splits it into areas no greater and areas no smaller than the triangle's |
| VisvalingamWhyatt.Simplification.Add | visualization-plot-gog/src/jvmMain/kotlin/common/geometry/VisvalingamWhyattSimplification.kt:82-85 | add inserts exactly one triangle and keeps a sorted list sorted |
| VisvalingamWhyatt.Simplification.Update | visualization-plot-gog/src/jvmMain/kotlin/common/geometry/VisvalingamWhyattSimplification.kt:105-108 | update removes the triangle and appends it at the end |
| VisvalingamWhyatt.Simplification.InitTriangles | visualization-plot-gog/src/jvmMain/kotlin/common/geometry/VisvalingamWhyattSimplification.kt:53-74 | one fresh triangle per interior vertex; links as the link loop leaves them; the list is a sorted permutation of the triangles |
| VisvalingamWhyatt.Simplification.AddAll | visualization-plot-gog/src/jvmMain/kotlin/common/geometry/VisvalingamWhyattSimplification.kt:73 | adding each triangle in turn gives a sorted permutation of them |
| VisvalingamWhyatt.InsertAt | visualization-plot-gog/src/jvmMain/kotlin/common/geometry/VisvalingamWhyattSimplification.kt:82-85 | inserting at a split point adds one element and keeps a sorted list sorted |
| VisvalingamWhyatt.InsertAtSorted | visualization-plot-gog/src/jvmMain/kotlin/common/geometry/VisvalingamWhyattSimplification.kt:82-85 | inserting between the smaller and the larger areas keeps the list sorted |
| VisvalingamWhyatt.CreateTriangles | visualization-plot-gog/src/jvmMain/kotlin/common/geometry/VisvalingamWhyattSimplification.kt:56-63 | triangle k is fresh, has apex k+1 and no links |
| VisvalingamWhyatt.LinkTriangles | visualization-plot-gog/src/jvmMain/kotlin/common/geometry/VisvalingamWhyattSimplification.kt:65-71 | only positions 1 .. size-2 get links to their neighbours; vertices and areas stay as they were |
| RegularMesh.EqualsEnough | visualization-plot-gog/src/jvmMain/kotlin/common/data/RegularMeshDetector.kt:16-18 | equal values are always close enough; otherwise they are close exactly when they differ by at most the error (a negative error allows equality only) |
| RegularMesh.NearZero | visualization-plot-gog/src/jvmMain/kotlin/common/data/RegularMeshDetector.kt:20-22 | nearZero holds exactly for values in [-error, error] |
| RegularMesh.EqualsEnoughReflexiveSymmetric | visualization-plot-gog/src/jvmMain/kotlin/common/data/RegularMeshDetector.kt:16-18 | equalsEnough is reflexive and symmetric |
| RegularMesh.DetectRow | visualization-plot-gog/src/jvmMain/kotlin/common/data/RegularMeshDetector.kt:31-67 | the row detector reports a mesh exactly for a row: the first minRowSize values are present, no gap is near zero, every gap is within the error of the first; its resolution is the first gap's size |
| RegularMesh.RunLength | visualization-plot-gog/src/jvmMain/kotlin/common/data/RegularMeshDetector.kt:84-103 | a run is the longest stretch of values joining its base value |
| RegularMesh.ColumnScan | visualization-plot-gog/src/jvmMain/kotlin/common/data/RegularMeshDetector.kt:84-103 | the first run starts at the first value; the second starts at the first value that does not join the first; both sizes fit in the list |
| RegularMesh.ColumnScanNull | visualization-plot-gog/src/jvmMain/kotlin/common/data/RegularMeshDetector.kt:84-88 | a null met inside either run ends the column scan with no mesh |
| RegularMesh.ColumnScanRuns | visualization-plot-gog/src/jvmMain/kotlin/common/data/RegularMeshDetector.kt:89-103 | a scan that stops at the end, or at a value joining neither run, yields the two runs with their first values |
| RegularMesh.ScanStart | visualization-plot-gog/src/jvmMain/kotlin/common/data/RegularMeshDetector.kt:89-91 | the first value starts the first run |
| RegularMesh.ScanJoin | visualization-plot-gog/src/jvmMain/kotlin/common/data/RegularMeshDetector.kt:92-93 | a value close to the current run's value lengthens that run |
| RegularMesh.ScanSecondRun | visualization-plot-gog/src/jvmMain/kotlin/common/data/RegularMeshDetector.kt:95-98 | the first value that leaves the first run starts the second run |
| RegularMesh.RunLengthExtends | visualization-plot-gog/src/jvmMain/kotlin/common/data/RegularMeshDetector.kt:92-93 | a run reaching index i that takes values[i] reaches i + 1 |
| RegularMesh.RunLengthStops | visualization-plot-gog/src/jvmMain/kotlin/common/data/RegularMeshDetector.kt:94-101 | a run reaching index i that rejects values[i] ends there |
| RegularMesh.ScanColumn | visualization-plot-gog/src/jvmMain/kotlin/common/data/RegularMeshDetector.kt:81-103 | the scanning loop over the two-slot buffers computes the column scan |
| RegularMesh.DetectColumn | visualization-plot-gog/src/jvmMain/kotlin/common/data/RegularMeshDetector.kt:76-110 | the column detector reports a mesh exactly when the runs have equal length of at least minRowSize, with the two run values' distance as resolution; no values with minRowSize <= 0 is a NullPointerException |
| RegularMesh.MeshDetector.NoMesh | visualization-plot-gog/src/jvmMain/kotlin/common/data/RegularMeshDetector.kt:114-120 | NO_MESH is not a mesh |
| RegularMesh.MeshDetector.constructor | visualization-plot-gog/src/jvmMain/kotlin/common/data/RegularMeshDetector.kt:6-14 | a detector holds the mesh flag and resolution it was given |
| RegularMesh.MeshDetector.Resolution | visualization-plot-gog/src/jvmMain/kotlin/common/data/RegularMeshDetector.kt:9-14 | the resolution is available exactly for a mesh; otherwise it is an error |
| RegularMesh.TryRowWith | visualization-plot-gog/src/jvmMain/kotlin/common/data/RegularMeshDetector.kt:137-139 | tryRow(minRowSize, error, values) gives a mesh exactly for a row |
| RegularMesh.TryRow | visualization-plot-gog/src/jvmMain/kotlin/common/data/RegularMeshDetector.kt:122-135 | fewer than two values, or a null among the first two, is no mesh; otherwise a row of 50 within a ten-thousandth of the first gap |
| RegularMesh.TryColumnWith | visualization-plot-gog/src/jvmMain/kotlin/common/data/RegularMeshDetector.kt:145-147 | tryColumn(minRowSize, error, values) fails exactly for no values with minRowSize <= 0; otherwise it is a mesh exactly for two equal runs of at least minRowSize |
| RegularMesh.TryColumn | visualization-plot-gog/src/jvmMain/kotlin/common/data/RegularMeshDetector.kt:141-143 | tryColumn(values) is a mesh exactly for two equal runs of at least 50 |
| BoxplotStat.Column | visualization-plot-gog/src/jvmMain/kotlin/core/data/stat/BoxplotStatUtil.kt:114-122 | a statistic column holds that variable's field of every row, in order |
| BoxplotStat.SeqMin | visualization-plot-gog/src/jvmMain/kotlin/core/data/stat/BoxplotStatUtil.kt:72-76 | the smallest value within the fences is one of them and no greater than any |
| BoxplotStat.SeqMax | visualization-plot-gog/src/jvmMain/kotlin/core/data/stat/BoxplotStatUtil.kt:72-76 | the largest value within the fences is one of them and no smaller than any |
| BoxplotStat.Whiskers | visualization-plot-gog/src/jvmMain/kotlin/core/data/stat/BoxplotStatUtil.kt:69-77 | the whiskers are the smallest and largest bin values within the fences, or the fences themselves when none lies within |
| BoxplotStat.Outliers | visualization-plot-gog/src/jvmMain/kotlin/core/data/stat/BoxplotStatUtil.kt:80 | the outliers are exactly the bin's values outside the fences |
| BoxplotStat.BinRows | visualization-plot-gog/src/jvmMain/kotlin/core/data/stat/BoxplotStatUtil.kt:79-111 | a bin adds one row per outlier (y set, box fields NaN), then the box row (middle, hinges, whiskers); all carry x, the bin's size as width, and the group |
| BoxplotStat.AddBin | visualization-plot-gog/src/jvmMain/kotlin/core/data/stat/BoxplotStatUtil.kt:80-111 | the outlier loop and the box append compute the bin's rows |
| BoxplotStat.Bins | visualization-plot-gog/src/jvmMain/kotlin/core/data/stat/BoxplotStatUtil.kt:30-40 | the bins of the first loop, built pair by pair; no bin is ever empty |
| BoxplotStat.BinsSnoc | visualization-plot-gog/src/jvmMain/kotlin/core/data/stat/BoxplotStatUtil.kt:32-39 | one more pair joins its x's bin when both values are finite and is dropped otherwise |
| BoxplotStat.BinsKeys | visualization-plot-gog/src/jvmMain/kotlin/core/data/stat/BoxplotStatUtil.kt:30-40 | a bin exists exactly for each x of a pair whose x and y are both finite |
| BoxplotStat.BinOfSnoc | visualization-plot-gog/src/jvmMain/kotlin/core/data/stat/BoxplotStatUtil.kt:32-39 | a pair appended at the end adds its y to the end of its own x's bin, when both are finite, and to no other bin |
| BoxplotStat.BinsContents | visualization-plot-gog/src/jvmMain/kotlin/core/data/stat/BoxplotStatUtil.kt:30-40 | the bin of x holds exactly the finite y values of the pairs whose x is that finite value, in input order (BinOf); a value with no such pair has no bin |
| BoxplotStat.BinValues | visualization-plot-gog/src/jvmMain/kotlin/core/data/stat/BoxplotStatUtil.kt:30-40 | when ys has a value for every x, the first loop builds exactly Bins: the finite pairs grouped by x, each bin in input order (BinsContents) |
| BoxplotStat.AllRows | visualization-plot-gog/src/jvmMain/kotlin/core/data/stat/BoxplotStatUtil.kt:58-112 | every bin adds at least one row |
| BoxplotStat.BuildRows | visualization-plot-gog/src/jvmMain/kotlin/core/data/stat/BoxplotStatUtil.kt:57-112 | each bin is visited once, in some order, and adds its rows; maxCount is the size of the largest bin, 0 with no bins |
| BoxplotStat.Collector.constructor | visualization-plot-gog/src/jvmMain/kotlin/core/data/stat/BoxplotStatUtil.kt:17-28 | a new collector has no columns |
| BoxplotStat.Initialized | visualization-plot-gog/src/jvmMain/kotlin/core/data/stat/BoxplotStatUtil.kt:18-28 | an empty collector gets nine empty columns; a filled one keeps its own |
| BoxplotStat.Reached | visualization-plot-gog/src/jvmMain/kotlin/core/data/stat/BoxplotStatUtil.kt:114-122 | the number of addAll statements that run before the first column missing from the collector: every earlier column is present and the one reached is missing |
| BoxplotStat.ReachedAll | visualization-plot-gog/src/jvmMain/kotlin/core/data/stat/BoxplotStatUtil.kt:114-122 | all nine statements run exactly when the collector holds all nine columns |
| BoxplotStat.StatIndex | visualization-plot-gog/src/jvmMain/kotlin/core/data/stat/BoxplotStatUtil.kt:114-122 | the position of each statistic variable among the nine addAll statements |
| BoxplotStat.IndexOfOrder | visualization-plot-gog/src/jvmMain/kotlin/core/data/stat/BoxplotStatUtil.kt:114-122 | the position of the i-th statement's variable is i |
| BoxplotStat.AppendStep | visualization-plot-gog/src/jvmMain/kotlin/core/data/stat/BoxplotStatUtil.kt:114-122 | one more addAll extends the columns appended so far by exactly the next column |
| BoxplotStat.AppendColumns | visualization-plot-gog/src/jvmMain/kotlin/core/data/stat/BoxplotStatUtil.kt:114-122 | the addAll statements append the rows to the columns in order; the first missing column is a NullPointerException, after the columns before it have been appended to |
| BoxplotStat.BuildStat | visualization-plot-gog/src/jvmMain/kotlin/core/data/stat/BoxplotStatUtil.kt:17-125 | an empty collector gets nine empty columns first; a ys shorter than xs is a NoSuchElementException; no finite pair returns 0; otherwise the bins' rows are appended column by column and the largest bin's size is returned, unless a partly filled collector lacks a column, which is a NullPointerException after the earlier columns were appended to |
| BoxplotStat.FullCollectorReachesAll | visualization-plot-gog/src/jvmMain/kotlin/core/data/stat/BoxplotStatUtil.kt:17-28 | an empty or complete collector never lacks a column, so every column gets the rows |
| BoxplotStat.RowCount | visualization-plot-gog/src/jvmMain/kotlin/core/data/stat/BoxplotStatUtil.kt:79-111 | the rows number one per bin plus one per outlier |
| BoxplotStat.RowsCarryWidthAndGroup | visualization-plot-gog/src/jvmMain/kotlin/core/data/stat/BoxplotStatUtil.kt:104-111 | every row carries its bin's size as width and the caller's group |
| TooltipSpecs.SpecBuilder.constructor | visualization-plot-gog/src/jvmMain/kotlin/config/event3/TooltipSpecFactory.kt:22-35 | the short labels are those of X and Y, when mapped; no specs yet; every tooltip aes still lacks a hint |
| TooltipSpecs.SpecBuilder.Format | visualization-plot-gog/src/jvmMain/kotlin/config/event3/TooltipSpecFactory.kt:170-179 | an empty or short label shows the value alone; any other shows "label: value" |
| TooltipSpecs.SpecBuilder.Lines | visualization-plot-gog/src/jvmMain/kotlin/config/event3/TooltipSpecFactory.kt:181-195 | every mapped aesthetic's formatted line is present, and every line comes from one |
| TooltipSpecs.SpecBuilder.MakeText | visualization-plot-gog/src/jvmMain/kotlin/config/event3/TooltipSpecFactory.kt:181-195 | makeText gives each mapped aesthetic's line once, without duplicates |
| TooltipSpecs.SpecBuilder.TextStep | visualization-plot-gog/src/jvmMain/kotlin/config/event3/TooltipSpecFactory.kt:186-192 | one more aesthetic adds its formatted line to the text exactly when it is mapped and the line is not there yet |
| TooltipSpecs.SpecBuilder.IsAxisTooltipAllowed | visualization-plot-gog/src/jvmMain/kotlin/config/event3/TooltipSpecFactory.kt:69-79 | an axis tooltip needs a continuous variable that is not a map coordinate |
| TooltipSpecs.SpecBuilder.IsContinuous | visualization-plot-gog/src/jvmMain/kotlin/config/event3/TooltipSpecFactory.kt:136-143 | isVariableContinuous is false for an unmapped aesthetic and otherwise is its mapped data's isContinuous |
| TooltipSpecs.SpecBuilder.IsMapped | visualization-plot-gog/src/jvmMain/kotlin/config/event3/TooltipSpecFactory.kt:197-199 | isMapped asks the data access (a parameter); what it answers is the caller's, and Lines, MappingsToShow and IsAxisTooltipAllowed state how the builder uses it |
| TooltipSpecs.SpecBuilder.Data | visualization-plot-gog/src/jvmMain/kotlin/config/event3/TooltipSpecFactory.kt:201-203 | getMappedData reads the data access at the target's hit index; Format, Lines and MappingsToShow state how its label, value and continuity are used |
| TooltipSpecs.SpecBuilder.CreateHintForAxis | visualization-plot-gog/src/jvmMain/kotlin/config/event3/TooltipSpecFactory.kt:145-155 | X and Y get an axis hint at the hit's coordinate and the axis origin, coloured for axes; any other aes is an IllegalArgumentException |
| TooltipSpecs.SpecBuilder.AxisSpecs | visualization-plot-gog/src/jvmMain/kotlin/config/event3/TooltipSpecFactory.kt:59-67 | at most one axis tooltip per axis aes, each an axis hint filled with the axis colour |
| TooltipSpecs.SpecBuilder.AxisSpecsFail | visualization-plot-gog/src/jvmMain/kotlin/config/event3/TooltipSpecFactory.kt:59-67 | the axis tooltips fail exactly when some allowed axis aes is neither X nor Y |
| TooltipSpecs.SpecBuilder.AddAxisTooltipSpec | visualization-plot-gog/src/jvmMain/kotlin/config/event3/TooltipSpecFactory.kt:59-67 | addAxisTooltipSpec appends the axis tooltips, or fails when AxisSpecs fails |
| TooltipSpecs.SpecBuilder.Fill | visualization-plot-gog/src/jvmMain/kotlin/config/event3/TooltipSpecFactory.kt:163 | a tooltip is filled with its hint's colour, else the target's |
| TooltipSpecs.SpecBuilder.AddHintTooltipSpec | visualization-plot-gog/src/jvmMain/kotlin/config/event3/TooltipSpecFactory.kt:157-168 | no aesthetics: nothing changes; otherwise one tooltip with their text and fill, and they no longer lack a hint |
| TooltipSpecs.SpecBuilder.RemoveAxisMapping | visualization-plot-gog/src/jvmMain/kotlin/config/event3/TooltipSpecFactory.kt:92-99 | exactly the aesthetics labelled like a continuous axis are removed |
| TooltipSpecs.SpecBuilder.AxisFilterStep | visualization-plot-gog/src/jvmMain/kotlin/config/event3/TooltipSpecFactory.kt:93-97 | one axis removes its label when continuous and nothing otherwise |
| TooltipSpecs.SpecBuilder.RemoveAutoGeneratedMappings | visualization-plot-gog/src/jvmMain/kotlin/config/event3/TooltipSpecFactory.kt:128-130 | with no generated names, nothing is removed |
| TooltipSpecs.SpecBuilder.RemoveMapIdMapping | visualization-plot-gog/src/jvmMain/kotlin/config/event3/TooltipSpecFactory.kt:132-134 | MAP_ID goes and every other aes stays |
| TooltipSpecs.SpecBuilder.FirstMapped | visualization-plot-gog/src/jvmMain/kotlin/config/event3/TooltipSpecFactory.kt:106-122 | an aesthetic of the list mapped under a label (continuous if asked); there is none exactly when no element matches |
| TooltipSpecs.SpecBuilder.FirstMappedIsFirst | visualization-plot-gog/src/jvmMain/kotlin/config/event3/TooltipSpecFactory.kt:106-122 | the aesthetic FirstMapped picks is the first matching one in list order: nothing before it matches |
| TooltipSpecs.SpecBuilder.FirstWinnerStep | visualization-plot-gog/src/jvmMain/kotlin/config/event3/TooltipSpecFactory.kt:106-122 | one more aesthetic changes the winner of its own label only, and only as the loop body does: it becomes the winner of a new label and replaces a discrete winner when it is continuous |
| TooltipSpecs.SpecBuilder.MappingsToShow | visualization-plot-gog/src/jvmMain/kotlin/config/event3/TooltipSpecFactory.kt:106-122 | the label map holds exactly the labels of mapped aesthetics, and under each one the first continuous aesthetic with that label if there is one, otherwise the first mapped one (FirstWinner); hence a continuous mapping whenever the label has one |
| TooltipSpecs.SpecBuilder.MapValues | visualization-plot-gog/src/jvmMain/kotlin/config/event3/TooltipSpecFactory.kt:124-125 | the label map's aesthetics, one per label, in the map's order |
| TooltipSpecs.SpecBuilder.RemoveDiscreteDuplicatedMappings | visualization-plot-gog/src/jvmMain/kotlin/config/event3/TooltipSpecFactory.kt:101-126 | the result keeps one mapped aesthetic per label, and for each label exactly its FirstWinner: the first continuous aesthetic with that label, else the first mapped one |
| TooltipSpecs.SpecBuilder.DedupProperties | visualization-plot-gog/src/jvmMain/kotlin/config/event3/TooltipSpecFactory.kt:106-125 | the label map and its values keep one mapped aesthetic per label and cover every label |
| TooltipSpecs.SpecBuilder.DedupWinners | visualization-plot-gog/src/jvmMain/kotlin/config/event3/TooltipSpecFactory.kt:106-125 | the values of a map holding each label's FirstWinner are exactly those winners: each kept aesthetic is its label's winner and every winner is kept |
| TooltipSpecs.SpecBuilder.AesListForTooltip | visualization-plot-gog/src/jvmMain/kotlin/config/event3/TooltipSpecFactory.kt:81-87 | the general list has no MAP_ID and no axis-labelled aesthetics, holds one mapped aesthetic per label, and covers every remaining label; the aesthetic kept for each label is its FirstWinner among the candidates: the first continuous one when there is one, else the first mapped one |
| TooltipSpecs.SpecBuilder.AddAesTooltipSpec | visualization-plot-gog/src/jvmMain/kotlin/config/event3/TooltipSpecFactory.kt:81-90 | the general tooltip over that list is appended under the target's hint, or nothing for an empty list; the list keeps for each label its FirstWinner among the candidate aesthetics |
| TooltipSpecs.SpecBuilder.HintSpecs | visualization-plot-gog/src/jvmMain/kotlin/config/event3/TooltipSpecFactory.kt:38 | one tooltip per hinted aes, with that aes's text and its hint's fill |
| TooltipSpecs.SpecBuilder.HintedAes | visualization-plot-gog/src/jvmMain/kotlin/config/event3/TooltipSpecFactory.kt:38 | the aesthetics of the target's hint map, in order |
| TooltipSpecs.SpecBuilder.HintsStep | visualization-plot-gog/src/jvmMain/kotlin/config/event3/TooltipSpecFactory.kt:38 | one more hint adds one tooltip and one hinted aes |
| TooltipSpecs.SpecBuilder.HintedFilterStep | visualization-plot-gog/src/jvmMain/kotlin/config/event3/TooltipSpecFactory.kt:167 | removing hinted aesthetics one hint at a time removes them all |
| TooltipSpecs.SpecBuilder.AddAesHints | visualization-plot-gog/src/jvmMain/kotlin/config/event3/TooltipSpecFactory.kt:38 | the per-aes loop appends one tooltip per hint and removes the hinted aesthetics from those lacking a hint |
| TooltipSpecs.SpecBuilder.CreateTooltipSpecs | visualization-plot-gog/src/jvmMain/kotlin/config/event3/TooltipSpecFactory.kt:37-45 | per-aes tooltips, then the general one, then the axis tooltips; the general one shows for each label its FirstWinner aesthetic; it fails exactly when the axis tooltips do |
| TooltipSpecs.TooltipSpecFactory.constructor | visualization-plot-gog/src/jvmMain/kotlin/config/event3/TooltipSpecFactory.kt:13-16 | the factory keeps the mapping's tooltip and axis aesthetics, its data access and the axis origin |
| TooltipSpecs.TooltipSpecFactory.Create | visualization-plot-gog/src/jvmMain/kotlin/config/event3/TooltipSpecFactory.kt:18-20 | create(target) is a fresh builder's createTooltipSpecs, with the same ordering, FirstWinner choice per label and failure condition |
| ObservableSets.Added | base/src/commonMain/kotlin/observable/collections/set/AbstractObservableSet.kt:22-33 | adding a present element answers false and changes nothing; otherwise doAdd decides, the element joins only on success, and one ADD event fires only on success with listeners |
| ObservableSets.AfterAdd | base/src/commonMain/kotlin/observable/collections/set/AbstractObservableSet.kt:40-52 | doAfterAdd fires one ADD event exactly on success with listeners and changes nothing else |
| ObservableSets.RemovedAfterCheck | base/src/commonMain/kotlin/observable/collections/set/AbstractObservableSet.kt:108-120 | a removal that succeeds takes the element out and fires one REMOVE event when listeners exist |
| ObservableSets.Removed | base/src/commonMain/kotlin/observable/collections/set/AbstractObservableSet.kt:54-65 | removing an absent element answers false and changes nothing; otherwise doRemove decides |
| ObservableSets.AddTwice | base/src/commonMain/kotlin/observable/collections/set/AbstractObservableSet.kt:22-23 | adding an element a second time answers false and changes nothing |
| ObservableSets.AddThenRemove | base/src/commonMain/kotlin/observable/collections/set/AbstractObservableSet.kt:22-65 | adding a new element and removing it restores the elements and, with listeners, fires ADD then REMOVE |
| ObservableSets.ObservableSet.constructor | base/src/commonMain/kotlin/observable/collections/set/AbstractObservableSet.kt:11-12 | a new set is empty, has no listener container and has fired nothing |
| ObservableSets.ObservableSet.AddListener | base/src/commonMain/kotlin/observable/collections/set/AbstractObservableSet.kt:15-20 | the first addListener creates the container, and every call registers its listener |
| ObservableSets.ObservableSet.AddElement | base/src/commonMain/kotlin/observable/collections/set/AbstractObservableSet.kt:22-33 | add changes the set and fires events as Added says |
| ObservableSets.ObservableSet.DoAfterAdd | base/src/commonMain/kotlin/observable/collections/set/AbstractObservableSet.kt:40-52 | doAfterAdd fires as AfterAdd says |
| ObservableSets.ObservableSet.RemoveElement | base/src/commonMain/kotlin/observable/collections/set/AbstractObservableSet.kt:54-65 | remove changes the set and fires events as Removed says |
| ObservableSets.ObservableSet.DoAfterRemove | base/src/commonMain/kotlin/observable/collections/set/AbstractObservableSet.kt:108-120 | doAfterRemove fires one REMOVE event exactly on success with listeners |
| ObservableSets.ObservableSet.Iterator | base/src/commonMain/kotlin/observable/collections/set/AbstractObservableSet.kt:67-72 | the iterator yields exactly the set's elements, each exactly once (no duplicates, as many as the set holds), and nothing for an empty set |
| ObservableSets.SetIterator.constructor | base/src/commonMain/kotlin/observable/collections/set/AbstractObservableSet.kt:72-74 | a new iterator cannot remove yet |
| ObservableSets.SetIterator.HasNext | base/src/commonMain/kotlin/observable/collections/set/AbstractObservableSet.kt:76-78 | hasNext is true exactly when elements remain |
| ObservableSets.SetIterator.Next | base/src/commonMain/kotlin/observable/collections/set/AbstractObservableSet.kt:80-84 | next returns the next element and allows one remove; with nothing left it throws and changes nothing |
| ObservableSets.SetIterator.Remove | base/src/commonMain/kotlin/observable/collections/set/AbstractObservableSet.kt:86-99 | remove without a preceding next is an IllegalStateException that changes nothing; otherwise the last element leaves the set with a REMOVE event |
| ObservableSets.RemoveTwice | base/src/commonMain/kotlin/observable/collections/set/AbstractObservableSet.kt:86-90 | a second remove in a row is refused |
| ValueProperties.ChangeEvents | base/src/commonMain/kotlin/observable/property/ValueProperty.kt:28-43 | set fires at most one event: exactly when handlers exist and the value changes, carrying the old and new value |
| ValueProperties.WithoutHandler | base/src/commonMain/kotlin/observable/property/ValueProperty.kt:46-51 | removing a handler keeps the others; once none is left the container is dropped |
| ValueProperties.AddThenRemoveHandler | base/src/commonMain/kotlin/observable/property/ValueProperty.kt:46-56 | registering the first handler and removing it leaves no container |
| ValueProperties.ValueProperty.constructor | base/src/commonMain/kotlin/observable/property/ValueProperty.kt:12-18 | a new property holds its value and has no handler container |
| ValueProperties.ValueProperty.Get | base/src/commonMain/kotlin/observable/property/ValueProperty.kt:23-25 | get returns the stored value |
| ValueProperties.ValueProperty.Set | base/src/commonMain/kotlin/observable/property/ValueProperty.kt:27-33 | set stores the value and fires ChangeEvents |
| ValueProperties.ValueProperty.FireEvents | base/src/commonMain/kotlin/observable/property/ValueProperty.kt:35-44 | fireEvents fires one event exactly when handlers exist |
| ValueProperties.ValueProperty.AddHandler | base/src/commonMain/kotlin/observable/property/ValueProperty.kt:46-56 | the first addHandler creates the container, and every call registers its handler |
| ValueProperties.ValueProperty.RemoveHandler | base/src/commonMain/kotlin/observable/property/ValueProperty.kt:48-51 | a registration's remove leaves the handlers WithoutHandler describes |
| ValueProperties.SetSameValue | base/src/commonMain/kotlin/observable/property/ValueProperty.kt:28 | setting the value already held fires nothing |
| ObservableArrayLists.Insert | base/src/commonMain/kotlin/observable/collections/list/ObservableArrayList.kt:25 | add(index, item) places the item at index and shifts the rest right |
| ObservableArrayLists.RemoveAt | base/src/commonMain/kotlin/observable/collections/list/ObservableArrayList.kt:33 | removeAt(index) drops that item and shifts the rest left |
| ObservableArrayLists.InsertThenRemove | base/src/commonMain/kotlin/observable/collections/list/ObservableArrayList.kt:23-37 | removing what was just inserted at the same index gives the list back |
| ObservableArrayLists.ObservableArrayList.constructor | base/src/commonMain/kotlin/observable/collections/list/ObservableArrayList.kt:5-6 | a new list has no container |
| ObservableArrayLists.ObservableArrayList.Size | base/src/commonMain/kotlin/observable/collections/list/ObservableArrayList.kt:8-9 | size is 0 without a container, and otherwise the number of items |
| ObservableArrayLists.ObservableArrayList.Get | base/src/commonMain/kotlin/observable/collections/list/ObservableArrayList.kt:11-17 | get fails exactly outside 0 .. size-1 (always without a container); otherwise it returns that item |
| ObservableArrayLists.ObservableArrayList.DoAdd | base/src/commonMain/kotlin/observable/collections/list/ObservableArrayList.kt:23-26 | doAdd inserts within 0 .. size; out of range it throws but leaves the container created |
| ObservableArrayLists.ObservableArrayList.DoSet | base/src/commonMain/kotlin/observable/collections/list/ObservableArrayList.kt:28-30 | doSet replaces exactly one item; without a container it is a NullPointerException, out of range an IndexOutOfBounds |
| ObservableArrayLists.ObservableArrayList.DoRemove | base/src/commonMain/kotlin/observable/collections/list/ObservableArrayList.kt:32-37 | doRemove removes one item and drops the container exactly when it removed the last one |
| ObservableArrayLists.ObservableArrayList.EnsureContainerInitialized | base/src/commonMain/kotlin/observable/collections/list/ObservableArrayList.kt:39-43 | an empty container is created only when there is none |
| HintsCollections.Color.ChangeAlpha | visualization-plot-gog/src/jvmMain/kotlin/core/render/geom/util/HintsCollection.kt:79 | changeAlpha keeps red, green and blue and sets the alpha |
| HintsCollections.HintOfKind | visualization-plot-gog/src/jvmMain/kotlin/core/render/geom/util/HintsCollection.kt:49-57 | vertical, horizontal and cursor kinds with a colour give a hint at the coordinate, and only a cursor hint has no radius; any other kind is an error |
| HintsCollections.HintConfigFactory.constructor | visualization-plot-gog/src/jvmMain/kotlin/core/render/geom/util/HintsCollection.kt:60-65 | a new factory has no defaults |
| HintsCollections.HintConfigFactory.DefaultObjectRadius | visualization-plot-gog/src/jvmMain/kotlin/core/render/geom/util/HintsCollection.kt:67-70 | sets the default radius and returns the factory |
| HintsCollections.HintConfigFactory.DefaultX | visualization-plot-gog/src/jvmMain/kotlin/core/render/geom/util/HintsCollection.kt:72-75 | sets the default x and returns the factory |
| HintsCollections.HintConfigFactory.DefaultColor | visualization-plot-gog/src/jvmMain/kotlin/core/render/geom/util/HintsCollection.kt:77-84 | without an alpha the colour is kept; with one its alpha becomes 255 * alpha truncated, within 0..255 for alpha in [0, 1] |
| HintsCollections.HintConfigFactory.DefaultKind | visualization-plot-gog/src/jvmMain/kotlin/core/render/geom/util/HintsCollection.kt:90-93 | sets the default kind and returns the factory |
| HintsCollections.HintConfigFactory.Create | visualization-plot-gog/src/jvmMain/kotlin/core/render/geom/util/HintsCollection.kt:86-88 | a new config copies the factory's current defaults |
| HintsCollections.HintConfig.constructor | visualization-plot-gog/src/jvmMain/kotlin/core/render/geom/util/HintsCollection.kt:95-109 | a config holds the values it was created with |
| HintsCollections.HintConfig.ObjectRadius | visualization-plot-gog/src/jvmMain/kotlin/core/render/geom/util/HintsCollection.kt:111-114 | sets the radius and returns the config |
| HintsCollections.HintConfig.X | visualization-plot-gog/src/jvmMain/kotlin/core/render/geom/util/HintsCollection.kt:116-119 | sets x and returns the config |
| HintsCollections.HintConfig.SetColor | visualization-plot-gog/src/jvmMain/kotlin/core/render/geom/util/HintsCollection.kt:121-124 | sets the colour and returns the config |
| HintsCollections.SnapshotDefaults | visualization-plot-gog/src/jvmMain/kotlin/core/render/geom/util/HintsCollection.kt:95-109 | changing the factory after a config is created leaves that config as it was |
| HintsCollections.HintsCollection.constructor | visualization-plot-gog/src/jvmMain/kotlin/core/render/geom/util/HintsCollection.kt:13-17 | a new collection has no hints |
| HintsCollections.HintsCollection.AddHint | visualization-plot-gog/src/jvmMain/kotlin/core/render/geom/util/HintsCollection.kt:19-58 | an unset x is an error; an undefined aes changes nothing; an unset radius or an unknown kind is an error and changes nothing; otherwise that aes's hint is replaced; other aesthetics' hints are untouched |
| HintsCollections.HintsCollection.Coord | visualization-plot-gog/src/jvmMain/kotlin/core/render/geom/util/HintsCollection.kt:29-39 | getCoord fails exactly when x is unset; it gives no coordinate exactly for an aesthetic undefined at the point, and otherwise the client coordinate of (x, the point's value) |
| HintsCollections.HintsCollection.CreateHint | visualization-plot-gog/src/jvmMain/kotlin/core/render/geom/util/HintsCollection.kt:41-58 | createHint fails on an unset object radius before it looks at the kind; with a radius it succeeds exactly for the three tooltip kinds with a colour set, and the hint carries the kind, the coordinate and the colour, with the radius for every kind but the cursor tooltip |
| GuideConfigs.GetDouble | visualization-plot-gog/src/jvmMain/kotlin/config/GuideConfig.kt:61-63 | a missing key reads null, a number reads its value, anything else is an error |
| GuideConfigs.GetBoolean | visualization-plot-gog/src/jvmMain/kotlin/config/GuideConfig.kt:52 | a flag reads true exactly when it is present and true |
| GuideConfigs.KindForName | visualization-plot-gog/src/jvmMain/kotlin/config/GuideConfig.kt:80-87 | COLOR_BAR and COLOR_BAR_GB give a colour bar, NONE no guide, any other name a legend |
| GuideConfigs.CountOption | visualization-plot-gog/src/jvmMain/kotlin/config/GuideConfig.kt:49-50 | a number is stored truncated; otherwise the exception is swallowed and the field kept |
| GuideConfigs.SizeOption | visualization-plot-gog/src/jvmMain/kotlin/config/GuideConfig.kt:61-62 | a missing key stores null, a number is stored, anything else keeps the field |
| GuideConfigs.GuideOptions.constructor | visualization-plot-gog/src/jvmMain/kotlin/config/GuideConfig.kt:48 | new options are not reversed and have no counts or sizes |
| GuideConfigs.GuideConfig.constructor | visualization-plot-gog/src/jvmMain/kotlin/config/GuideConfig.kt:18 | a config holds its kind and options |
| GuideConfigs.GuideConfig.CreateGuideOptionsIntern | visualization-plot-gog/src/jvmMain/kotlin/config/GuideConfig.kt:38-66 | no guide shares the NONE options; a legend reads its column and row counts and by-row flag; a colour bar reads its width, height and bin count |
| GuideConfigs.GuideConfig.CreateGuideOptions | visualization-plot-gog/src/jvmMain/kotlin/config/GuideConfig.kt:20-24 | the same options with isReverse read from REVERSE; with no guide that is the shared NONE object, whose isReverse is set too; for a legend or a colour bar NONE's isReverse is left alone |
| GuideConfigs.CreateForName | visualization-plot-gog/src/jvmMain/kotlin/config/GuideConfig.kt:80-87 | the config's kind is the name's; the none config has no options |
| GuideConfigs.Create | visualization-plot-gog/src/jvmMain/kotlin/config/GuideConfig.kt:69-78 | a map is dispatched on its feature name and keeps its options; any other value is dispatched on its text with no options |
| CanvasContexts.ParseColorString | visualization-base-canvas/src/commonMain/kotlin/visualization/base/svgToCanvas/Context2DCanvasContext.kt:36-46 | null and "none" give no colour; otherwise hex, named or generic parsing, chosen by the string's form |
| CanvasContexts.ToTextAlign | visualization-base-canvas/src/commonMain/kotlin/visualization/base/svgToCanvas/Context2DCanvasContext.kt:136-143 | null, "middle" and "end" map to START, CENTER and END; any other anchor is an error |
| CanvasContexts.ToTextBaseline | visualization-base-canvas/src/commonMain/kotlin/visualization/base/svgToCanvas/Context2DCanvasContext.kt:145-153 | "1.4em" and "0.7em" give TOP, "0.35em" MIDDLE, null BOTTOM; any other dy is an error |
| CanvasContexts.TransformStep | visualization-base-canvas/src/commonMain/kotlin/visualization/base/svgToCanvas/Context2DCanvasContext.kt:157-173 | each SVG transform becomes its canvas command(s), with the optional parameter defaults; an unknown name or a missing parameter is an error |
| CanvasContexts.Param | visualization-base-canvas/src/commonMain/kotlin/visualization/base/svgToCanvas/Context2DCanvasContext.kt:158-171 | `getParam(i)!!` gives the i-th parameter when the transform has one, and the missing-parameter error otherwise |
| CanvasContexts.TransformCommands | visualization-base-canvas/src/commonMain/kotlin/visualization/base/svgToCanvas/Context2DCanvasContext.kt:155-176 | applyTransform issues only transform commands and gets through exactly when every transform does |
| CanvasContexts.NextElementCommands | visualization-base-canvas/src/commonMain/kotlin/visualization/base/svgToCanvas/Context2DCanvasContext.kt:48-60 | drawNextElement saves first, then sets fill colour, stroke colour and width |
| CanvasContexts.NextElementOnlySetsState | visualization-base-canvas/src/commonMain/kotlin/visualization/base/svgToCanvas/Context2DCanvasContext.kt:48-60 | after its save, drawNextElement never saves, restores, strokes or fills |
| CanvasContexts.FrameBalanced | visualization-base-canvas/src/commonMain/kotlin/visualization/base/svgToCanvas/Context2DCanvasContext.kt:48-134 | a draw that gets through is one save ... restore frame; one that throws leaves the context saved |
| CanvasContexts.DrawFramed | visualization-base-canvas/src/commonMain/kotlin/visualization/base/svgToCanvas/Context2DCanvasContext.kt:48-134 | the same for every draw, whatever its body |
| CanvasContexts.CircleFillsAndStrokes | visualization-base-canvas/src/commonMain/kotlin/visualization/base/svgToCanvas/Context2DCanvasContext.kt:62-73 | drawCircle always fills and strokes exactly when there is a stroke colour |
| CanvasContexts.PathFillsAndStrokes | visualization-base-canvas/src/commonMain/kotlin/visualization/base/svgToCanvas/Context2DCanvasContext.kt:103-115 | drawPath always fills even-odd and strokes exactly when there is a stroke colour |
| CanvasContexts.RectFillsAndStrokes | visualization-base-canvas/src/commonMain/kotlin/visualization/base/svgToCanvas/Context2DCanvasContext.kt:92-99 | drawRect fills exactly with a fill colour and strokes exactly with a stroke colour |
| CanvasContexts.TextFillsAndStrokes | visualization-base-canvas/src/commonMain/kotlin/visualization/base/svgToCanvas/Context2DCanvasContext.kt:125-132 | drawText always fills its text and strokes it exactly with a stroke colour and a positive width |
| CanvasContexts.Context2DCanvasContext.constructor | visualization-base-canvas/src/commonMain/kotlin/visualization/base/svgToCanvas/Context2DCanvasContext.kt:16 | a new context has issued no commands |
| CanvasContexts.Context2DCanvasContext.Push | visualization-base-canvas/src/commonMain/kotlin/visualization/base/svgToCanvas/Context2DCanvasContext.kt:18-23 | push saves, then applies the parsed transform if there is one |
| CanvasContexts.Context2DCanvasContext.Restore | visualization-base-canvas/src/commonMain/kotlin/visualization/base/svgToCanvas/Context2DCanvasContext.kt:25-27 | restore issues one restore |
| CanvasContexts.Context2DCanvasContext.ApplyTransform | visualization-base-canvas/src/commonMain/kotlin/visualization/base/svgToCanvas/Context2DCanvasContext.kt:155-176 | the commands issued are TransformCommands' |
| CanvasContexts.Context2DCanvasContext.DrawNextElement | visualization-base-canvas/src/commonMain/kotlin/visualization/base/svgToCanvas/Context2DCanvasContext.kt:48-60 | the commands issued are NextElementCommands' |
| CanvasContexts.Context2DCanvasContext.Stroke | visualization-base-canvas/src/commonMain/kotlin/visualization/base/svgToCanvas/Context2DCanvasContext.kt:29-34 | a required stroke sets the opacity and strokes; otherwise nothing is issued |
| CanvasContexts.Context2DCanvasContext.DrawCircle | visualization-base-canvas/src/commonMain/kotlin/visualization/base/svgToCanvas/Context2DCanvasContext.kt:62-73 | drawCircle issues one frame around the arc, its fill and the optional stroke |
| CanvasContexts.Context2DCanvasContext.DrawLine | visualization-base-canvas/src/commonMain/kotlin/visualization/base/svgToCanvas/Context2DCanvasContext.kt:75-85 | drawLine issues one frame with no fill colour around the line's stroke |
| CanvasContexts.Context2DCanvasContext.DrawRect | visualization-base-canvas/src/commonMain/kotlin/visualization/base/svgToCanvas/Context2DCanvasContext.kt:87-101 | drawRect issues one frame around the optional fill and stroke |
| CanvasContexts.Context2DCanvasContext.DrawPath | visualization-base-canvas/src/commonMain/kotlin/visualization/base/svgToCanvas/Context2DCanvasContext.kt:103-115 | drawPath issues one frame around the path, its even-odd fill and the optional stroke |
| CanvasContexts.TextIssuedBody | visualization-base-canvas/src/commonMain/kotlin/visualization/base/svgToCanvas/Context2DCanvasContext.kt:123-132 | what drawText writes issues no save or restore; it is all of TextBody when both conversions succeed, and it never fills the text when one throws |
| CanvasContexts.StoppedLeftSaved | visualization-base-canvas/src/commonMain/kotlin/visualization/base/svgToCanvas/Context2DCanvasContext.kt:117-134 | a draw that stops inside its body after drawNextElement's save, having issued no save or restore there, leaves the context saved and never restored |
| CanvasContexts.Context2DCanvasContext.DrawText | visualization-base-canvas/src/commonMain/kotlin/visualization/base/svgToCanvas/Context2DCanvasContext.kt:117-134 | drawText uses the style's font or the default; when drawNextElement and both conversions get through it issues exactly one frame of drawNextElement's commands and TextBody; when a conversion throws, the trace is the old trace, drawNextElement's commands and exactly TextIssued, the commands written before the throw; when drawNextElement's transform fails, the trace is the old trace and exactly drawNextElement's commands |
| CanvasContexts.Context2DCanvasContext.WriteText | visualization-base-canvas/src/commonMain/kotlin/visualization/base/svgToCanvas/Context2DCanvasContext.kt:123-132 | the commands written are exactly TextIssued: all of TextBody when the anchor and dy convert, otherwise those issued before the conversion that throws, and the outcome is that conversion's error |
| CanvasContexts.TransformPrefixFails | visualization-base-canvas/src/commonMain/kotlin/visualization/base/svgToCanvas/Context2DCanvasContext.kt:155-176 | once a transform fails, the later ones issue nothing and the failure stands |
| LiveMaps.UpdateController.constructor | livemap/src/commonMain/kotlin/jetbrains/livemap/LiveMap.kt:357-363 | a new controller has accumulated no time |
| LiveMaps.UpdateController.OnTime | livemap/src/commonMain/kotlin/jetbrains/livemap/LiveMap.kt:365-375 | onTime advances the accumulator as Tick does; only a frame let through calls the predicate, once, with dt times the multiplier truncated |
| LiveMaps.Tick | livemap/src/commonMain/kotlin/jetbrains/livemap/LiveMap.kt:367-375 | a frame passes exactly when the wrapped Long sum exceeds skipTime, which resets the accumulator; otherwise the sum is kept |
| LiveMaps.Throttle | livemap/src/commonMain/kotlin/jetbrains/livemap/LiveMap.kt:365-375 | one verdict per tick |
| LiveMaps.SumNonNegative | livemap/src/commonMain/kotlin/jetbrains/livemap/LiveMap.kt:367 | non-negative deltas have a non-negative sum |
| LiveMaps.LongTickAlwaysPasses | livemap/src/commonMain/kotlin/jetbrains/livemap/LiveMap.kt:369-374 | a delta larger than skipTime always lets its frame through |
| LiveMaps.QuietWithinSkipTime | livemap/src/commonMain/kotlin/jetbrains/livemap/LiveMap.kt:369-374 | while the deltas stay within skipTime, no frame is let through |
| LiveMaps.LiveMap.constructor | livemap/src/commonMain/kotlin/jetbrains/livemap/LiveMap.kt:93 | a new map is not initialised |
| LiveMaps.LiveMap.AnimationHandler | livemap/src/commonMain/kotlin/jetbrains/livemap/LiveMap.kt:147-158 | init runs on the first tick only; every tick updates with its dt; the answer is always true |
| LiveMaps.Camera.constructor | livemap/src/commonMain/kotlin/jetbrains/livemap/LiveMap.kt:280-281 | the camera state the listener reads, with no zoom requested |
| LiveMaps.OnDoubleClick | livemap/src/commonMain/kotlin/jetbrains/livemap/LiveMap.kt:280-288 | no zoom while a scale animation runs or at MAX_ZOOM; otherwise one request towards the midpoint of the click and the centre |
| LiveMaps.SelectExecutor | livemap/src/commonMain/kotlin/jetbrains/livemap/LiveMap.kt:179-182 | UI_THREAD uses the cooperative executor; AUTO and BACKGROUND use the factory's, falling back to the cooperative one |
| LineTypes.Code | visualization-plot-gog/src/jvmMain/kotlin/core/render/linetype/NamedLineType.kt:5-19 | every code is between 0 and 6 |
| LineTypes.FromCode | visualization-plot-gog/src/jvmMain/kotlin/core/render/linetype/NamedLineType.kt:6-19 | a line type exists exactly for codes 0..6, with that code |
| LineTypes.CodesDistinct | visualization-plot-gog/src/jvmMain/kotlin/core/render/linetype/NamedLineType.kt:6-19 | the code identifies the line type |
| LineTypes.IsBlank | visualization-plot-gog/src/jvmMain/kotlin/core/render/linetype/NamedLineType.kt:7-10 | only BLANK is blank |
| LineTypes.IsSolid | visualization-plot-gog/src/jvmMain/kotlin/core/render/linetype/NamedLineType.kt:11-14 | only SOLID is solid |
| LineTypes.StoredDashArray | visualization-plot-gog/src/jvmMain/kotlin/core/render/linetype/NamedLineType.kt:5-19 | only blank and solid lack a dash array |
| LineTypes.DashArray | visualization-plot-gog/src/jvmMain/kotlin/core/render/linetype/NamedLineType.kt:27-33 | dashArray fails exactly for solid and blank lines, naming the type in lower case; otherwise it is a non-empty, even-length list of positive lengths |
| Instants.Add | base/src/jvmMain/kotlin/datetime/Instant.kt:5-7 | add is the Long sum, wrapped |
| Instants.Sub | base/src/jvmMain/kotlin/datetime/Instant.kt:9-11 | sub is the Long difference, wrapped |
| Instants.To | base/src/jvmMain/kotlin/datetime/Instant.kt:13-15 | to is the Long difference of the timestamps, wrapped |
| Instants.AddThenSub | base/src/jvmMain/kotlin/datetime/Instant.kt:5-11 | subtracting a duration just added gives the instant back, even when the sum wraps |
| Instants.ToAfterAdd | base/src/jvmMain/kotlin/datetime/Instant.kt:5-15 | the duration to the instant d later is d, even when the sum wraps |
| Instants.CompareToAsWritten | base/src/jvmMain/kotlin/datetime/Instant.kt:17-26 | compareTo as written gives -1, 0 or 1, is 0 exactly for equal instants, and is right when the difference fits in a Long |
| Instants.CompareToOverflow | base/src/jvmMain/kotlin/datetime/Instant.kt:17-26 | compareTo as written orders the earliest instant after 1, and orders 0 and Long.MIN_VALUE the same way in both directions |
| Instants.CompareTo | base/src/jvmMain/kotlin/datetime/Instant.kt:17-26 | corrected compareTo: the sign of the exact difference |
| Instants.CompareToOrder | base/src/jvmMain/kotlin/datetime/Instant.kt:17-26 | the corrected comparison is antisymmetric and transitive |
| Instants.Equals | base/src/jvmMain/kotlin/datetime/Instant.kt:36-39 | equals holds exactly for an Instant with the same timestamp |
| Instants.EqualsIffCompareZero | base/src/jvmMain/kotlin/datetime/Instant.kt:17-39 | equals agrees with compareTo being 0, both as written and corrected |
| FluentArrays.Gets | gis/src/commonMain/kotlin/jetbrains/gis/common/json/FluentArray.kt:20 | one get() result per value, in order |
| FluentArrays.FluentArray.constructor | gis/src/commonMain/kotlin/jetbrains/gis/common/json/FluentArray.kt:7-9 | a new array has a new, empty backing list |
| FluentArrays.FluentArray.FromList | gis/src/commonMain/kotlin/jetbrains/gis/common/json/FluentArray.kt:11-13 | the list constructor makes a new backing list holding the given list's current elements |
| FluentArrays.FluentArray.GetDouble | gis/src/commonMain/kotlin/jetbrains/gis/common/json/FluentArray.kt:15 | an index out of range or a non-double element is an error; otherwise the double stored there |
| FluentArrays.FluentArray.AddString | gis/src/commonMain/kotlin/jetbrains/gis/common/json/FluentArray.kt:17 | appends the string or null and returns the array |
| FluentArrays.FluentArray.AddDouble | gis/src/commonMain/kotlin/jetbrains/gis/common/json/FluentArray.kt:18 | appends the double or null and returns the array |
| FluentArrays.FluentArray.AddStrings | gis/src/commonMain/kotlin/jetbrains/gis/common/json/FluentArray.kt:19 | appends every string, in order |
| FluentArrays.FluentArray.AddAll | gis/src/commonMain/kotlin/jetbrains/gis/common/json/FluentArray.kt:20 | appends each value's get(), in order, to the backing list and returns the array |
| FluentArrays.FluentArray.AddAllVararg | gis/src/commonMain/kotlin/jetbrains/gis/common/json/FluentArray.kt:21 | the vararg form appends the same as the list form |
| FluentArrays.FluentArray.Get | gis/src/commonMain/kotlin/jetbrains/gis/common/json/FluentArray.kt:27 | get hands out the backing list itself, not a copy: the item it returns refers to the array's own list |
| FluentArrays.GetsAppend | gis/src/commonMain/kotlin/jetbrains/gis/common/json/FluentArray.kt:20 | one more value adds its get() at the end |
| FluentArrays.AppendKeepsPrefix | gis/src/commonMain/kotlin/jetbrains/gis/common/json/FluentArray.kt:17-27 | appending keeps what was in the list, and the new double reads back |
| FluentArrays.JsonList.constructor | gis/src/commonMain/kotlin/jetbrains/gis/common/json/FluentArray.kt:8 | a new list holds the given elements |
| FluentArrays.AddAllShares | gis/src/commonMain/kotlin/jetbrains/gis/common/json/FluentArray.kt:20-27 | after a child array is added to a parent with addAll, the parent's last element is the child's own list, so a double added to the child afterwards shows up through the parent |
| FluentArrays.CopyIsIndependent | gis/src/commonMain/kotlin/jetbrains/gis/common/json/FluentArray.kt:11-13 | writing to the original list after the copy leaves the array as it was |

## Left out

- Varint decoding of the TWKB input is not part of this model: the stream holds the decoded integers.
- TWKB precision division is not modelled: a point holds its integer running sums, not the DoubleVector obtained by dividing by the precision.
- GeometryStream's running sums are Kotlin `Int` in the code. This model does not capture their 32-bit wrap-around; the sums are unbounded.
- VisvalingamWhyatt.Simplification.GetWeights: the loop runs until the triangle list is empty, which the code does not bound. Dafny needs termination, so the model takes a `fuel` bound and reports `FuelExhausted` when the bound is reached first.
- VisvalingamWhyatt.Simplification.GetWeights: `update()` appends a moved triangle at the end instead of re-sorting. The model does the same, so it does not claim that each pass takes the smallest remaining area.
- Doubles are modelled as exact reals. IEEE rounding, NaN comparisons and infinities are not modelled, except the NaN/infinity filtering of the box-plot input, which is `NonFinite`.
- BoxplotStat.BuildStat: FiveNumberSummary is not part of this model. It is the `summarize` parameter.
- BoxplotStat.BuildStat: the HashMap iteration order of the bins is unspecified. The model chooses it as a ghost `order`, and the contracts state content, not order.
- TooltipSpecs.SpecBuilder.RemoveDiscreteDuplicatedMappings: the HashMap iteration order of the label map is unspecified. The output order is a ghost `order`.
- RegularMesh.TryColumn: SeriesUtil.TINY is a parameter, because SeriesUtil is not part of this model.
- MappedDataAccess, GeomHelper.toClient and ConfigUtil.featureName are parameters.
- CanvasContexts: Color.parseHex, Colors and Color.parseColor are parameters. So are ParsingUtil.parseTransform and extractStyleFont. PathProcessor's translation of the SVG path data into canvas calls is not modelled: drawPath records the path data as one `PathData(d)` command.
- CanvasContexts.TransformStep: the conversion of angles to radians and the skew's tangent are not modelled. Angles stay in degrees and skews carry the angle.
- Listeners.fire and Registration are not part of this model. Each fire is recorded once in an event log, whatever the number of listeners.
- ObservableSets: the subclass hooks doAdd/doRemove are a boolean verdict parameter, and the check/before/after hooks are no-ops. onItemAdd/onItemRemove are not modelled. The exception paths of these hooks are not modelled.
- LiveMaps.UpdateController.OnTime: DeltaTime.tick is not part of this model. Its result is the `dt` parameter.
- Numerics.TruncateToInt: the saturation of Double-to-Long conversion outside the Long range, and NaN to 0, are not modelled.
- LiveMaps.LiveMap.AnimationHandler: init, the ECS controller, diagnostics and timers are recorded as an init counter and an update log.
- LiveMaps.OnDoubleClick: MAX_ZOOM is a parameter. CameraScale.setAnimation is recorded as a request log.
- LiveMap's draw, layer and camera set-up, and its other listeners, are not part of this model.
- GuideConfigs: the Option.Guide key and name constants are abstract.
- Instant's default-clock constructor, hashCode and toString are not modelled.
- Duration is modelled only as its Long field.
- FluentArray's stream, objectStream and fluentObjectStream are not modelled. They need the stream helpers, which are not part of this model.
- TwkbParser.GeometryObjectParser.PushMultiPoint: the `ids` list is stored by value, so aliasing with the caller's list is not captured.
- FluentArrays.CopyIsIndependent: requires a non-empty list, so that there is an element to overwrite.
- Rendering back ends, the rest of the plot pipeline and the other files of the repository are not part of this model.

## Findings

| source | as written | input that shows it | evidently intended | confidence | as-written member | corrected member |
|---|---|---|---|---|---|---|
| base/src/jvmMain/kotlin/datetime/Instant.kt:17-26 | compareTo returns the sign of the wrapped Long difference `timeSinceEpoch - o.timeSinceEpoch` | Instant(Long.MIN_VALUE).compareTo(Instant(1)) gives 1; Instant(0) and Instant(Long.MIN_VALUE) each compare as -1 to the other | the sign of the exact difference, a total order | not executed | Instants.CompareToAsWritten (shown by Instants.CompareToOverflow) | Instants.CompareTo (order proved in Instants.CompareToOrder) |
