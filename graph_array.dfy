/**
 * `GraphArray`: the boxes of a list or deque in the graph view, with the
 * indices whose value differs from the previous step's highlighted.
 */
module ArrayView {
  import opened Common
  import opened Json

  /** Index `idx` holds a value in both arrays, and the two differ as JSON text. */
  predicate ChangedAt(prev: seq<Json>, data: seq<Json>, idx: nat) {
    idx < |data| && idx < |prev| && Stringify(prev[idx]) != Stringify(data[idx])
  }

  /** The indices `changedIndices` marks. */
  ghost function ChangedSet(prevData: Option<seq<Json>>, data: seq<Json>): set<nat> {
    if prevData.None? then {}
    else set idx: nat | idx < |data| && ChangedAt(prevData.value, data, idx)
  }

  /** The `data.forEach` loop that fills `changedIndices` when `prevData` is given. */
  method ChangedIndices(prevData: Option<seq<Json>>, data: seq<Json>) returns (changed: set<nat>)
    ensures forall idx: nat :: idx in changed <==> prevData.Some? && ChangedAt(prevData.value, data, idx)
    ensures changed == ChangedSet(prevData, data)
  {
    changed := {};
    if prevData.Some? {
      var prev := prevData.value;
      var idx := 0;
      while idx < |data|
        invariant 0 <= idx <= |data|
        invariant forall k: nat :: k in changed <==> k < idx && ChangedAt(prev, data, k)
      {
        // `prevData[idx]` is `undefined` past the end of the previous array
        if ChangedAt(prev, data, idx) {
          changed := changed + {idx};
        }
        idx := idx + 1;
      }
    }
  }

  /** Showing the same array twice highlights nothing. */
  lemma UnchangedArrayHighlightsNothing(data: seq<Json>)
    ensures ChangedSet(Some(data), data) == {}
  {
  }

  /** Appending to a list highlights none of the new cells, nor any old one. */
  lemma AppendHighlightsNothing(prev: seq<Json>, extra: seq<Json>)
    ensures ChangedSet(Some(prev), prev + extra) == {}
  {
    forall idx: nat | idx < |prev| ensures (prev + extra)[idx] == prev[idx] {
    }
  }

  /** A cell is highlighted exactly when its own value changed. */
  lemma OneAssignmentHighlightsOneCell(prev: seq<Json>, i: nat, v: Json)
    requires i < |prev| && Stringify(v) != Stringify(prev[i])
    ensures ChangedSet(Some(prev), prev[i := v]) == {i}
  {
    var data := prev[i := v];
    forall idx: nat | idx < |data| && idx != i ensures !ChangedAt(prev, data, idx) {
      assert data[idx] == prev[idx];
    }
  }

  /** `[1, 2, 3]` followed by `[1, 5, 3]`: only the middle box lights up. */
  lemma MiddleCellExample()
    ensures ChangedSet(Some([JNum(1), JNum(2), JNum(3)]), [JNum(1), JNum(5), JNum(3)]) == {1}
  {
    assert Stringify(JNum(5)) == "5" && Stringify(JNum(2)) == "2";
    OneAssignmentHighlightsOneCell([JNum(1), JNum(2), JNum(3)], 1, JNum(5));
    assert [JNum(1), JNum(2), JNum(3)][1 := JNum(5)] == [JNum(1), JNum(5), JNum(3)];
  }

  /** `isNumeric`: a non-empty array of numbers only, the condition for the bar-chart toggle. */
  predicate IsNumeric(data: seq<Json>) {
    (forall i :: 0 <= i < |data| ==> data[i].JNum?) && |data| > 0
  }

  /** One box: the text `String(item)` and whether it is highlighted. */
  datatype Cell = Cell(text: string, changed: bool)

  /** What the component shows: its badge, the boxes, and whether the bar-chart toggle is offered. */
  datatype ArrayPanel = ArrayPanel(isDeque: bool, cells: seq<Cell>, barChartToggle: bool)

  method GraphArray(data: seq<Json>, isDeque: bool, prevData: Option<seq<Json>>) returns (panel: ArrayPanel)
    ensures panel.isDeque == isDeque
    ensures |panel.cells| == |data|
    ensures forall i :: 0 <= i < |data| ==>
              panel.cells[i] == Cell(JsString(data[i]), i in ChangedSet(prevData, data))
    ensures panel.barChartToggle <==> IsNumeric(data) && !isDeque
  {
    var changed := ChangedIndices(prevData, data);
    var cells := seq(|data|, i requires 0 <= i < |data| => Cell(JsString(data[i]), i in changed));
    var isNumeric := IsNumeric(data);
    panel := ArrayPanel(isDeque, cells, isNumeric && !isDeque);
  }
}
