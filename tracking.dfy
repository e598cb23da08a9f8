/**
 * Array-access tracking and the replacement `input()`: the `TrackedList` that
 * every list display of the traced program becomes, the global access log it
 * appends to, and the queue of answers `custom_input` pops from.
 */
module Tracking {
  import opened Common
  import opened Json
  import opened PyHeap

  datatype AccessKind = Read | Write

  /** One entry of the access log: `{"type", "arrayId", "index"}`. */
  datatype Access = Access(kind: AccessKind, arrayId: string, index: int)

  /**
   * The argument of `lst[index]`. An `int` (a `bool` included) is logged; a
   * slice `lst[start:stop]` and any other type are passed on to `list`
   * unlogged, which rejects a non-slice, non-integer index with a `TypeError`
   * naming its type.
   */
  datatype Index = At(i: int) | Slice(start: Option<int>, stop: Option<int>) | NotAnInt(typeName: string)

  /** The position the tracker logs: a negative index counts back from the end. */
  function NormalizeIndex(index: int, length: nat): (r: int)
    ensures index >= 0 ==> r == index
    ensures index < 0 ==> r == length + index && r < length
  {
    if index >= 0 then index else length + index
  }

  /**
   * What the tracker appends to the access log for `lst[index]` on a list of
   * `length` elements: one entry for an integer index, nothing otherwise.
   */
  function Logged(kind: AccessKind, arrayId: string, length: nat, index: Index): (r: seq<Access>)
    ensures index.At? <==> |r| == 1
    ensures index.At? ==> r[0] == Access(kind, arrayId, NormalizeIndex(index.i, length))
  {
    if index.At? then [Access(kind, arrayId, NormalizeIndex(index.i, length))] else []
  }

  /**
   * One bound of a slice, as `list` resolves it: a missing bound is the given
   * default, a negative one counts back from the end, and the result is
   * clamped into `0..length`.
   */
  function SliceBound(bound: Option<int>, length: nat, default: nat): (r: nat)
    requires default <= length
    ensures r <= length
    ensures bound.None? ==> r == default
    ensures bound.Some? && 0 <= bound.value <= length ==> r == bound.value
    ensures bound.Some? && bound.value < 0 && length + bound.value >= 0 ==> r == length + bound.value
    ensures bound.Some? && length + bound.value < 0 ==> r == 0
    ensures bound.Some? && bound.value > length ==> r == length
  {
    match bound
    case None => default
    case Some(b) =>
      var c := if b < 0 then length + b else b;
      if c < 0 then 0 else if c > length then length else c
  }

  /** What a read of `lst[index]` gives: an element, or for a slice a new plain `list` of these elements. */
  datatype Got = Element(v: PyVal) | Sublist(elements: seq<PyVal>)

  /** What the built-in `list.__getitem__` does with `index`. */
  function ListGet(items: seq<PyVal>, index: Index): (r: Result<Got, string>)
    ensures r.Ok? <==> index.Slice? || (index.At? && 0 <= NormalizeIndex(index.i, |items|) < |items|)
    ensures index.At? && r.Ok? ==> r.value == Element(items[NormalizeIndex(index.i, |items|)])
    ensures index.Slice? ==>
              var lo, hi := SliceBound(index.start, |items|, 0), SliceBound(index.stop, |items|, |items|);
              r == Ok(Sublist(if lo < hi then items[lo..hi] else []))
  {
    match index
    case NotAnInt(t) => Err("TypeError: list indices must be integers or slices, not " + t)
    case At(i) =>
      var j := NormalizeIndex(i, |items|);
      if 0 <= j < |items| then Ok(Element(items[j])) else Err("IndexError: list index out of range")
    case Slice(start, stop) =>
      var lo, hi := SliceBound(start, |items|, 0), SliceBound(stop, |items|, |items|);
      Ok(Sublist(if lo < hi then items[lo..hi] else []))
  }

  /**
   * What the built-in `list.__setitem__` does with `index` and `value`;
   * `iterated` is what iterating `value` yields, or `None` when it is not
   * iterable, which only slice assignment needs.
   */
  function ListSet(items: seq<PyVal>, index: Index, value: PyVal, iterated: Option<seq<PyVal>>): (r: Result<seq<PyVal>, string>)
    ensures r.Ok? <==> (index.At? && 0 <= NormalizeIndex(index.i, |items|) < |items|) || (index.Slice? && iterated.Some?)
    ensures index.At? && r.Ok? ==> |r.value| == |items|
    ensures index.At? && r.Ok? ==> forall k :: 0 <= k < |items| ==>
              r.value[k] == if k == NormalizeIndex(index.i, |items|) then value else items[k]
    ensures index.Slice? && r.Ok? ==>
              var lo := SliceBound(index.start, |items|, 0);
              var hi := SliceBound(index.stop, |items|, |items|);
              var end := if hi < lo then lo else hi;
              r.value == items[..lo] + iterated.value + items[end..]
  {
    match index
    case NotAnInt(t) => Err("TypeError: list indices must be integers or slices, not " + t)
    case At(i) =>
      var j := NormalizeIndex(i, |items|);
      if 0 <= j < |items| then Ok(items[j := value]) else Err("IndexError: list assignment index out of range")
    case Slice(start, stop) =>
      if iterated.None? then Err("TypeError: can only assign an iterable")
      else
        var lo, hi := SliceBound(start, |items|, 0), SliceBound(stop, |items|, |items|);
        var end := if hi < lo then lo else hi;
        Ok(items[..lo] + iterated.value + items[end..])
  }

  /**
   * Slice assignment replaces the selected run: the elements before it stay,
   * the assigned elements follow, then the elements after the run, and
   * reading the new run back as a slice gives exactly the assigned elements.
   */
  lemma SliceAssignReplacesRun(items: seq<PyVal>, start: Option<int>, stop: Option<int>, value: PyVal, elements: seq<PyVal>)
    ensures var lo := SliceBound(start, |items|, 0);
            var removed := ListGet(items, Slice(start, stop)).value.elements;
            var r := ListSet(items, Slice(start, stop), value, Some(elements));
            && r.Ok?
            && |r.value| == |items| - |removed| + |elements|
            && r.value[..lo] == items[..lo]
            && r.value[lo..lo + |elements|] == elements
            && r.value[lo + |elements|..] == items[lo + |removed|..]
            && ListGet(r.value, Slice(Some(lo), Some(lo + |elements|))) == Ok(Sublist(elements))
  {
    var lo := SliceBound(start, |items|, 0);
    var r := ListSet(items, Slice(start, stop), value, Some(elements)).value;
    assert r[..lo] == items[..lo];
    assert r[lo..lo + |elements|] == elements;
  }

  /** The global `ACCESS_LOG`, shared by every tracked list and drained by each snapshot. */
  class AccessLog {
    var events: seq<Access>

    constructor()
      ensures events == []
    {
      events := [];
    }

    method Append(a: Access)
      modifies this
      ensures events == old(events) + [a]
    {
      events := events + [a];
    }

    /** `list(ACCESS_LOG)` followed by `ACCESS_LOG.clear()`. */
    method Drain() returns (drained: seq<Access>)
      modifies this
      ensures drained == old(events) && events == []
    {
      drained := events;
      events := [];
    }
  }

  /** A `list` subclass whose integer reads and writes are logged. */
  class TrackedList {
    var items: seq<PyVal>
    /** `str(id(self))`, fixed at construction. */
    const id: string
    const log: AccessLog

    constructor(iterable: seq<PyVal>, objId: ObjId, log: AccessLog)
      ensures items == iterable && id == NatToString(objId) && this.log == log
    {
      items := iterable;
      id := NatToString(objId);
      this.log := log;
    }

    /** `__getitem__`: log an integer index, then let `list` answer (or raise). */
    method GetItem(index: Index) returns (r: Result<Got, string>)
      modifies log
      ensures r == ListGet(items, index)
      ensures log.events == old(log.events) + Logged(Read, id, |items|, index)
    {
      if index.At? {
        log.Append(Access(Read, id, NormalizeIndex(index.i, |items|)));
      }
      r := ListGet(items, index);
    }

    /**
     * `__setitem__`: log an integer index, then let `list` store (or raise);
     * `iterated` is what iterating `value` yields, for a slice assignment.
     */
    method SetItem(index: Index, value: PyVal, iterated: Option<seq<PyVal>>) returns (r: Result<(), string>)
      modifies this, log
      ensures log.events == old(log.events) + Logged(Write, id, old(|items|), index)
      ensures ListSet(old(items), index, value, iterated).Ok? ==>
                r.Ok? && items == ListSet(old(items), index, value, iterated).value
      ensures ListSet(old(items), index, value, iterated).Err? ==>
                r == Err(ListSet(old(items), index, value, iterated).error) && items == old(items)
    {
      if index.At? {
        log.Append(Access(Write, id, NormalizeIndex(index.i, |items|)));
      }
      var stored := ListSet(items, index, value, iterated);
      match stored
      case Ok(after) =>
        items := after;
        r := Ok(());
      case Err(message) =>
        r := Err(message);
    }
  }

  /** The message `NeedsInputError` carries. */
  const WaitingForInput: string := "Waiting for input"

  /** `INPUT_QUEUE` with `custom_input` as its only consumer. */
  class InputQueue {
    var pending: seq<string>
    /** The answers handed out so far, oldest first. */
    ghost var consumed: seq<string>

    constructor(answers: seq<string>)
      ensures pending == answers && consumed == []
    {
      pending := answers;
      consumed := [];
    }

    /** `custom_input(prompt)`: the oldest queued answer, or `NeedsInputError`. The prompt is not used. */
    method Input(prompt: string) returns (r: Result<string, string>)
      modifies this
      ensures |old(pending)| > 0 ==> r == Ok(old(pending)[0]) && pending == old(pending)[1..]
      ensures |old(pending)| > 0 ==> consumed == old(consumed) + [r.value]
      ensures |old(pending)| == 0 ==> r == Err(WaitingForInput) && pending == [] && consumed == old(consumed)
    {
      if |pending| > 0 {
        var val := pending[0];
        pending := pending[1..];
        consumed := consumed + [val];
        r := Ok(val);
      } else {
        r := Err(WaitingForInput);
      }
    }
  }

  /** `n` successive calls of `custom_input` on `queue`: the answers they return, or the error that stops them. */
  function Answers(queue: seq<string>, n: nat): (r: Result<seq<string>, string>)
  {
    if n == 0 then Ok([])
    else if |queue| == 0 then Err(WaitingForInput)
    else match Answers(queue[1..], n - 1)
         case Ok(rest) => Ok([queue[0]] + rest)
         case Err(e) => Err(e)
  }

  /**
   * `n` successive `input()` calls of the traced program on `queue`: they
   * return what `Answers` says of the queue they start from.
   */
  method CallInput(queue: InputQueue, n: nat) returns (r: Result<seq<string>, string>)
    modifies queue
    ensures r == Answers(old(queue.pending), n)
    ensures n <= |old(queue.pending)| ==> queue.pending == old(queue.pending)[n..]
  {
    var q := queue.pending;
    var got := [];
    var k := 0;
    while k < n
      invariant k <= n && k <= |q|
      invariant queue.pending == q[k..] && got == q[..k]
    {
      var a := queue.Input("");
      if a.Err? {
        AnswersArePrefix(q, n);
        return Err(a.error);
      }
      assert q[..k + 1] == q[..k] + [q[k]];
      got := got + [a.value];
      k := k + 1;
    }
    AnswersArePrefix(q, n);
    r := Ok(got);
  }

  /**
   * First in, first out: `n` calls answer with the first `n` queued values, in
   * order, when that many are queued, and end in `NeedsInputError` otherwise.
   */
  lemma {:induction false} AnswersArePrefix(queue: seq<string>, n: nat)
    ensures n <= |queue| ==> Answers(queue, n) == Ok(queue[..n])
    ensures n > |queue| ==> Answers(queue, n) == Err(WaitingForInput)
  {
    if n > 0 && |queue| > 0 {
      AnswersArePrefix(queue[1..], n - 1);
      if n <= |queue| {
        assert [queue[0]] + queue[1..][..n - 1] == queue[..n];
      }
    }
  }
}
