/**
 * Upload progress accounting, `byteProcess` and the module globals it
 * updates (main.js). Each call reports `x`, the bytes sent so far of unit `y`
 * (a cumulative count). The last count of a unit is folded into
 * `totalUploadedBytes` only when an event for a different unit arrives, and
 * only when that unit was defined: `lastFile === undefined` is also the
 * "nothing yet" marker, so the count of an event whose unit is `undefined`
 * is overwritten by the next event without being added.
 */
module Progress {
  import opened Wrappers

  /** The unit a progress event is about: the path of the file being added. */
  type Unit = string

  /** One call `byteProcess(bytes, unit)`; `None` is a unit that is `undefined`. */
  datatype Event = Event(bytes: int, unit: Option<Unit>)

  /** A maximal stretch of consecutive events for one unit, with the count its last event carried. */
  datatype Stretch = Stretch(unit: Option<Unit>, last: int)

  /**
   * The stretches of an event history, in order. Built from the front: an
   * event joins the stretch after it when that stretch is for the same unit
   * (whose later count wins), and opens a new stretch otherwise.
   */
  function Stretches(h: seq<Event>): (rs: seq<Stretch>)
    ensures |rs| <= |h|
    ensures h == [] <==> rs == []
    ensures h != [] ==> rs[0].unit == h[0].unit && rs[|rs| - 1].unit == h[|h| - 1].unit
  {
    if h == [] then []
    else
      var rest := Stretches(h[1..]);
      if rest != [] && rest[0].unit == h[0].unit then rest
      else [Stretch(h[0].unit, h[0].bytes)] + rest
  }

  /** The sum of the last counts of the given stretches whose unit is defined. */
  function SumLast(rs: seq<Stretch>): int {
    if rs == [] then 0 else (if rs[0].unit.Some? then rs[0].last else 0) + SumLast(rs[1..])
  }

  /**
   * The bytes of every stretch that is over (all stretches but the one still
   * running), leaving out stretches whose unit is undefined.
   */
  function Completed(h: seq<Event>): int {
    var rs := Stretches(h);
    if rs == [] then 0 else SumLast(rs[..|rs| - 1])
  }

  /** Appending a stretch adds its last count to the sum when its unit is defined. */
  lemma {:induction false} SumLastSnoc(rs: seq<Stretch>, r: Stretch)
    ensures SumLast(rs + [r]) == SumLast(rs) + (if r.unit.Some? then r.last else 0)
  {
    if rs != [] {
      assert (rs + [r])[1..] == rs[1..] + [r];
      SumLastSnoc(rs[1..], r);
    }
  }

  /**
   * One more event either extends the running stretch, when it is for the
   * same unit (the new count replaces the old), or opens a new stretch.
   */
  lemma {:induction false} StretchesSnoc(h: seq<Event>, e: Event)
    ensures var rs := Stretches(h);
      Stretches(h + [e]) ==
        if h != [] && h[|h| - 1].unit == e.unit then rs[..|rs| - 1] + [Stretch(e.unit, e.bytes)]
        else rs + [Stretch(e.unit, e.bytes)]
    ensures Stretches(h + [e])[|Stretches(h + [e])| - 1] == Stretch(e.unit, e.bytes)
    decreases |h|
  {
    if h == [] {
      assert ([e])[1..] == [];
    } else {
      assert (h + [e])[1..] == h[1..] + [e];
      StretchesSnoc(h[1..], e);
      if |h| > 1 {
        assert h[1..][|h[1..]| - 1] == h[|h| - 1];
      }
    }
  }

  /** With no negative counts, no stretch has a negative last count. */
  lemma {:induction false} StretchesNonNegative(h: seq<Event>)
    requires forall i :: 0 <= i < |h| ==> h[i].bytes >= 0
    ensures forall j :: 0 <= j < |Stretches(h)| ==> Stretches(h)[j].last >= 0
    decreases |h|
  {
    if h != [] {
      StretchesNonNegative(h[1..]);
    }
  }

  /** The stretch still running: the last one, if any event arrived. */
  function Running(h: seq<Event>): Option<Stretch> {
    var rs := Stretches(h);
    if rs == [] then None else Some(rs[|rs| - 1])
  }

  /**
   * One more event leaves the completed total as it is when it is the first
   * event, continues the running stretch, or follows a stretch whose unit is
   * undefined; it adds the running stretch's last count when it ends a
   * stretch of a defined unit. Either way the event's own unit and count make
   * up the running stretch afterwards.
   */
  lemma CompletedSnoc(h: seq<Event>, e: Event)
    ensures Running(h + [e]) == Some(Stretch(e.unit, e.bytes))
    ensures Completed(h + [e]) ==
      if Running(h).None? || Running(h).value.unit.None? || Running(h).value.unit == e.unit then Completed(h)
      else Completed(h) + Running(h).value.last
  {
    var rs := Stretches(h);
    StretchesSnoc(h, e);
    if h == [] {
      assert Stretches(h + [e])[..0] == [];
    } else if h[|h| - 1].unit != e.unit {
      assert (rs + [Stretch(e.unit, e.bytes)])[..|rs|] == rs;
      assert rs == rs[..|rs| - 1] + [rs[|rs| - 1]];
      SumLastSnoc(rs[..|rs| - 1], rs[|rs| - 1]);
    } else {
      assert (rs[..|rs| - 1] + [Stretch(e.unit, e.bytes)])[..|rs| - 1] == rs[..|rs| - 1];
    }
  }

  /**
   * With no negative counts, the completed total never decreases as events
   * arrive.
   */
  lemma CompletedNeverDecreases(h: seq<Event>, e: Event)
    requires forall i :: 0 <= i < |h| ==> h[i].bytes >= 0
    ensures Completed(h) <= Completed(h + [e])
  {
    CompletedSnoc(h, e);
    StretchesNonNegative(h);
  }

  /**
   * Counts are cumulative per unit, not deltas: 10 then 25 bytes of "a"
   * count as 25, and they reach the total only once "b" starts.
   */
  lemma CumulativeExample()
    ensures Completed([Event(10, Some("a")), Event(25, Some("a"))]) == 0
    ensures Completed([Event(10, Some("a")), Event(25, Some("a")), Event(7, Some("b"))]) == 25
    ensures Running([Event(10, Some("a")), Event(25, Some("a")), Event(7, Some("b"))]) == Some(Stretch(Some("b"), 7))
  {
    var e1, e2, e3 := Event(10, Some("a")), Event(25, Some("a")), Event(7, Some("b"));
    CompletedSnoc([e1], e2);
    assert [e1] + [e2] == [e1, e2];
    CompletedSnoc([e1, e2], e3);
    assert [e1, e2] + [e3] == [e1, e2, e3];
  }

  /**
   * A count reported for an undefined unit is never added: after 10 bytes of
   * "a", 5 for an undefined unit and 7 of "b", the total is 10, not 15.
   */
  lemma UndefinedUnitDropped()
    ensures Completed([Event(10, Some("a")), Event(5, None)]) == 10
    ensures Completed([Event(10, Some("a")), Event(5, None), Event(7, Some("b"))]) == 10
    ensures Running([Event(10, Some("a")), Event(5, None), Event(7, Some("b"))]) == Some(Stretch(Some("b"), 7))
  {
    var e1, e2, e3 := Event(10, Some("a")), Event(5, None), Event(7, Some("b"));
    CompletedSnoc([], e1);
    assert [] + [e1] == [e1];
    CompletedSnoc([e1], e2);
    assert [e1] + [e2] == [e1, e2];
    CompletedSnoc([e1, e2], e3);
    assert [e1, e2] + [e3] == [e1, e2, e3];
  }

  /** The four module globals `byteProcess` reads and writes. */
  class ProgressTracker {
    var totalUploadedBytes: int
    var curFileTotalSize: int
    var lastFile: Option<Unit>
    var lastValue: int
    /** Every event reported so far, oldest first. */
    ghost var history: seq<Event>

    /**
     * The globals summarise the history: the total holds the stretches that
     * are over, the current size the last count of the running stretch,
     * `lastFile` its unit (`None` also when that unit is undefined) and
     * `lastValue` the latest count.
     */
    ghost predicate Valid()
      reads this
    {
      totalUploadedBytes == Completed(history) &&
      (match Running(history)
       case None => curFileTotalSize == 0 && lastFile == None && lastValue == 0
       case Some(r) =>
         curFileTotalSize == r.last && lastFile == r.unit &&
         lastValue == history[|history| - 1].bytes)
    }

    /** The globals as the module initialises them. */
    constructor ()
      ensures Valid() && history == []
      ensures totalUploadedBytes == 0 && curFileTotalSize == 0 && lastFile == None && lastValue == 0
    {
      totalUploadedBytes := 0;
      curFileTotalSize := 0;
      lastFile := None;
      lastValue := 0;
      history := [];
    }

    /**
     * `byteProcess(x, y)`: when `lastFile` is undefined (first event, or the
     * previous unit was undefined) or the unit is the same, the event replaces
     * the current count; an event for another unit first folds the current
     * count into the total.
     */
    method ByteProcess(x: int, y: Option<Unit>)
      requires Valid()
      modifies this
      ensures Valid() && history == old(history) + [Event(x, y)]
      ensures lastValue == x && curFileTotalSize == x && lastFile == y
      ensures totalUploadedBytes ==
        if old(lastFile) == None || old(lastFile) == y then old(totalUploadedBytes)
        else old(totalUploadedBytes) + old(curFileTotalSize)
    {
      ghost var h := history;
      CompletedSnoc(h, Event(x, y));
      lastValue := x;
      if lastFile == None {
        lastFile := y;
        curFileTotalSize := x;
      } else if lastFile == y {
        curFileTotalSize := x;
      } else {
        totalUploadedBytes := totalUploadedBytes + curFileTotalSize;
        curFileTotalSize := x;
        lastFile := y;
      }
      history := h + [Event(x, y)];
    }
  }
}
