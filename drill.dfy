/**
 * The drill and synchronisation logic inside `zoomed` and `brushed` of
 * src/d3.js. The chart shows one bar group per year; zooming all the way in
 * (to within a tolerance of the largest zoom factor) adds the monthly axes
 * and month bars, zooming out again restores the year bars. The overview
 * brush and the main zoom drive each other, each ignoring the events the
 * other one caused.
 */
module Drill {
  import opened Wrappers

  /** `zoomScale = x.domain().length * 1.2`. */
  const ZoomMultiplier: real := 1.2

  /** The tolerance of `Math.abs(event.transform.k - zoomScale) < 0.00001`. */
  const Epsilon: real := 0.00001

  /** Which bars the main chart shows. */
  datatype View = YearView | MonthView

  /** A zoom event: the new scale factor and the type of its `sourceEvent`, if it has one. */
  datatype ZoomEvent = ZoomEvent(k: real, source: Option<string>)

  /** The largest zoom factor, also the upper end of the zoom's scale extent. */
  function MaxZoom(yearCount: nat): real {
    yearCount as real * ZoomMultiplier
  }

  function Abs(x: real): real {
    if x < 0.0 then -x else x
  }

  /** The chart counts as fully zoomed in. */
  predicate AtMaxZoom(k: real, zoomScale: real) {
    Abs(k - zoomScale) < Epsilon
  }

  /** `event.sourceEvent && event.sourceEvent.type !== "brush"`: a gesture on the chart itself. */
  predicate DrillsOn(source: Option<string>) {
    source.Some? && source.value != "brush"
  }

  /** `(event.sourceEvent && event.sourceEvent.type) !== "brush"`: `zoomed` moves the brush. */
  predicate ZoomMovesBrush(source: Option<string>) {
    !(source.Some? && source.value == "brush")
  }

  /** `brushed` goes on unless `!event.sourceEvent || event.sourceEvent.type === "zoom"`. */
  predicate BrushMovesZoom(source: Option<string>) {
    source.Some? && source.value != "zoom"
  }

  /**
   * The view after one zoom event: out of the tolerance the year view;
   * within it the month view when a chart gesture caused it and there are
   * bar groups to drill into; otherwise unchanged.
   */
  function NextView(v: View, hasGroups: bool, zoomScale: real, ev: ZoomEvent): (r: View)
    ensures !AtMaxZoom(ev.k, zoomScale) ==> r == YearView
    ensures r == MonthView <==> AtMaxZoom(ev.k, zoomScale) && (v == MonthView || (DrillsOn(ev.source) && hasGroups))
  {
    if !AtMaxZoom(ev.k, zoomScale) then YearView
    else if DrillsOn(ev.source) && hasGroups then MonthView
    else v
  }

  /**
   * The main chart's zoom state. The presence of DOM nodes that encodes the
   * drill level is kept as two flags.
   */
  class ZoomChart {
    const yearCount: nat
    const zoomScale: real
    /** `graphZoomedRef.current`. */
    var graphZoomed: bool
    /** Nodes of class `x-axis-2-<i>` exist in the main chart. */
    var secondaryAxes: bool
    /** Nodes of class `barGroup-Secondary` exist in the main chart. */
    var monthBars: bool

    /** The monthly axes and the month bars come and go together, and only when there are bar groups. */
    ghost predicate Valid()
      reads this
    {
      && zoomScale == MaxZoom(yearCount)
      && secondaryAxes == monthBars
      && (monthBars ==> yearCount > 0)
    }

    function CurrentView(): View
      reads this
    {
      if monthBars then MonthView else YearView
    }

    /** The chart after `renderChart`: year bars only, `graphZoomedRef` false. */
    constructor (yearCount: nat)
      ensures Valid() && this.yearCount == yearCount
      ensures CurrentView() == YearView && !secondaryAxes && !graphZoomed
    {
      this.yearCount := yearCount;
      zoomScale := MaxZoom(yearCount);
      graphZoomed := false;
      secondaryAxes := false;
      monthBars := false;
    }

    /**
     * `zoomed(event)`: records whether the scale is exactly the largest one,
     * reports whether the brush is moved, and switches the drill level.
     */
    method Zoomed(ev: ZoomEvent) returns (moveBrush: bool)
      requires Valid()
      modifies this
      ensures Valid()
      ensures CurrentView() == NextView(old(CurrentView()), yearCount > 0, zoomScale, ev)
      ensures graphZoomed == (ev.k == zoomScale)
      ensures moveBrush == ZoomMovesBrush(ev.source)
    {
      graphZoomed := ev.k == zoomScale;
      moveBrush := !(ev.source.Some? && ev.source.value == "brush");
      if Abs(ev.k - zoomScale) < Epsilon {
        if ev.source.Some? && ev.source.value != "brush" {
          if !secondaryAxes {
            // showSecondaryXAxis appends one axis per bar group
            secondaryAxes := yearCount > 0;
            if !monthBars {
              // generateBarsMonth appends one secondary group per bar group
              monthBars := yearCount > 0;
            }
          }
        }
      } else {
        if monthBars {
          // generateBarsYear rebuilds the bar groups, then the monthly axes are removed
          monthBars := false;
          secondaryAxes := false;
        }
      }
    }

    /**
     * `brushed(event)` for a brush event whose `sourceEvent` has type
     * `source`: unless no gesture or the zoom caused it, it sets the zoom
     * transform to scale `k`, which runs `zoomed` at once. That zoom event
     * carries the brush event as its source when the library forwards it,
     * and no source otherwise. Reports whether `zoomed` ran and whether it
     * moved the brush in turn.
     */
    method Brushed(source: Option<string>, k: real, forwardsSource: bool) returns (zoomRan: bool, brushMoved: bool)
      requires Valid()
      modifies this
      ensures Valid()
      ensures zoomRan == BrushMovesZoom(source)
      ensures CurrentView() ==
        if zoomRan then NextView(old(CurrentView()), yearCount > 0, zoomScale, ZoomEvent(k, if forwardsSource then Some("brush") else None))
        else old(CurrentView())
      ensures graphZoomed == if zoomRan then k == zoomScale else old(graphZoomed)
      ensures brushMoved == (zoomRan && !forwardsSource)
    {
      zoomRan, brushMoved := false, false;
      if source.None? || source.value == "zoom" {
        return;
      }
      zoomRan := true;
      brushMoved := Zoomed(ZoomEvent(k, if forwardsSource then Some("brush") else None));
    }
  }

  /** The view after a sequence of zoom events. */
  function Replay(v: View, hasGroups: bool, zoomScale: real, events: seq<ZoomEvent>): View
    decreases |events|
  {
    if events == [] then v
    else Replay(NextView(v, hasGroups, zoomScale, events[0]), hasGroups, zoomScale, events[1..])
  }

  /** How many of the events switch the chart from the year view to the month view. */
  function Drills(v: View, hasGroups: bool, zoomScale: real, events: seq<ZoomEvent>): nat
    decreases |events|
  {
    if events == [] then 0
    else
      var w := NextView(v, hasGroups, zoomScale, events[0]);
      (if v == YearView && w == MonthView then 1 else 0) + Drills(w, hasGroups, zoomScale, events[1..])
  }

  /** Under chart gestures alone, the view depends only on the last scale: month view exactly at the maximum. */
  lemma {:induction false} ChartGesturesFollowLastScale(v: View, zoomScale: real, events: seq<ZoomEvent>)
    requires events != []
    requires forall n :: 0 <= n < |events| ==> DrillsOn(events[n].source)
    ensures Replay(v, true, zoomScale, events) ==
            if AtMaxZoom(events[|events| - 1].k, zoomScale) then MonthView else YearView
    decreases |events|
  {
    if |events| > 1 {
      ChartGesturesFollowLastScale(NextView(v, true, zoomScale, events[0]), zoomScale, events[1..]);
    }
  }

  /** Any events that stay within the tolerance keep the month view and drill nothing. */
  lemma {:induction false} AtMaxKeepsMonthView(hasGroups: bool, zoomScale: real, events: seq<ZoomEvent>)
    requires forall n :: 0 <= n < |events| ==> AtMaxZoom(events[n].k, zoomScale)
    ensures Replay(MonthView, hasGroups, zoomScale, events) == MonthView
    ensures Drills(MonthView, hasGroups, zoomScale, events) == 0
  {
    if events != [] {
      AtMaxKeepsMonthView(hasGroups, zoomScale, events[1..]);
    }
  }

  /**
   * Zooming in by chart gestures that reach the maximum at step `t` and stay
   * there drills into the month view exactly once.
   */
  lemma {:induction false} ApproachDrillsOnce(zoomScale: real, events: seq<ZoomEvent>, t: nat)
    requires t < |events|
    requires forall n :: 0 <= n < |events| ==> DrillsOn(events[n].source)
    requires forall n :: 0 <= n < t ==> !AtMaxZoom(events[n].k, zoomScale)
    requires forall n :: t <= n < |events| ==> AtMaxZoom(events[n].k, zoomScale)
    ensures Drills(YearView, true, zoomScale, events) == 1
    ensures Replay(YearView, true, zoomScale, events) == MonthView
  {
    if t == 0 {
      AtMaxKeepsMonthView(true, zoomScale, events[1..]);
    } else {
      ApproachDrillsOnce(zoomScale, events[1..], t - 1);
    }
  }

  /** Events at the maximum that come from the brush, or have no source, change nothing. */
  lemma {:induction false} ForwardedAtMaxKeepsView(v: View, hasGroups: bool, zoomScale: real, events: seq<ZoomEvent>)
    requires forall n :: 0 <= n < |events| ==> AtMaxZoom(events[n].k, zoomScale) && !DrillsOn(events[n].source)
    ensures Replay(v, hasGroups, zoomScale, events) == v
    ensures Drills(v, hasGroups, zoomScale, events) == 0
  {
    if events != [] {
      ForwardedAtMaxKeepsView(v, hasGroups, zoomScale, events[1..]);
    }
  }

  /** Whatever came before, a last event outside the tolerance leaves the year view. */
  lemma {:induction false} ZoomOutReturnsToYearView(v: View, hasGroups: bool, zoomScale: real, events: seq<ZoomEvent>)
    requires events != [] && !AtMaxZoom(events[|events| - 1].k, zoomScale)
    ensures Replay(v, hasGroups, zoomScale, events) == YearView
    decreases |events|
  {
    if |events| > 1 {
      ZoomOutReturnsToYearView(NextView(v, hasGroups, zoomScale, events[0]), hasGroups, zoomScale, events[1..]);
    }
  }

  /** The two handlers. */
  datatype Handler = ZoomHandler | BrushHandler

  /** A run of a handler with the type of its event's `sourceEvent`, if any. */
  datatype Dispatch = Dispatch(handler: Handler, source: Option<string>)

  /**
   * The handler run that a handler causes: `zoomed` calls `brush.move`,
   * `brushed` calls `zoom.transform`. `forwardsSource` says whether the
   * library gives the programmatic event the current event as its
   * `sourceEvent` (older d3) or none (newer d3).
   */
  function Fired(d: Dispatch, forwardsSource: bool): (r: Option<Dispatch>)
    ensures d.source.Some? && d.source.value !in {"zoom", "brush"} ==> r.Some?
    ensures r.Some? ==> r.value.handler != d.handler
    ensures r.Some? ==> r.value.source == None || r.value.source == Some("zoom") || r.value.source == Some("brush")
    ensures r.Some? && forwardsSource ==> r.value.source == Some(if d.handler == ZoomHandler then "zoom" else "brush")
    ensures r.Some? && !forwardsSource ==> r.value.source == None
    ensures r.Some? <==> (d.handler == ZoomHandler && ZoomMovesBrush(d.source)) || (d.handler == BrushHandler && BrushMovesZoom(d.source))
  {
    match d.handler
    case ZoomHandler =>
      if ZoomMovesBrush(d.source) then Some(Dispatch(BrushHandler, if forwardsSource then Some("zoom") else None)) else None
    case BrushHandler =>
      if BrushMovesZoom(d.source) then Some(Dispatch(ZoomHandler, if forwardsSource then Some("brush") else None)) else None
  }

  /**
   * A user gesture on either surface updates the other one, and the chain of
   * handler runs it causes stops after at most two more runs, whichever way
   * the library sets `sourceEvent`.
   */
  lemma HandlersDoNotLoop(d: Dispatch, forwardsSource: bool)
    ensures d.source.Some? && d.source.value !in {"zoom", "brush"} ==> Fired(d, forwardsSource).Some?
    ensures Fired(d, forwardsSource).Some? && Fired(Fired(d, forwardsSource).value, forwardsSource).Some? ==>
      Fired(Fired(Fired(d, forwardsSource).value, forwardsSource).value, forwardsSource).None?
  {
  }
}
