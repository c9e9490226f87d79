/**
  The per-binding gesture state machine of `vz.touch`: the `dragInfo` record,
  the flags `ignoreThisClick`, `ignoreThisDrag`, `dragEventsBound` and
  `dragFired`, and the five handlers `down`, `drag`, `dragEnder`, `up` and
  `click`, each stated here as a function from the old state and one input
  event to the new state, the callbacks it fires (in order) and whether it
  called `preventDefault` on the native event. Which listener a native event
  reaches is `Dispatch`; a sequence of events is `Run`.
 */
module Gesture {
  import opened Js
  import opened Binding

  /** Pixels along one axis beyond which a press is treated as a drag. */
  const DragThreshold: int := 3

  datatype EventType = TouchStart | TouchMove | TouchEnd | MouseDown | MouseMove | MouseUp | NativeClick

  datatype TouchPoint = TouchPoint(pageX: int, pageY: int)

  /** A native input event. `touches` is absent on mouse events, `button`
      on touch events; `reachesElement` says whether the event's target lies
      inside the bound element, so that the element's own listeners see it
      (listeners on the window see every event). `scrollLeft`/`scrollTop`
      are the page's scroll offsets and `time` the clock when it is handled. */
  datatype RawEvent = RawEvent(
    kind: EventType,
    target: nat,
    reachesElement: bool,
    touches: Option<seq<TouchPoint>>,
    button: Option<int>,
    pageX: Option<int>,
    pageY: Option<int>,
    clientX: Option<int>,
    clientY: Option<int>,
    scrollLeft: int,
    scrollTop: int,
    time: int)

  /** The page x position of an event: the first touch point, else the page
      coordinate, else the client coordinate plus the scroll offset. */
  function GetPosX(e: RawEvent): (x: Num)
    ensures x.NaN? <==>
      (e.touches.Some? && |e.touches.value| == 0) ||
      (e.touches.None? && e.pageX.None? && e.clientX.None?)
    ensures e.touches.Some? && |e.touches.value| > 0 ==> x == Finite(e.touches.value[0].pageX)
    ensures e.touches.None? && e.pageX.Some? ==> x == Finite(e.pageX.value)
    ensures e.touches.None? && e.pageX.None? && e.clientX.Some? ==>
      x == Finite(e.clientX.value + e.scrollLeft)
  {
    if e.touches.Some? && |e.touches.value| > 0 then Finite(e.touches.value[0].pageX)
    else if e.touches.None? && e.pageX.Some? then Finite(e.pageX.value)
    else if e.touches.None? && e.clientX.Some? then Finite(e.clientX.value + e.scrollLeft)
    else NaN
  }

  /** The page y position of an event, by the same chain as `GetPosX`. */
  function GetPosY(e: RawEvent): (y: Num)
    ensures y.NaN? <==>
      (e.touches.Some? && |e.touches.value| == 0) ||
      (e.touches.None? && e.pageY.None? && e.clientY.None?)
    ensures e.touches.Some? && |e.touches.value| > 0 ==> y == Finite(e.touches.value[0].pageY)
    ensures e.touches.None? && e.pageY.Some? ==> y == Finite(e.pageY.value)
    ensures e.touches.None? && e.pageY.None? && e.clientY.Some? ==>
      y == Finite(e.clientY.value + e.scrollTop)
  {
    if e.touches.Some? && |e.touches.value| > 0 then Finite(e.touches.value[0].pageY)
    else if e.touches.None? && e.pageY.Some? then Finite(e.pageY.value)
    else if e.touches.None? && e.clientY.Some? then Finite(e.clientY.value + e.scrollTop)
    else NaN
  }

  /** One `{x, y, t}` component of a callback payload. */
  datatype Vec = Vec(x: Num, y: Num, t: Num)

  /** One invocation of a registered callback, with its payload. */
  datatype Emission =
    | DownCall(target: nat, absolute: Vec)
    | UpCall(target: nat, absolute: Vec)
    | ClickCall(target: nat, absolute: Vec)
    | DragCall(dragTarget: Option<nat>, absolute: Vec, relative: Vec, delta: Vec, dragState: nat)

  /** `dragInfo`: start position, current position, total movement per
      axis, start time, time of the last event, target and drag state. */
  datatype DragInfo = DragInfo(
    sx: Num, sy: Num,
    x: Num, y: Num,
    tx: Num, ty: Num,
    st: Num, t: Num,
    target: Option<nat>,
    state: nat)

  /** Everything the handlers of one binding update. `windowListening`
      records whether `drag`, `dragEnder` and the selection killer are
      attached to the window; `elementListening` whether `down`, `up` and
      `click` are attached to the element. */
  datatype State = State(
    info: DragInfo,
    ignoreThisClick: bool,
    ignoreThisDrag: bool,
    dragEventsBound: bool,
    dragFired: bool,
    windowListening: bool,
    elementListening: bool)

  /** The outcome of one handler: new state, callbacks fired, and whether
      `preventDefault` was called on the native event. */
  datatype Step = Step(st: State, out: seq<Emission>, prevented: bool)

  function Idle(s: State): Step {
    Step(s, [], false)
  }

  /** The state right after binding: note that `dragEventsBound` starts out
      true although nothing is attached to the window yet, and that the
      start and last-event times are still `undefined`. */
  function Initial(): State {
    State(DragInfo(Finite(0), Finite(0), Finite(0), Finite(0), Finite(0), Finite(0), NaN, NaN, None, 0),
          false, false, true, false, false, true)
  }

  /** The totals are not negative, and the one on the locked-out axis is 0. */
  predicate Totals(axis: Axis, i: DragInfo) {
    && i.tx.NonNegative()
    && i.ty.NonNegative()
    && (axis == Horizontal ==> i.ty == Finite(0))
    && (axis == Vertical ==> i.tx == Finite(0))
  }

  /** What every reachable state satisfies. The totals only grow from 0; the
      total on the locked-out axis stays exactly 0, because only the zeroed
      delta is added to it; and therefore `ignoreThisDrag` is never set. The
      recorded drag state is 0 (nothing reported yet) or 1. */
  predicate Inv(c: Config, s: State) {
    && Totals(c.axis, s.info)
    && !s.ignoreThisDrag
    && (s.windowListening ==> s.dragEventsBound)
    && (s.dragFired ==> Drag in c.registered)
    && s.info.state <= 1
  }

  /** `dragDirection` zeroes the other axis of a payload component. */
  function Lock(axis: Axis, v: Vec): Vec {
    match axis
    case Free => v
    case Horizontal => v.(y := Finite(0))
    case Vertical => v.(x := Finite(0))
  }

  predicate OffAxisZero(axis: Axis, v: Vec) {
    && (axis == Horizontal ==> v.y == Finite(0))
    && (axis == Vertical ==> v.x == Finite(0))
  }

  /** A drag payload obeys the axis lock in all three components. */
  predicate Locked(axis: Axis, em: Emission) {
    em.DragCall? ==>
      OffAxisZero(axis, em.absolute) && OffAxisZero(axis, em.relative) && OffAxisZero(axis, em.delta)
  }

  /** `opts.selector && !matchesSelector(e.target, opts.selector)` is false. */
  predicate Selected(c: Config, e: RawEvent) {
    !Truthy(c.selector) || (e.target, c.selector) in c.matches
  }

  /** A multi-touch press (more than two touches) or a non-primary button. */
  predicate IgnoredPress(e: RawEvent) {
    (e.touches.Some? && |e.touches.value| > 2) || (e.button.Some? && e.button.value != 0)
  }

  /** A move with more than one touch point. */
  predicate MultiTouchMove(e: RawEvent) {
    e.touches.Some? && |e.touches.value| > 1
  }

  predicate Over(info: DragInfo) {
    info.tx.Greater(Finite(DragThreshold)) || info.ty.Greater(Finite(DragThreshold))
  }

  /** The drag record a press starts from. */
  function StartInfo(e: RawEvent): DragInfo {
    var x, y := GetPosX(e), GetPosY(e);
    DragInfo(x, y, x, y, Finite(0), Finite(0), Finite(e.time), Finite(e.time), Some(e.target), 0)
  }

  /** `down`, the element's `touchstart` and `mousedown` listener. */
  function DownStep(c: Config, s: State, e: RawEvent): (r: Step)
    ensures !Selected(c, e) || IgnoredPress(e) ==> r == Idle(s)
    ensures Selected(c, e) && !IgnoredPress(e) ==>
      && !r.st.ignoreThisClick
      && !r.st.ignoreThisDrag
      && r.st.dragFired == s.dragFired
      && r.st.elementListening == s.elementListening
      && r.out == (if Down in c.registered
                   then [DownCall(e.target, Vec(GetPosX(e), GetPosY(e), Finite(e.time)))] else [])
      && r.prevented == (Down in c.registered || (Drag in c.registered && e.kind == MouseDown))
    ensures Selected(c, e) && !IgnoredPress(e) && (Drag in c.registered || e.kind == TouchStart) ==>
      && r.st.info.sx == r.st.info.x == GetPosX(e)
      && r.st.info.sy == r.st.info.y == GetPosY(e)
      && r.st.info.tx == r.st.info.ty == Finite(0)
      && r.st.info.st == r.st.info.t == Finite(e.time)
      && r.st.info.target == Some(e.target)
      && r.st.info.state == 0
      && r.st.dragEventsBound && r.st.windowListening
    ensures !(Drag in c.registered || e.kind == TouchStart) ==>
      && r.st.info == s.info
      && r.st.dragEventsBound == s.dragEventsBound
      && r.st.windowListening == s.windowListening
    ensures Inv(c, s) ==> Inv(c, r.st)
  {
    if !Selected(c, e) || IgnoredPress(e) then Idle(s)
    else
      var out := if Down in c.registered
                 then [DownCall(e.target, Vec(GetPosX(e), GetPosY(e), Finite(e.time)))] else [];
      var prevented := Down in c.registered || (Drag in c.registered && e.kind == MouseDown);
      var s1 := s.(ignoreThisClick := false, ignoreThisDrag := false);
      if Drag in c.registered || e.kind == TouchStart then
        Step(s1.(info := StartInfo(e), windowListening := true, dragEventsBound := true), out, prevented)
      else
        Step(s1, out, prevented)
  }

  /** `x = getPosX(e); if (!x && x !== 0) x = dragInfo.x;` */
  function OrLast(v: Num, last: Num): Num {
    if v.NaN? then last else v
  }

  /** Whether `up` fires the click itself. */
  predicate SyntheticClick(c: Config, s: State, e: RawEvent) {
    Selected(c, e) && Click in c.registered && !s.ignoreThisClick &&
    (c.ignoreNativeClick || e.kind == TouchEnd)
  }

  /** `up`, the element's `touchend` and `mouseup` listener. */
  function UpStep(c: Config, s: State, e: RawEvent): (r: Step)
    ensures !Selected(c, e) ==> r == Idle(s)
    ensures r.st == s.(ignoreThisClick := s.ignoreThisClick || SyntheticClick(c, s, e))
    ensures var at := Vec(OrLast(GetPosX(e), s.info.x), OrLast(GetPosY(e), s.info.y), Finite(e.time));
      r.out == (if Selected(c, e) && Up in c.registered then [UpCall(e.target, at)] else []) +
               (if SyntheticClick(c, s, e) then [ClickCall(e.target, at)] else [])
    ensures forall i | 0 <= i < |r.out| ::
      && (r.out[i].UpCall? || r.out[i].ClickCall?)
      && r.out[i].target == e.target
      && r.out[i].absolute == Vec(OrLast(GetPosX(e), s.info.x), OrLast(GetPosY(e), s.info.y), Finite(e.time))
    ensures r.prevented == ((Selected(c, e) && Up in c.registered) || SyntheticClick(c, s, e))
    ensures Inv(c, s) ==> Inv(c, r.st)
  {
    if !Selected(c, e) then Idle(s)
    else
      var known := Click in c.registered || Up in c.registered;
      var x := if known then OrLast(GetPosX(e), s.info.x) else Finite(0);
      var y := if known then OrLast(GetPosY(e), s.info.y) else Finite(0);
      var up := if Up in c.registered then [UpCall(e.target, Vec(x, y, Finite(e.time)))] else [];
      if Click in c.registered && !s.ignoreThisClick && (c.ignoreNativeClick || e.kind == TouchEnd) then
        var out := up + [ClickCall(e.target, Vec(x, y, Finite(e.time)))];
        assert out[|out| - 1].ClickCall?;
        assert Up in c.registered ==> out[0].UpCall?;
        Step(s.(ignoreThisClick := true), out, true)
      else
        assert Up in c.registered ==> up[0].UpCall?;
        Step(s, up, Up in c.registered)
  }

  /** `click`, the element's native `click` listener. It never sets
      `ignoreThisClick` itself. */
  function ClickStep(c: Config, s: State, e: RawEvent): (r: Step)
    ensures r.st == s
    ensures r.prevented <==> Selected(c, e) && Click in c.registered && !s.ignoreThisClick
    ensures r.out == if r.prevented
                     then [ClickCall(e.target, Vec(GetPosX(e), GetPosY(e), Finite(e.time)))] else []
  {
    if Selected(c, e) && !s.ignoreThisClick && Click in c.registered then
      Step(s, [ClickCall(e.target, Vec(GetPosX(e), GetPosY(e), Finite(e.time)))], true)
    else
      Idle(s)
  }

  /** The first-move test of the axis lock: more movement across the
      configured axis than along it. */
  predicate RejectsFirstMove(axis: Axis, info: DragInfo) {
    (axis == Vertical && info.ty.Less(info.tx)) || (axis == Horizontal && info.tx.Less(info.ty))
  }

  /** The payload `drag` builds before it updates any state: the new
      position, and its displacement from the start and from the last move,
      with the locked-out axis zeroed. */
  function DragPayload(c: Config, i: DragInfo, e: RawEvent): (d: Emission)
    ensures d.DragCall? && d.dragState == i.state && d.dragTarget == i.target && Locked(c.axis, d)
    ensures c.axis != Vertical ==>
      && d.absolute.x == GetPosX(e) && d.relative.x == GetPosX(e).Minus(i.sx) && d.delta.x == GetPosX(e).Minus(i.x)
    ensures c.axis != Horizontal ==>
      && d.absolute.y == GetPosY(e) && d.relative.y == GetPosY(e).Minus(i.sy) && d.delta.y == GetPosY(e).Minus(i.y)
    ensures && d.absolute.t == Finite(e.time) && d.relative.t == Finite(e.time).Minus(i.st)
            && d.delta.t == Finite(e.time).Minus(i.t)
  {
    var nx, ny, nt := GetPosX(e), GetPosY(e), Finite(e.time);
    DragCall(i.target,
             Lock(c.axis, Vec(nx, ny, nt)),
             Lock(c.axis, Vec(nx.Minus(i.sx), ny.Minus(i.sy), nt.Minus(i.st))),
             Lock(c.axis, Vec(nx.Minus(i.x), ny.Minus(i.y), nt.Minus(i.t))),
             i.state)
  }

  /** The drag record after a move: the new position and time, and each
      total grown by the absolute value of the (axis-locked) delta. */
  function Moved(c: Config, i: DragInfo, e: RawEvent): (m: DragInfo)
    ensures m.x == GetPosX(e) && m.y == GetPosY(e) && m.t == Finite(e.time)
    ensures m.sx == i.sx && m.sy == i.sy && m.st == i.st && m.target == i.target && m.state == i.state
    ensures m.tx == if c.axis == Vertical then i.tx else i.tx.Plus(GetPosX(e).Minus(i.x).Abs())
    ensures m.ty == if c.axis == Horizontal then i.ty else i.ty.Plus(GetPosY(e).Minus(i.y).Abs())
    ensures i.tx.AtMost(m.tx) && i.ty.AtMost(m.ty)
    ensures i.tx.NonNegative() ==> m.tx.NonNegative()
    ensures i.ty.NonNegative() ==> m.ty.NonNegative()
    ensures c.axis == Horizontal && i.ty == Finite(0) ==> m.ty == Finite(0)
    ensures c.axis == Vertical && i.tx == Finite(0) ==> m.tx == Finite(0)
  {
    var delta := DragPayload(c, i, e).delta;
    i.(t := Finite(e.time), x := GetPosX(e), y := GetPosY(e),
       tx := i.tx.Plus(delta.x.Abs()), ty := i.ty.Plus(delta.y.Abs()))
  }

  /** `drag`, the window's `touchmove` and `mousemove` listener. */
  function DragStep(c: Config, s: State, e: RawEvent): (r: Step)
    ensures MultiTouchMove(e) || s.ignoreThisDrag ==> r == Idle(s)
    ensures !MultiTouchMove(e) && !s.ignoreThisDrag ==>
      && r.st.info.x == GetPosX(e) && r.st.info.y == GetPosY(e) && r.st.info.t == Finite(e.time)
      && r.st.info.tx == Moved(c, s.info, e).tx && r.st.info.ty == Moved(c, s.info, e).ty
    ensures && r.st.info.sx == s.info.sx && r.st.info.sy == s.info.sy
            && r.st.info.st == s.info.st && r.st.info.target == s.info.target
    ensures s.info.tx.AtMost(r.st.info.tx) && s.info.ty.AtMost(r.st.info.ty)
    ensures && r.st.elementListening == s.elementListening
            && r.st.windowListening == s.windowListening
            && r.st.dragEventsBound == s.dragEventsBound
    ensures r.st.ignoreThisDrag == (s.ignoreThisDrag ||
      (!MultiTouchMove(e) && s.info.state == 0 && RejectsFirstMove(c.axis, Moved(c, s.info, e))))
    ensures r.st.ignoreThisClick ==
      (s.ignoreThisClick || (!MultiTouchMove(e) && !r.st.ignoreThisDrag && Over(r.st.info)))
    ensures |r.out| <= 1
    ensures r.st.ignoreThisDrag ==> r.out == []
    ensures r.out != [] ==>
      && Drag in c.registered && Over(r.st.info) && r.prevented
      && r.out[0] == DragPayload(c, s.info, e)
      && r.st.dragFired && r.st.info.state == 1
    ensures r.out == [] ==>
      !r.prevented && r.st.dragFired == s.dragFired && r.st.info.state == s.info.state
  {
    if MultiTouchMove(e) || s.ignoreThisDrag then Idle(s)
    else
      var data := DragPayload(c, s.info, e);
      var moved := Moved(c, s.info, e);
      var s1 := s.(info := moved);
      if data.dragState == 0 && RejectsFirstMove(c.axis, moved) then
        Idle(s1.(ignoreThisDrag := true))
      else
        var over := Over(moved);
        var s2 := if !s1.ignoreThisClick && over then s1.(ignoreThisClick := true) else s1;
        if Drag in c.registered && over then
          Step(s2.(dragFired := true, info := moved.(state := 1)), [data], true)
        else
          Step(s2, [], false)
  }

  /** Whether the end of the current drag still has to be reported. */
  predicate Owed(c: Config, s: State) {
    s.dragEventsBound && Drag in c.registered && s.dragFired
  }

  /** `dragEnder`, the window's capturing `touchend` and `mouseup` listener,
      also called by the cleanup function. `now` is the clock. */
  function DragEnderStep(c: Config, s: State, now: int): (r: Step)
    ensures !r.st.windowListening && !r.st.dragEventsBound && !r.prevented
    ensures r.st == s.(windowListening := false, dragEventsBound := false,
                       dragFired := s.dragFired && !Owed(c, s))
    ensures |r.out| == (if Owed(c, s) then 1 else 0)
    ensures r.out != [] ==>
      && r.out[0].DragCall? && r.out[0].dragState == 2
      && r.out[0].dragTarget == s.info.target
      && r.out[0].absolute == Lock(c.axis, Vec(s.info.x, s.info.y, Finite(now)))
      && r.out[0].relative == Lock(c.axis, Vec(s.info.x.Minus(s.info.sx), s.info.y.Minus(s.info.sy),
                                               Finite(now).Minus(s.info.st)))
      && r.out[0].delta == Lock(c.axis, Vec(Finite(0), Finite(0), Finite(now).Minus(s.info.t)))
      && r.out[0].delta.x == r.out[0].delta.y == Finite(0)
    ensures forall i | 0 <= i < |r.out| :: Locked(c.axis, r.out[i])
    ensures Inv(c, s) ==> Inv(c, r.st)
  {
    var s1 := s.(windowListening := false);
    if s1.dragEventsBound then
      var s2 := s1.(dragEventsBound := false);
      if Drag in c.registered && s2.dragFired then
        var i := s.info;
        Step(s2.(dragFired := false),
             [DragCall(i.target,
                       Lock(c.axis, Vec(i.x, i.y, Finite(now))),
                       Lock(c.axis, Vec(i.x.Minus(i.sx), i.y.Minus(i.sy), Finite(now).Minus(i.st))),
                       Lock(c.axis, Vec(Finite(0), Finite(0), Finite(now).Minus(i.t))),
                       2)],
             false)
      else
        Idle(s2)
    else
      Idle(s1)
  }

  /** The cleanup function `vz.touch` returns. It clears `dragEventsBound`
      before calling `dragEnder`, so it never reports the end of a drag, even
      one that is owed. */
  function UnbindStep(c: Config, s: State, now: int): (r: Step)
    ensures r.out == [] && !r.prevented
    ensures r.st == s.(elementListening := false, dragEventsBound := false,
                       windowListening := s.windowListening && !s.dragEventsBound)
    ensures Inv(c, s) ==> Inv(c, r.st) && !r.st.windowListening
  {
    var s1 := s.(elementListening := false);
    if s1.dragEventsBound then
      DragEnderStep(c, s1.(dragEventsBound := false), now)
    else
      Idle(s1)
  }

  /** A `touchend` or `mouseup`: the window's capturing `dragEnder` runs
      before the element's `up`, each only while attached. */
  function Release(c: Config, s: State, e: RawEvent, upAttached: bool): (r: Step)
  {
    var a := EndPhase(c, s, e);
    var b := UpPhase(c, a.st, e, upAttached);
    Step(b.st, a.out + b.out, a.prevented || b.prevented)
  }

  /** The window's part of a release. */
  function EndPhase(c: Config, s: State, e: RawEvent): Step {
    if s.windowListening then DragEnderStep(c, s, e.time) else Idle(s)
  }

  /** The element's part of a release. */
  function UpPhase(c: Config, s: State, e: RawEvent, upAttached: bool): Step {
    if s.elementListening && e.reachesElement && upAttached then UpStep(c, s, e) else Idle(s)
  }

  /** Delivery of one native event to the listeners attached at that moment:
      `touchstart` and `touchend` always reach the element's listeners, the
      mouse and `click` listeners are only attached when native clicks are
      not ignored. */
  function Dispatch(c: Config, s: State, e: RawEvent): (r: Step)
    ensures !s.elementListening && !s.windowListening ==> r == Idle(s)
    ensures c.ignoreNativeClick && (e.kind == MouseDown || e.kind == NativeClick) ==> r == Idle(s)
    ensures c.ignoreNativeClick && e.kind == MouseUp ==> r == EndPhase(c, s, e)
    ensures forall i | 0 < i < |r.out| :: !r.out[i].DragCall?
    ensures forall i | 0 <= i < |r.out| :: Locked(c.axis, r.out[i])
  {
    var onElement := s.elementListening && e.reachesElement;
    match e.kind
    case TouchStart => if onElement then DownStep(c, s, e) else Idle(s)
    case MouseDown => if onElement && !c.ignoreNativeClick then DownStep(c, s, e) else Idle(s)
    case TouchMove => if s.windowListening then DragStep(c, s, e) else Idle(s)
    case MouseMove => if s.windowListening then DragStep(c, s, e) else Idle(s)
    case TouchEnd => Release(c, s, e, true)
    case MouseUp => Release(c, s, e, !c.ignoreNativeClick)
    case NativeClick => if onElement && !c.ignoreNativeClick then ClickStep(c, s, e) else Idle(s)
  }

  /** A sequence of native events, delivered one after another. */
  function Run(c: Config, s: State, es: seq<RawEvent>): (r: Step)
    decreases |es|
    ensures !s.elementListening && !s.windowListening ==> r == Idle(s)
  {
    if es == [] then Idle(s)
    else
      var d := Dispatch(c, s, es[0]);
      var rest := Run(c, d.st, es[1..]);
      Step(rest.st, d.out + rest.out, d.prevented || rest.prevented)
  }
}
