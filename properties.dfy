/**
  What the gesture state machine guarantees over whole event sequences:
  the invariant every handler keeps (and with it, that the axis-lock
  rejection never fires), the axis lock on every drag payload, click
  suppression until the next press, totals that only grow, the order of
  drag states, and a few concrete gestures.
 */
module GestureProperties {
  import opened Js
  import opened Binding
  import opened Gesture

  /** `touchstart` and `mousedown`, the events that start a new press. */
  predicate IsPress(e: RawEvent) {
    e.kind == TouchStart || e.kind == MouseDown
  }

  predicate NoPress(es: seq<RawEvent>) {
    forall i | 0 <= i < |es| :: !IsPress(es[i])
  }

  /** After a delivered drag event no later event of the same press can carry
      drag state 0: either the state is already 1, or the window listeners
      are gone. */
  predicate Settled(s: State) {
    s.info.state == 1 || !s.windowListening
  }

  /** The drag states of the drag payloads among `out`, in order. */
  function DragStates(out: seq<Emission>): (ds: seq<nat>)
    ensures |ds| <= |out|
  {
    if out == [] then []
    else (if out[0].DragCall? then [out[0].dragState] else []) + DragStates(out[1..])
  }

  lemma {:induction false} DragStatesAppend(a: seq<Emission>, b: seq<Emission>)
    ensures DragStates(a + b) == DragStates(a) + DragStates(b)
  {
    if a == [] {
      assert a + b == b;
    } else {
      var h := if a[0].DragCall? then [a[0].dragState] else [];
      assert (a + b)[0] == a[0] && (a + b)[1..] == a[1..] + b;
      assert DragStates(a + b) == h + DragStates(a[1..] + b);
      DragStatesAppend(a[1..], b);
      assert DragStates(a) == h + DragStates(a[1..]);
      assert h + (DragStates(a[1..]) + DragStates(b)) == (h + DragStates(a[1..])) + DragStates(b);
    }
  }

  lemma {:induction false} NoDragStates(out: seq<Emission>)
    requires forall i | 0 <= i < |out| :: !out[i].DragCall?
    ensures DragStates(out) == []
  {
    if out != [] {
      assert forall i | 0 <= i < |out[1..]| :: !out[1..][i].DragCall?;
      NoDragStates(out[1..]);
    }
  }

  /** Where only the first callback can be a drag, it alone gives the drag
      states. */
  lemma DragStatesOfHead(out: seq<Emission>)
    requires forall i | 0 < i < |out| :: !out[i].DragCall?
    ensures DragStates(out) == if out != [] && out[0].DragCall? then [out[0].dragState] else []
  {
    if out != [] {
      assert forall i | 0 <= i < |out[1..]| :: !out[1..][i].DragCall?;
      NoDragStates(out[1..]);
    }
  }

  lemma InitialKeepsInv(c: Config)
    ensures Inv(c, Initial())
  {
  }

  /** The quirk of the axis lock: `drag` adds the zeroed delta to the total
      of the locked-out axis, so that total stays 0 and the first-move
      rejection test can never succeed. */
  lemma NoFirstMoveRejection(c: Config, i: DragInfo, e: RawEvent)
    requires Totals(c.axis, i)
    ensures !RejectsFirstMove(c.axis, Moved(c, i, e))
    ensures Totals(c.axis, Moved(c, i, e))
  {
    var m := Moved(c, i, e);
    assert m.tx.NonNegative() && m.ty.NonNegative();
    if c.axis == Horizontal {
      assert m.ty == Finite(0);
    } else if c.axis == Vertical {
      assert m.tx == Finite(0);
    }
  }

  lemma DragKeepsInv(c: Config, s: State, e: RawEvent)
    requires Inv(c, s)
    ensures var r := DragStep(c, s, e);
      && Inv(c, r.st)
      && (!MultiTouchMove(e) ==> r.st.ignoreThisClick == (s.ignoreThisClick || Over(r.st.info)))
      && (r.out != [] <==> !MultiTouchMove(e) && Drag in c.registered && Over(r.st.info))
  {
    if !MultiTouchMove(e) {
      NoFirstMoveRejection(c, s.info, e);
    }
  }

  lemma DispatchKeepsInv(c: Config, s: State, e: RawEvent)
    requires Inv(c, s)
    ensures Inv(c, Dispatch(c, s, e).st)
  {
    if e.kind == TouchMove || e.kind == MouseMove {
      DragKeepsInv(c, s, e);
    }
  }

  lemma {:induction false} RunKeepsInv(c: Config, s: State, es: seq<RawEvent>)
    requires Inv(c, s)
    ensures Inv(c, Run(c, s, es).st)
    decreases |es|
  {
    if es != [] {
      DispatchKeepsInv(c, s, es[0]);
      RunKeepsInv(c, Dispatch(c, s, es[0]).st, es[1..]);
    }
  }

  /** Whatever events arrive after binding, `ignoreThisDrag` stays false. */
  lemma AxisLockRejectionNeverFires(c: Config, es: seq<RawEvent>)
    ensures !Run(c, Initial(), es).st.ignoreThisDrag
  {
    RunKeepsInv(c, Initial(), es);
  }

  /** Every drag payload of every run, the final one included, has the
      locked-out axis zeroed in `absolute`, `relative` and `delta`. */
  lemma {:induction false} AxisLockOnEveryPayload(c: Config, s: State, es: seq<RawEvent>)
    ensures forall i | 0 <= i < |Run(c, s, es).out| :: Locked(c.axis, Run(c, s, es).out[i])
    decreases |es|
  {
    if es != [] {
      var d := Dispatch(c, s, es[0]);
      AxisLockOnEveryPayload(c, d.st, es[1..]);
      var rest := Run(c, d.st, es[1..]);
      assert Run(c, s, es).out == d.out + rest.out;
    }
  }

  /** What one event that is not a press can and cannot change. */
  ghost predicate KeepsPress(s: State, r: Step) {
    && s.info.tx.AtMost(r.st.info.tx)
    && s.info.ty.AtMost(r.st.info.ty)
    && (s.ignoreThisClick ==> r.st.ignoreThisClick && forall i | 0 <= i < |r.out| :: !r.out[i].ClickCall?)
    && |DragStates(r.out)| <= 1
    && (DragStates(r.out) == [] ==> r.st.info.state == s.info.state)
    && (DragStates(r.out) != [] ==>
          (DragStates(r.out)[0] == s.info.state || DragStates(r.out)[0] == 2) && Settled(r.st))
    && (Settled(s) ==> Settled(r.st) && 0 !in DragStates(r.out))
  }

  lemma MoveKeepsPress(c: Config, s: State, e: RawEvent)
    requires s.windowListening
    ensures KeepsPress(s, DragStep(c, s, e))
  {
    var r := DragStep(c, s, e);
    DragStatesOfHead(r.out);
    assert r.out != [] ==> r.st.info.state == 1;
  }

  lemma EnderKeepsPress(c: Config, s: State, now: int)
    ensures KeepsPress(s, DragEnderStep(c, s, now))
  {
    DragStatesOfHead(DragEnderStep(c, s, now).out);
  }

  lemma UpKeepsPress(c: Config, s: State, e: RawEvent)
    ensures KeepsPress(s, UpStep(c, s, e))
  {
    var r := UpStep(c, s, e);
    assert forall i | 0 <= i < |r.out| :: !r.out[i].DragCall?;
    NoDragStates(r.out);
    assert s.ignoreThisClick ==> !SyntheticClick(c, s, e);
  }

  lemma NoClickCallsAppend(a: seq<Emission>, b: seq<Emission>)
    requires forall i | 0 <= i < |a| :: !a[i].ClickCall?
    requires forall i | 0 <= i < |b| :: !b[i].ClickCall?
    ensures forall i | 0 <= i < |a + b| :: !(a + b)[i].ClickCall?
  {
    forall i | 0 <= i < |a + b|
      ensures !(a + b)[i].ClickCall?
    {
      if i >= |a| {
        assert (a + b)[i] == b[i - |a|];
      }
    }
  }

  /** Two steps in a row keep the press when the second reports no drag. */
  lemma KeepsPressThen(s: State, a: Step, b: Step)
    requires KeepsPress(s, a) && KeepsPress(a.st, b) && DragStates(b.out) == []
    ensures KeepsPress(s, Step(b.st, a.out + b.out, a.prevented || b.prevented))
  {
    DragStatesAppend(a.out, b.out);
    var out := a.out + b.out;
    assert DragStates(out) == DragStates(a.out);
    assert s.info.tx.AtMost(b.st.info.tx) && s.info.ty.AtMost(b.st.info.ty);
    if s.ignoreThisClick {
      assert a.st.ignoreThisClick;
      NoClickCallsAppend(a.out, b.out);
    }
    if DragStates(a.out) == [] {
      assert b.st.info.state == a.st.info.state == s.info.state;
    } else {
      assert Settled(a.st);
    }
    if Settled(s) {
      assert Settled(a.st);
    }
  }

  lemma ReleaseKeepsPress(c: Config, s: State, e: RawEvent, upAttached: bool)
    ensures KeepsPress(s, Release(c, s, e, upAttached))
  {
    var a := EndPhase(c, s, e);
    if s.windowListening {
      EnderKeepsPress(c, s, e.time);
    }
    var b := UpPhase(c, a.st, e, upAttached);
    if a.st.elementListening && e.reachesElement && upAttached {
      UpKeepsPress(c, a.st, e);
    }
    KeepsPressThen(s, a, b);
  }

  lemma DispatchWithoutPress(c: Config, s: State, e: RawEvent)
    requires !IsPress(e)
    ensures KeepsPress(s, Dispatch(c, s, e))
  {
    match e.kind
    case TouchMove => if s.windowListening { MoveKeepsPress(c, s, e); }
    case MouseMove => if s.windowListening { MoveKeepsPress(c, s, e); }
    case TouchEnd => ReleaseKeepsPress(c, s, e, true);
    case MouseUp => ReleaseKeepsPress(c, s, e, !c.ignoreNativeClick);
    case NativeClick =>
  }

  /** Once `ignoreThisClick` is set, no click callback fires and the flag
      stays set until the next press. */
  lemma {:induction false} ClickSuppressedUntilPress(c: Config, s: State, es: seq<RawEvent>)
    requires s.ignoreThisClick && NoPress(es)
    ensures Run(c, s, es).st.ignoreThisClick
    ensures forall i | 0 <= i < |Run(c, s, es).out| :: !Run(c, s, es).out[i].ClickCall?
    decreases |es|
  {
    if es != [] {
      DispatchWithoutPress(c, s, es[0]);
      var d := Dispatch(c, s, es[0]);
      ClickSuppressedUntilPress(c, d.st, es[1..]);
      assert Run(c, s, es).out == d.out + Run(c, d.st, es[1..]).out;
    }
  }

  /** Between two presses the totals `tx` and `ty` never decrease. */
  lemma {:induction false} TotalsNeverShrinkUntilPress(c: Config, s: State, es: seq<RawEvent>)
    requires NoPress(es)
    ensures s.info.tx.AtMost(Run(c, s, es).st.info.tx)
    ensures s.info.ty.AtMost(Run(c, s, es).st.info.ty)
    decreases |es|
  {
    if es != [] {
      DispatchWithoutPress(c, s, es[0]);
      TotalsNeverShrinkUntilPress(c, Dispatch(c, s, es[0]).st, es[1..]);
    }
  }

  /** Drag state 1 throughout, except for a final 2. */
  predicate OnesThenFinal(ds: seq<nat>) {
    forall k | 0 <= k < |ds| :: ds[k] == 1 || (ds[k] == 2 && k == |ds| - 1)
  }

  /** With the window listeners detached, an event other than a press
      reports no drag and attaches nothing. */
  lemma DetachedStaysQuiet(c: Config, s: State, e: RawEvent)
    requires !IsPress(e) && !s.windowListening
    ensures !Dispatch(c, s, e).st.windowListening && DragStates(Dispatch(c, s, e).out) == []
  {
    if e.kind == TouchEnd || e.kind == MouseUp {
      var b := UpPhase(c, s, e, e.kind == TouchEnd || !c.ignoreNativeClick);
      assert Dispatch(c, s, e).out == [] + b.out;
      assert forall i | 0 <= i < |b.out| :: !b.out[i].DragCall?;
      NoDragStates(b.out);
    } else if e.kind == NativeClick {
      NoDragStates(Dispatch(c, s, e).out);
    }
  }

  /** The final drag payload (drag state 2) detaches the window listeners. */
  lemma FinalDetaches(c: Config, s: State, e: RawEvent)
    requires Inv(c, s) && !IsPress(e)
    ensures 2 in DragStates(Dispatch(c, s, e).out) ==> !Dispatch(c, s, e).st.windowListening
  {
    if !s.windowListening {
      DetachedStaysQuiet(c, s, e);
    } else if e.kind == TouchMove || e.kind == MouseMove {
      DragStatesOfHead(DragStep(c, s, e).out);
    } else if e.kind == TouchEnd || e.kind == MouseUp {
      var a := EndPhase(c, s, e);
      var b := UpPhase(c, a.st, e, e.kind == TouchEnd || !c.ignoreNativeClick);
      assert !a.st.windowListening && b.st.windowListening == a.st.windowListening;
    }
  }

  /** Without a press, detached window listeners stay detached and no drag is
      reported. */
  lemma {:induction false} QuietWhileDetached(c: Config, s: State, es: seq<RawEvent>)
    requires !s.windowListening && NoPress(es)
    ensures DragStates(Run(c, s, es).out) == []
    decreases |es|
  {
    if es != [] {
      DetachedStaysQuiet(c, s, es[0]);
      var d := Dispatch(c, s, es[0]);
      QuietWhileDetached(c, d.st, es[1..]);
      DragStatesAppend(d.out, Run(c, d.st, es[1..]).out);
    }
  }

  lemma OnesThenFinalConcat(dd: seq<nat>, dr: seq<nat>)
    requires dd == [] || dd == [1] || dd == [2]
    requires dd == [2] ==> dr == []
    requires OnesThenFinal(dr)
    ensures OnesThenFinal(dd + dr)
  {
    if dd != [] {
      assert forall k | 1 <= k < |dd + dr| :: (dd + dr)[k] == dr[k - 1];
    }
  }

  /** One event other than a press, once the press is settled: it reports
      at most one drag, with state 1 or the final 2, and the final one
      detaches the window listeners. */
  lemma SettledStep(c: Config, s: State, e: RawEvent)
    requires Inv(c, s) && Settled(s) && !IsPress(e)
    ensures var d := Dispatch(c, s, e); var dd := DragStates(d.out);
      && Inv(c, d.st) && Settled(d.st)
      && (dd == [] || dd == [1] || dd == [2])
      && (dd == [2] ==> !d.st.windowListening)
  {
    DispatchWithoutPress(c, s, e);
    DispatchKeepsInv(c, s, e);
    if !s.windowListening {
      DetachedStaysQuiet(c, s, e);
    }
    FinalDetaches(c, s, e);
  }

  /** Once the first drag payload of a press has been delivered, every later
      one carries drag state 1, except the final one, which carries 2. */
  lemma {:induction false} SettledStaysSettled(c: Config, s: State, es: seq<RawEvent>)
    requires Inv(c, s) && Settled(s) && NoPress(es)
    ensures OnesThenFinal(DragStates(Run(c, s, es).out))
    decreases |es|
  {
    if es != [] {
      SettledStep(c, s, es[0]);
      var d := Dispatch(c, s, es[0]);
      var rest := Run(c, d.st, es[1..]);
      DragStatesAppend(d.out, rest.out);
      var dd := DragStates(d.out);
      if dd == [2] {
        QuietWhileDetached(c, d.st, es[1..]);
      } else {
        SettledStaysSettled(c, d.st, es[1..]);
      }
      OnesThenFinalConcat(dd, DragStates(rest.out));
    }
  }

  /** Within one press, only the first drag payload can carry drag state 0:
      drag state 0 is reported at most once. */
  lemma {:induction false} DragStateZeroAtMostOnce(c: Config, s: State, es: seq<RawEvent>)
    requires Inv(c, s) && NoPress(es)
    ensures ZeroOnlyAtHead(DragStates(Run(c, s, es).out))
    decreases |es|
  {
    if es != [] {
      DispatchWithoutPress(c, s, es[0]);
      DispatchKeepsInv(c, s, es[0]);
      var d := Dispatch(c, s, es[0]);
      var rest := Run(c, d.st, es[1..]);
      DragStatesAppend(d.out, rest.out);
      var dd, dr := DragStates(d.out), DragStates(rest.out);
      assert DragStates(Run(c, s, es).out) == dd + dr;
      assert |dd| <= 1 && (dd != [] ==> Settled(d.st));
      if dd == [] {
        DragStateZeroAtMostOnce(c, d.st, es[1..]);
      } else {
        SettledStaysSettled(c, d.st, es[1..]);
      }
      ZeroOnlyFirst(dd, dr);
    }
  }

  predicate ZeroOnlyAtHead(ds: seq<nat>) {
    forall j | 0 < j < |ds| :: ds[j] != 0
  }

  lemma ZeroOnlyFirst(dd: seq<nat>, dr: seq<nat>)
    requires |dd| <= 1
    requires dd == [] ==> ZeroOnlyAtHead(dr)
    requires dd != [] ==> 0 !in dr
    ensures ZeroOnlyAtHead(dd + dr)
  {
    if dd != [] {
      assert forall j | 0 < j < |dd + dr| :: (dd + dr)[j] == dr[j - 1];
    }
  }

  /** Within one press, the first drag payload carries the drag state the
      press started from (0 after `down`), unless it is the final one (2). */
  lemma {:induction false} FirstDragState(c: Config, s: State, es: seq<RawEvent>)
    requires NoPress(es)
    ensures var ds := DragStates(Run(c, s, es).out);
      ds != [] ==> ds[0] == s.info.state || ds[0] == 2
    decreases |es|
  {
    if es != [] {
      DispatchWithoutPress(c, s, es[0]);
      var d := Dispatch(c, s, es[0]);
      var rest := Run(c, d.st, es[1..]);
      DragStatesAppend(d.out, rest.out);
      if DragStates(d.out) == [] {
        FirstDragState(c, d.st, es[1..]);
      }
    }
  }

  /** The number of click callbacks among `out`. */
  function ClickCount(out: seq<Emission>): nat {
    if out == [] then 0
    else (if out[0].ClickCall? then 1 else 0) + ClickCount(out[1..])
  }

  lemma {:induction false} ClickCountAppend(a: seq<Emission>, b: seq<Emission>)
    ensures ClickCount(a + b) == ClickCount(a) + ClickCount(b)
  {
    if a == [] {
      assert a + b == b;
    } else {
      assert (a + b)[0] == a[0] && (a + b)[1..] == a[1..] + b;
      ClickCountAppend(a[1..], b);
    }
  }

  lemma {:induction false} NoClicks(out: seq<Emission>)
    requires forall i | 0 <= i < |out| :: !out[i].ClickCall?
    ensures ClickCount(out) == 0
  {
    if out != [] {
      assert forall i | 0 <= i < |out[1..]| :: !out[1..][i].ClickCall?;
      NoClicks(out[1..]);
    }
  }

  /** Within the threshold: totals known and no larger than 3 on either axis. */
  predicate WithinThreshold(i: DragInfo) {
    i.tx.AtMost(Finite(DragThreshold)) && i.ty.AtMost(Finite(DragThreshold))
  }

  /** A `touchend` on the element, where the click callback is registered. */
  predicate LiftOnElement(c: Config, e: RawEvent) {
    e.kind == TouchEnd && e.reachesElement && Selected(c, e) && Click in c.registered
  }

  /** A touch press arms the click and attaches the window listeners,
      reporting neither a click nor a drag. */
  lemma TouchPressArms(c: Config, s: State, press: RawEvent)
    requires Inv(c, s) && s.elementListening
    requires press.kind == TouchStart && press.reachesElement && Selected(c, press) && !IgnoredPress(press)
    ensures var d := Dispatch(c, s, press);
      && Inv(c, d.st) && d.st.windowListening && !d.st.ignoreThisClick
      && d.st.dragFired == s.dragFired && d.st.elementListening
      && ClickCount(d.out) == 0 && DragStates(d.out) == []
  {
    var d := Dispatch(c, s, press);
    assert d == DownStep(c, s, press);
    assert forall i | 0 <= i < |d.out| :: !d.out[i].DragCall? && !d.out[i].ClickCall?;
    NoDragStates(d.out);
    NoClicks(d.out);
  }

  /** A lift with the click armed and no drag reported fires exactly one
      click and reports no drag. */
  lemma ArmedLiftClicks(c: Config, m: State, lift: RawEvent)
    requires m.elementListening && !m.ignoreThisClick && !m.dragFired && LiftOnElement(c, lift)
    ensures ClickCount(Dispatch(c, m, lift).out) == 1 && DragStates(Dispatch(c, m, lift).out) == []
  {
    var a := EndPhase(c, m, lift);
    assert a.out == [] && a.st.elementListening && !a.st.ignoreThisClick;
    var u := UpStep(c, a.st, lift);
    assert Dispatch(c, m, lift).out == [] + u.out;
    assert SyntheticClick(c, a.st, lift);
    var at := Vec(OrLast(GetPosX(lift), a.st.info.x), OrLast(GetPosY(lift), a.st.info.y), Finite(lift.time));
    var ups := if Up in c.registered then [UpCall(lift.target, at)] else [];
    assert u.out == ups + [ClickCall(lift.target, at)];
    NoClicks(ups);
    ClickCountAppend(ups, [ClickCall(lift.target, at)]);
    assert ClickCount([ClickCall(lift.target, at)]) == 1 + ClickCount([]);
    assert ClickCount(u.out) == 1;
    assert Dispatch(c, m, lift).out == u.out;
    assert forall i | 0 <= i < |u.out| :: !u.out[i].DragCall?;
    NoDragStates(u.out);
  }

  /** A move that leaves the totals within the threshold reports nothing and
      leaves the click armed. */
  lemma SmallMoveKeepsClick(c: Config, s: State, e: RawEvent, total: DragInfo)
    requires Inv(c, s) && s.windowListening && !s.ignoreThisClick && e.kind == TouchMove
    requires Dispatch(c, s, e).st.info.tx.AtMost(total.tx) && Dispatch(c, s, e).st.info.ty.AtMost(total.ty)
    requires WithinThreshold(total)
    ensures var d := Dispatch(c, s, e);
      && d.out == [] && Inv(c, d.st) && !d.st.ignoreThisClick && d.st.windowListening
      && d.st.dragFired == s.dragFired && d.st.elementListening == s.elementListening
  {
    assert Dispatch(c, s, e) == DragStep(c, s, e);
    DragKeepsInv(c, s, e);
  }

  /** Moves within the threshold and then a lift on the element: exactly
      one click, no drag. */
  lemma {:induction false} SmallMovesThenLift(c: Config, s: State, es: seq<RawEvent>)
    requires Inv(c, s) && s.windowListening && s.elementListening && !s.ignoreThisClick && !s.dragFired
    requires |es| >= 1 && LiftOnElement(c, es[|es| - 1])
    requires forall i | 0 <= i < |es| - 1 :: es[i].kind == TouchMove
    requires WithinThreshold(Run(c, s, es).st.info)
    ensures ClickCount(Run(c, s, es).out) == 1 && DragStates(Run(c, s, es).out) == []
    decreases |es|
  {
    var d := Dispatch(c, s, es[0]);
    var rest := Run(c, d.st, es[1..]);
    if |es| == 1 {
      ArmedLiftClicks(c, s, es[0]);
      assert Run(c, s, es).out == d.out + [];
    } else {
      assert NoPress(es[1..]);
      TotalsNeverShrinkUntilPress(c, d.st, es[1..]);
      SmallMoveKeepsClick(c, s, es[0], rest.st.info);
      assert es[1..][|es[1..]| - 1] == es[|es| - 1];
      assert forall i | 0 <= i < |es[1..]| - 1 :: es[1..][i].kind == TouchMove;
      SmallMovesThenLift(c, d.st, es[1..]);
      assert Run(c, s, es).out == rest.out;
    }
  }

  /** A sloppy tap: a touch press, moves that leave both totals within the
      threshold, and a `touchend` on the element fire exactly one click and
      report no drag. */
  lemma SloppyTapClicksOnce(c: Config, s: State, press: RawEvent, moves: seq<RawEvent>, lift: RawEvent)
    requires Inv(c, s) && s.elementListening && !s.dragFired
    requires press.kind == TouchStart && press.reachesElement && Selected(c, press) && !IgnoredPress(press)
    requires forall i | 0 <= i < |moves| :: moves[i].kind == TouchMove
    requires LiftOnElement(c, lift)
    requires WithinThreshold(Run(c, s, [press] + moves + [lift]).st.info)
    ensures var r := Run(c, s, [press] + moves + [lift]);
      ClickCount(r.out) == 1 && DragStates(r.out) == []
  {
    var es := [press] + moves + [lift];
    var d := Dispatch(c, s, press);
    var tail := moves + [lift];
    assert es[0] == press && es[1..] == tail;
    var rest := Run(c, d.st, tail);
    assert Run(c, s, es).st == rest.st && Run(c, s, es).out == d.out + rest.out;
    TouchPressArms(c, s, press);
    SmallMovesThenLift(c, d.st, tail);
    ClickCountAppend(d.out, rest.out);
    DragStatesAppend(d.out, rest.out);
  }

  /** `dragEnder` reports the end of a drag at most once. */
  lemma DragEnderTwice(c: Config, s: State, now: int, later: int)
    ensures DragEnderStep(c, DragEnderStep(c, s, now).st, later).out == []
  {
  }

  /** Calling the cleanup function twice is harmless. */
  lemma UnbindTwice(c: Config, s: State, now: int, later: int)
    ensures UnbindStep(c, UnbindStep(c, s, now).st, later) == Idle(UnbindStep(c, s, now).st)
  {
  }

  /** After the cleanup function, no native event reaches any handler. */
  lemma SilentAfterUnbind(c: Config, s: State, now: int, es: seq<RawEvent>)
    requires Inv(c, s)
    ensures var u := UnbindStep(c, s, now).st; Run(c, u, es) == Idle(u)
  {
  }

  /** A click that `up` fired itself swallows the native click that follows. */
  lemma SyntheticClickSwallowsNative(c: Config, s: State, up: RawEvent, click: RawEvent)
    requires SyntheticClick(c, s, up)
    ensures ClickStep(c, UpStep(c, s, up).st, click) == Idle(UpStep(c, s, up).st)
  {
  }

  /** A release while the window listeners are attached reports the end of
      the drag exactly when one was reported during the press, before any
      up or click callback. */
  lemma ReleaseEndsDrag(c: Config, s: State, e: RawEvent)
    requires Inv(c, s) && s.windowListening && (e.kind == TouchEnd || e.kind == MouseUp)
    ensures var out := Dispatch(c, s, e).out;
      && ((exists i | 0 <= i < |out| :: out[i].DragCall?) <==> s.dragFired)
      && (forall i | 0 <= i < |out| && out[i].DragCall? :: i == 0 && out[i].dragState == 2)
      && (s.ignoreThisClick ==> forall i | 0 <= i < |out| :: !out[i].ClickCall?)
  {
    var a := DragEnderStep(c, s, e.time);
    var r := Dispatch(c, s, e);
    var b := if a.st.elementListening && e.reachesElement && (e.kind == TouchEnd || !c.ignoreNativeClick)
             then UpStep(c, a.st, e) else Idle(a.st);
    assert r.out == a.out + b.out;
    assert forall i | 0 <= i < |b.out| :: !b.out[i].DragCall?;
    assert s.dragFired ==> r.out[0] == a.out[0];
  }

  // Concrete gestures. Element 7 is bound; events land on it.

  function MouseAt(kind: EventType, x: int, y: int, time: int): RawEvent {
    RawEvent(kind, 7, true, None, Some(0), Some(x), Some(y), Some(x), Some(y), 0, 0, time)
  }

  function TouchAt(kind: EventType, points: seq<TouchPoint>, time: int): RawEvent {
    RawEvent(kind, 7, true, Some(points), None, None, None, None, None, 0, 0, time)
  }

  function Listening(registered: set<EventName>, axis: Axis): Config {
    Config(registered, axis, Undefined, false, {})
  }

  function N(n: int): Num {
    Finite(n)
  }

  /** A tap: the click fires once, from `up`, at the press position (the
      `touchend` carries no touch point), and the native event is cancelled
      so that no emulated mouse events follow. */
  lemma TapClicksOnce()
    ensures var r := Run(Listening({Click}, Free), Initial(),
                         [TouchAt(TouchStart, [TouchPoint(0, 0)], 0), TouchAt(TouchEnd, [], 50)]);
      r.out == [ClickCall(7, Vec(N(0), N(0), N(50)))] && r.prevented
  {
    var c := Listening({Click}, Free);
    var e0, e1 := TouchAt(TouchStart, [TouchPoint(0, 0)], 0), TouchAt(TouchEnd, [], 50);
    var d0 := Dispatch(c, Initial(), e0);
    var d1 := Dispatch(c, d0.st, e1);
    var i0 := DragInfo(N(0), N(0), N(0), N(0), N(0), N(0), N(0), N(0), Some(7), 0);
    assert d0 == Step(State(i0, false, false, true, false, true, true), [], false);
    assert d1 == Step(State(i0, true, false, false, false, false, true), [ClickCall(7, Vec(N(0), N(0), N(50)))], true);
    assert Run(c, d0.st, [e1]) == Step(d1.st, d1.out + [], d1.prevented || false);
  }

  /** A mouse click where native clicks are trusted: `up` leaves the click
      to the native `click` event, which fires it once. */
  lemma MouseClickTakesNativePath()
    ensures Run(Listening({Click}, Free), Initial(),
                [MouseAt(MouseDown, 0, 0, 0), MouseAt(MouseUp, 0, 0, 40), MouseAt(NativeClick, 0, 0, 50)]).out
            == [ClickCall(7, Vec(N(0), N(0), N(50)))]
  {
    var c := Listening({Click}, Free);
    var e0, e1, e2 := MouseAt(MouseDown, 0, 0, 0), MouseAt(MouseUp, 0, 0, 40), MouseAt(NativeClick, 0, 0, 50);
    var d0 := Dispatch(c, Initial(), e0);
    var d1 := Dispatch(c, d0.st, e1);
    var d2 := Dispatch(c, d1.st, e2);
    assert d0 == Step(Initial(), [], false);
    assert d1 == Step(Initial(), [], false);
    assert d2.out == [ClickCall(7, Vec(N(0), N(0), N(50)))];
    assert Run(c, d1.st, [e2]).out == d2.out + [];
    assert Run(c, d0.st, [e1, e2]).out == d1.out + Run(c, d1.st, [e2]).out;
  }

  /** A mouse drag past the threshold: drag state 0, then the final drag
      state 2 with a zero delta at release, and no click at all. */
  lemma MouseDragSuppressesClick()
    ensures Run(Listening({Drag, Click}, Free), Initial(),
                [MouseAt(MouseDown, 0, 0, 0), MouseAt(MouseMove, 10, 0, 10),
                 MouseAt(MouseUp, 10, 0, 20), MouseAt(NativeClick, 10, 0, 20)]).out
            == [DragCall(Some(7), Vec(N(10), N(0), N(10)), Vec(N(10), N(0), N(10)), Vec(N(10), N(0), N(10)), 0),
                DragCall(Some(7), Vec(N(10), N(0), N(20)), Vec(N(10), N(0), N(20)), Vec(N(0), N(0), N(10)), 2)]
  {
    var c := Listening({Drag, Click}, Free);
    var e0, e1 := MouseAt(MouseDown, 0, 0, 0), MouseAt(MouseMove, 10, 0, 10);
    var e2, e3 := MouseAt(MouseUp, 10, 0, 20), MouseAt(NativeClick, 10, 0, 20);
    var d0 := Dispatch(c, Initial(), e0);
    var d1 := Dispatch(c, d0.st, e1);
    var d2 := Dispatch(c, d1.st, e2);
    var d3 := Dispatch(c, d2.st, e3);
    var i0 := DragInfo(N(0), N(0), N(0), N(0), N(0), N(0), N(0), N(0), Some(7), 0);
    var i1 := DragInfo(N(0), N(0), N(10), N(0), N(10), N(0), N(0), N(10), Some(7), 1);
    assert d0 == Step(State(i0, false, false, true, false, true, true), [], true);
    assert d1.st == State(i1, true, false, true, true, true, true);
    assert d2.st == State(i1, true, false, false, false, false, true);
    assert d3.out == [];
    assert Run(c, d2.st, [e3]).out == d3.out + [];
    assert Run(c, d1.st, [e2, e3]).out == d2.out + Run(c, d2.st, [e3]).out;
    assert Run(c, d0.st, [e1, e2, e3]).out == d1.out + Run(c, d1.st, [e2, e3]).out;
  }

  /** Unbinding in the middle of a drag that has been reported leaves its
      end unreported. */
  lemma UnbindDropsFinalDrag()
    ensures var c := Listening({Drag}, Free);
      var r := Run(c, Initial(), [MouseAt(MouseDown, 0, 0, 0), MouseAt(MouseMove, 10, 0, 10)]);
      |r.out| == 1 && Owed(c, r.st) && UnbindStep(c, r.st, 30).out == []
  {
    var c := Listening({Drag}, Free);
    var e0, e1 := MouseAt(MouseDown, 0, 0, 0), MouseAt(MouseMove, 10, 0, 10);
    var d0 := Dispatch(c, Initial(), e0);
    var d1 := Dispatch(c, d0.st, e1);
    assert Run(c, d0.st, [e1]) == Step(d1.st, d1.out + [], d1.prevented || false);
  }

  /** Under a horizontal lock, a first move that goes mostly up or down is
      not rejected: the drag goes on and is reported, vertically flattened,
      once the horizontal total passes the threshold. */
  lemma MostlyVerticalFirstMoveNotRejected()
    ensures Run(Listening({Drag}, Horizontal), Initial(),
                [MouseAt(MouseDown, 0, 0, 0), MouseAt(MouseMove, 1, 10, 10), MouseAt(MouseMove, 5, 40, 20)]).out
            == [DragCall(Some(7), Vec(N(5), N(0), N(20)), Vec(N(5), N(0), N(20)), Vec(N(4), N(0), N(10)), 0)]
  {
    var c := Listening({Drag}, Horizontal);
    var e0, e1, e2 := MouseAt(MouseDown, 0, 0, 0), MouseAt(MouseMove, 1, 10, 10), MouseAt(MouseMove, 5, 40, 20);
    var i0 := DragInfo(N(0), N(0), N(0), N(0), N(0), N(0), N(0), N(0), Some(7), 0);
    var i1 := DragInfo(N(0), N(0), N(1), N(10), N(1), N(0), N(0), N(10), Some(7), 0);
    var s0, s1 := State(i0, false, false, true, false, true, true), State(i1, false, false, true, false, true, true);
    assert Dispatch(c, Initial(), e0) == Step(s0, [], true);
    FirstMoveAcross(c, s0, e1);
    var d2 := Dispatch(c, s1, e2);
    assert d2.out == [DragCall(Some(7), Vec(N(5), N(0), N(20)), Vec(N(5), N(0), N(20)), Vec(N(4), N(0), N(10)), 0)];
    assert Run(c, s1, [e2]).out == d2.out + [];
    assert Run(c, s0, [e1, e2]).out == [] + Run(c, s1, [e2]).out;
  }

  /** The first move of the gesture above: one pixel along the locked axis,
      ten across it. */
  lemma FirstMoveAcross(c: Config, s0: State, e1: RawEvent)
    requires c == Listening({Drag}, Horizontal) && e1 == MouseAt(MouseMove, 1, 10, 10)
    requires s0 == State(DragInfo(N(0), N(0), N(0), N(0), N(0), N(0), N(0), N(0), Some(7), 0),
                         false, false, true, false, true, true)
    ensures Dispatch(c, s0, e1) ==
      Step(State(DragInfo(N(0), N(0), N(1), N(10), N(1), N(0), N(0), N(10), Some(7), 0),
                 false, false, true, false, true, true), [], false)
  {
    var m := Moved(c, s0.info, e1);
    assert m.tx == N(1) && m.ty == N(0) && !Over(m) && !RejectsFirstMove(c.axis, m);
  }
}
