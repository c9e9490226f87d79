/**
  `vz.touch` itself: one `Binder` per bound element, holding the closure
  state its handlers share and updating it in place, and the fan-out over
  collections of elements. Every handler is proved to move the binder's
  state exactly as the corresponding step function of `Gesture` says, and
  to keep the invariant `Inv`.
 */
module TouchBinding {
  import opened Js
  import opened Binding
  import opened Gesture
  import opened GestureProperties

  /** The closure of one `vz.touch(el, …)` call on a single element. */
  class Binder {
    const element: nat
    const config: Config

    var info: DragInfo
    var ignoreThisClick: bool
    var ignoreThisDrag: bool
    var dragEventsBound: bool
    var dragFired: bool
    var windowListening: bool
    var elementListening: bool

    ghost function Snapshot(): State
      reads this
    {
      State(info, ignoreThisClick, ignoreThisDrag, dragEventsBound, dragFired,
            windowListening, elementListening)
    }

    ghost predicate Valid()
      reads this
    {
      Inv(config, Snapshot())
    }

    /** The state right after binding; `down`, `up` and `click` are attached
        to the element. */
    constructor (element: nat, config: Config)
      ensures this.element == element && this.config == config
      ensures Snapshot() == Initial() && Valid()
    {
      this.element := element;
      this.config := config;
      info := DragInfo(Finite(0), Finite(0), Finite(0), Finite(0), Finite(0), Finite(0), NaN, NaN, None, 0);
      ignoreThisClick := false;
      ignoreThisDrag := false;
      dragEventsBound := true;
      dragFired := false;
      windowListening := false;
      elementListening := true;
    }

    /** `down`: returns the callbacks fired and whether the native event was
        cancelled. */
    method Down(e: RawEvent) returns (out: seq<Emission>, prevented: bool)
      requires Valid()
      modifies this
      ensures var r := DownStep(config, old(Snapshot()), e);
        Snapshot() == r.st && out == r.out && prevented == r.prevented
      ensures Valid()
    {
      out, prevented := [], false;
      if !Selected(config, e) || IgnoredPress(e) {
        return;
      }
      ignoreThisClick := false;
      if Binding.Down in config.registered {
        prevented := true;
        out := [DownCall(e.target, Vec(GetPosX(e), GetPosY(e), Finite(e.time)))];
      }
      ignoreThisDrag := false;
      if Binding.Drag in config.registered && e.kind == MouseDown {
        prevented := true;
      }
      if Binding.Drag in config.registered || e.kind == TouchStart {
        var x, y := GetPosX(e), GetPosY(e);
        info := DragInfo(x, y, x, y, Finite(0), Finite(0), Finite(e.time), Finite(e.time), Some(e.target), 0);
        windowListening := true;
        dragEventsBound := true;
      }
    }

    /** `up`: the up callback, then the click it fires itself on a
        `touchend` or where native clicks are ignored. */
    method Up(e: RawEvent) returns (out: seq<Emission>, prevented: bool)
      requires Valid()
      modifies this
      ensures var r := UpStep(config, old(Snapshot()), e);
        Snapshot() == r.st && out == r.out && prevented == r.prevented
      ensures Valid()
    {
      out, prevented := [], false;
      if !Selected(config, e) {
        return;
      }
      var x, y := Finite(0), Finite(0);
      if Binding.Click in config.registered || Binding.Up in config.registered {
        x := OrLast(GetPosX(e), info.x);
        y := OrLast(GetPosY(e), info.y);
      }
      if Binding.Up in config.registered {
        prevented := true;
        out := [UpCall(e.target, Vec(x, y, Finite(e.time)))];
      }
      if Binding.Click in config.registered && !ignoreThisClick {
        if config.ignoreNativeClick || e.kind == TouchEnd {
          prevented := true;
          ignoreThisClick := true;
          out := out + [ClickCall(e.target, Vec(x, y, Finite(e.time)))];
        }
      }
    }

    /** `click`, the native click listener: it changes nothing but may fire
        the click callback. */
    method Click(e: RawEvent) returns (out: seq<Emission>, prevented: bool)
      ensures prevented <==> Selected(config, e) && Binding.Click in config.registered && !ignoreThisClick
      ensures out == if prevented then [ClickCall(e.target, Vec(GetPosX(e), GetPosY(e), Finite(e.time)))] else []
    {
      out, prevented := [], false;
      if !Selected(config, e) {
        return;
      }
      if !ignoreThisClick && Binding.Click in config.registered {
        prevented := true;
        out := [ClickCall(e.target, Vec(GetPosX(e), GetPosY(e), Finite(e.time)))];
      }
    }

    /** `drag`, the window's move listener. */
    method Drag(e: RawEvent) returns (out: seq<Emission>, prevented: bool)
      modifies this
      ensures var r := DragStep(config, old(Snapshot()), e);
        Snapshot() == r.st && out == r.out && prevented == r.prevented
      ensures old(Valid()) ==> Valid()
    {
      ghost var s := Snapshot();
      if Inv(config, s) {
        DragKeepsInv(config, s, e);
      }
      out, prevented := [], false;
      if MultiTouchMove(e) {
        return;
      }
      if ignoreThisDrag {
        return;
      }
      var data := DragPayload(config, info, e);
      info := Moved(config, info, e);

      // The first move of an axis-locked drag that goes more across the axis
      // than along it gives the drag up.
      if data.dragState == 0 && RejectsFirstMove(config.axis, info) {
        ignoreThisDrag := true;
        return;
      }
      var overThreshold := Over(info);
      if !ignoreThisClick && overThreshold {
        ignoreThisClick := true;
      }
      if Binding.Drag in config.registered && overThreshold {
        prevented := true;
        out := [data];
        dragFired := true;
        info := info.(state := 1);
      }
    }

    /** `dragEnder`: detaches the window listeners and reports the end of a
        drag that was reported. `now` is the clock. It never cancels the
        native event. */
    method DragEnder(now: int) returns (out: seq<Emission>)
      modifies this
      ensures var r := DragEnderStep(config, old(Snapshot()), now);
        Snapshot() == r.st && out == r.out
      ensures old(Valid()) ==> Valid()
    {
      windowListening := false;
      out := [];
      if dragEventsBound {
        dragEventsBound := false;
        if Binding.Drag in config.registered && dragFired {
          dragFired := false;
          out := [DragCall(info.target,
                           Lock(config.axis, Vec(info.x, info.y, Finite(now))),
                           Lock(config.axis, Vec(info.x.Minus(info.sx), info.y.Minus(info.sy),
                                                 Finite(now).Minus(info.st))),
                           Lock(config.axis, Vec(Finite(0), Finite(0), Finite(now).Minus(info.t))),
                           2)];
        }
      }
    }

    /** The cleanup function: detaches the element's listeners and, because
        it clears `dragEventsBound` before calling `dragEnder`, reports
        nothing. */
    method Unbind(now: int) returns (out: seq<Emission>)
      requires Valid()
      modifies this
      ensures Snapshot() == UnbindStep(config, old(Snapshot()), now).st
      ensures out == [] && !windowListening && !elementListening
      ensures Valid()
    {
      elementListening := false;
      out := [];
      if dragEventsBound {
        dragEventsBound := false;
        out := DragEnder(now);
      }
    }

    /** `dragEnder` on the window, then `up` on the element, each only while
        attached. */
    method Release(e: RawEvent, upAttached: bool) returns (out: seq<Emission>, prevented: bool)
      requires Valid()
      modifies this
      ensures var r := Gesture.Release(config, old(Snapshot()), e, upAttached);
        Snapshot() == r.st && out == r.out && prevented == r.prevented
      ensures Valid()
    {
      out, prevented := [], false;
      if windowListening {
        out := DragEnder(e.time);
      }
      if elementListening && e.reachesElement && upAttached {
        var more;
        more, prevented := Up(e);
        out := out + more;
      }
    }

    /** One native event, delivered to whichever listeners are attached. */
    method Deliver(e: RawEvent) returns (out: seq<Emission>, prevented: bool)
      requires Valid()
      modifies this
      ensures var r := Dispatch(config, old(Snapshot()), e);
        Snapshot() == r.st && out == r.out && prevented == r.prevented
      ensures Valid()
    {
      out, prevented := [], false;
      var onElement := elementListening && e.reachesElement;
      match e.kind
      case TouchStart =>
        if onElement {
          out, prevented := Down(e);
        }
      case MouseDown =>
        if onElement && !config.ignoreNativeClick {
          out, prevented := Down(e);
        }
      case TouchMove =>
        if windowListening {
          out, prevented := Drag(e);
        }
      case MouseMove =>
        if windowListening {
          out, prevented := Drag(e);
        }
      case TouchEnd =>
        out, prevented := Release(e, true);
      case MouseUp =>
        out, prevented := Release(e, !config.ignoreNativeClick);
      case NativeClick =>
        if onElement && !config.ignoreNativeClick {
          out, prevented := Click(e);
        }
    }
  }

  /** What `vz.touch` is given as its first argument: nothing (a falsy
      value), one element, or an array-like collection of targets. */
  datatype Target = Nothing | Element(id: nat) | Collection(items: seq<Target>)

  /** The elements a target stands for, in order. */
  function Leaves(t: Target): seq<nat>
    decreases t, 0
  {
    match t
    case Nothing => []
    case Element(id) => [id]
    case Collection(items) => LeavesOf(items)
  }

  /** The elements of a collection's members, member by member. */
  function LeavesOf(items: seq<Target>): seq<nat>
    decreases items, 1
  {
    if items == [] then [] else Leaves(items[0]) + LeavesOf(items[1..])
  }

  /** A collection of elements binds exactly those elements, in order. */
  lemma {:induction false} FlatCollection(items: seq<Target>)
    requires forall k | 0 <= k < |items| :: items[k].Element?
    ensures var ids := Leaves(Collection(items));
      |ids| == |items| && forall k | 0 <= k < |ids| :: ids[k] == items[k].id
  {
    if items != [] {
      FlatCollection(items[1..]);
      var rest := Leaves(Collection(items[1..]));
      assert Leaves(items[0]) == [items[0].id];
      assert Leaves(Collection(items)) == [items[0].id] + rest;
    }
  }

  /** A collection binds its first member's elements, then the rest's. */
  lemma CollectionLeaves(first: Target, rest: seq<Target>)
    ensures Leaves(Collection([first] + rest)) == Leaves(first) + Leaves(Collection(rest))
  {
    assert ([first] + rest)[1..] == rest;
  }

  lemma {:induction false} LeavesOfAppend(a: seq<Target>, b: seq<Target>)
    ensures LeavesOf(a + b) == LeavesOf(a) + LeavesOf(b)
  {
    if a == [] {
      assert a + b == b;
    } else {
      assert (a + b)[1..] == a[1..] + b;
      LeavesOfAppend(a[1..], b);
    }
  }

  /** `bs` are binders for the elements `ids`, in order, all configured
      with the successful configuration `c`, in the initial state. */
  ghost predicate BoundAt(bs: seq<Binder>, ids: seq<nat>, c: Result<Config, BindError>)
    reads set i | 0 <= i < |bs| :: bs[i]
  {
    && |bs| == |ids|
    && forall i | 0 <= i < |bs| ::
      && bs[i].element == ids[i]
      && c == Success(bs[i].config)
      && bs[i].Snapshot() == Initial()
  }

  predicate Distinct(bs: seq<Binder>) {
    forall i, j | 0 <= i < j < |bs| :: bs[i] != bs[j]
  }

  /** `vz.touch(target, opts, events)`: one fresh binder per element, in
      order, all sharing the configuration; or the validation error, thrown
      as soon as there is an element to bind (and before any is bound). */
  method Touch(target: Target, opts: Arg, events: Arg, env: Env) returns (r: Result<seq<Binder>, BindError>)
    ensures Leaves(target) == [] ==> r == Success([])
    ensures Leaves(target) != [] && Configure(opts, events, env).Failure? ==>
      r == Failure(Configure(opts, events, env).error)
    ensures Leaves(target) != [] && Configure(opts, events, env).Success? ==> r.Success?
    ensures r.Success? ==>
      && BoundAt(r.value, Leaves(target), Configure(opts, events, env))
      && Distinct(r.value)
      && forall i | 0 <= i < |r.value| :: fresh(r.value[i])
  {
    r := Attach(target, Configure(opts, events, env));
  }

  /** The recursion of `vz.touch` over a target, where every element it
      reaches is validated, with outcome `c`, before its listeners are
      attached. */
  method Attach(target: Target, c: Result<Config, BindError>) returns (r: Result<seq<Binder>, BindError>)
    ensures Leaves(target) == [] ==> r == Success([])
    ensures Leaves(target) != [] && c.Failure? ==> r == Failure(c.error)
    ensures Leaves(target) != [] && c.Success? ==> r.Success?
    ensures r.Success? ==>
      && BoundAt(r.value, Leaves(target), c)
      && Distinct(r.value)
      && forall i | 0 <= i < |r.value| :: fresh(r.value[i])
    decreases target, 1
  {
    match target
    case Nothing =>
      return Success([]);
    case Element(id) =>
      if c.Failure? {
        return Failure(c.error);
      }
      var b := new Binder(id, c.value);
      return Success([b]);
    case Collection(items) =>
      r := AttachEach(items, c);
  }

  /** The loop of `vz.touch` over the members of a collection. */
  method AttachEach(items: seq<Target>, c: Result<Config, BindError>) returns (r: Result<seq<Binder>, BindError>)
    ensures LeavesOf(items) == [] ==> r == Success([])
    ensures LeavesOf(items) != [] && c.Failure? ==> r == Failure(c.error)
    ensures LeavesOf(items) != [] && c.Success? ==> r.Success?
    ensures r.Success? ==>
      && BoundAt(r.value, LeavesOf(items), c)
      && Distinct(r.value)
      && forall i | 0 <= i < |r.value| :: fresh(r.value[i])
    decreases items, 0
  {
    var bound: seq<Binder> := [];
    var k := 0;
    while k < |items|
      invariant 0 <= k <= |items|
      invariant BoundAt(bound, LeavesOf(items[..k]), c)
      invariant LeavesOf(items[..k]) != [] ==> c.Success?
      invariant Distinct(bound)
      invariant forall i | 0 <= i < |bound| :: fresh(bound[i])
    {
      var sub := Attach(items[k], c);
      ghost var done := LeavesOf(items[..k]);
      LeavesOfNext(items, k);
      if sub.Failure? {
        LeavesOfAppend(items[..k + 1], items[k + 1..]);
        assert items[..k + 1] + items[k + 1..] == items;
        return sub;
      }
      BoundAtAppend(bound, sub.value, done, Leaves(items[k]), c);
      assert forall i, j | 0 <= i < |bound| && 0 <= j < |sub.value| :: bound[i] != sub.value[j];
      DistinctAppend(bound, sub.value);
      bound := bound + sub.value;
      k := k + 1;
    }
    assert items[..k] == items;
    return Success(bound);
  }

  lemma LeavesOfNext(items: seq<Target>, k: nat)
    requires k < |items|
    ensures LeavesOf(items[..k + 1]) == LeavesOf(items[..k]) + Leaves(items[k])
  {
    assert items[..k + 1] == items[..k] + [items[k]];
    LeavesOfAppend(items[..k], [items[k]]);
    assert LeavesOf([items[k]]) == Leaves(items[k]) + LeavesOf([]);
  }

  lemma BoundAtAppend(a: seq<Binder>, b: seq<Binder>, ia: seq<nat>, ib: seq<nat>, c: Result<Config, BindError>)
    requires BoundAt(a, ia, c) && BoundAt(b, ib, c)
    ensures BoundAt(a + b, ia + ib, c)
  {
  }

  lemma DistinctAppend(a: seq<Binder>, b: seq<Binder>)
    requires Distinct(a) && Distinct(b)
    requires forall i, j | 0 <= i < |a| && 0 <= j < |b| :: a[i] != b[j]
    ensures Distinct(a + b)
  {
  }

  /** The cleanup function of a collection: every element's cleanup, in
      order. A binder listed twice is unbound twice, which is harmless. */
  method UnbindAll(bs: seq<Binder>, now: int)
    requires forall i | 0 <= i < |bs| :: bs[i].Valid()
    modifies set i | 0 <= i < |bs| :: bs[i]
    ensures forall i | 0 <= i < |bs| ::
      && bs[i].Snapshot() == UnbindStep(bs[i].config, old(bs[i].Snapshot()), now).st
      && !bs[i].windowListening && !bs[i].elementListening
  {
    var k := 0;
    while k < |bs|
      invariant 0 <= k <= |bs|
      invariant forall i | 0 <= i < |bs| :: bs[i].Valid()
      invariant forall i | 0 <= i < k ::
        && bs[i].Snapshot() == UnbindStep(bs[i].config, old(bs[i].Snapshot()), now).st
        && !bs[i].windowListening && !bs[i].elementListening
      invariant forall i | k <= i < |bs| && bs[i] !in bs[..k] :: bs[i].Snapshot() == old(bs[i].Snapshot())
    {
      var _ := bs[k].Unbind(now);
      if bs[k] in bs[..k] {
        UnbindTwice(bs[k].config, old(bs[k].Snapshot()), now, now);
      }
      k := k + 1;
    }
  }
}
