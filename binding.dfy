/**
  Bind-time handling of `vz.touch(el, opts, events)`: the bare-function
  shorthand, validation of the event and option keys, and the configuration
  the gesture handlers read afterwards.
 */
module Binding {
  import opened Js

  /** The four callbacks a caller may register. */
  datatype EventName = Down | Up | Drag | Click

  function NameOf(e: EventName): string {
    match e
    case Down => "down"
    case Up => "up"
    case Drag => "drag"
    case Click => "click"
  }

  const AllEvents: set<EventName> := {Down, Up, Drag, Click}
  const EventKeys: set<string> := {"down", "up", "drag", "click"}
  const OptionKeys: set<string> := {"dragDirection", "selector"}

  /** The `dragDirection` option as the handlers compare it. */
  datatype Axis = Free | Horizontal | Vertical

  function AxisOf(v: JsValue): Axis {
    if v == Str("horizontal") then Horizontal
    else if v == Str("vertical") then Vertical
    else Free
  }

  /** The `events` argument: a bare function, or a table of callbacks. */
  datatype EventsArg = Handler(fid: nat) | Handlers(table: Table)

  /** What the surrounding page provides: whether native clicks are ignored
      altogether (decided once from the user agent), and the host's
      element-matching primitive, given as the (target, selector) pairs for
      which it answers true. */
  datatype Env = Env(ignoreNativeClick: bool, matches: set<(nat, JsValue)>)

  /** Everything the handlers of one binding read besides their own state. */
  datatype Config = Config(
    registered: set<EventName>,
    axis: Axis,
    selector: JsValue,
    ignoreNativeClick: bool,
    matches: set<(nat, JsValue)>)

  datatype BindError = UnsupportedEvent(key: string) | UnsupportedOption(key: string)

  /** The key the validation loop throws on: the first one outside `allowed`. */
  function FirstUnsupported(keys: seq<string>, allowed: set<string>): (r: Option<string>)
    ensures r.None? <==> forall i | 0 <= i < |keys| :: keys[i] in allowed
    ensures r.Some? ==>
      r.value !in allowed &&
      exists i | 0 <= i < |keys| :: keys[i] == r.value && forall j | 0 <= j < i :: keys[j] in allowed
  {
    if keys == [] then None
    else if keys[0] !in allowed then Some(keys[0])
    else
      var r := FirstUnsupported(keys[1..], allowed);
      assert r.Some? ==> exists i | 0 <= i < |keys[1..]| ::
        (keys[1..][i] == r.value && forall j | 0 <= j < i :: keys[1..][j] in allowed);
      assert forall i | 0 <= i < |keys[1..]| :: keys[1..][i] == keys[i + 1];
      r
  }

  /** One of the last two arguments of `vz.touch` as the caller passes it:
      left out (or falsy), a plain object, or a function. */
  datatype Arg = Missing | Plain(table: Table) | Callable(fid: nat)

  /** The option table a value stands for: a function or a missing value
      has no own enumerable properties. */
  function OptionTable(a: Arg): Table {
    if a.Plain? then a.table else []
  }

  /** The callbacks a value stands for, with a function as the shorthand. */
  function EventsOf(a: Arg): EventsArg {
    match a
    case Missing => Handlers([])
    case Plain(t) => Handlers(t)
    case Callable(f) => Handler(f)
  }

  /** `opts` is optional: when `events` is missing, the second argument is
      taken as the events and the options are empty. */
  function Normalize(opts: Arg, events: Arg): (Table, EventsArg) {
    if events.Missing? then ([], EventsOf(opts)) else (OptionTable(opts), EventsOf(events))
  }

  /** The shorthand: a bare function binds `{click: f}`. */
  function EventTable(events: EventsArg): Table {
    match events
    case Handler(f) => [("click", Function(f))]
    case Handlers(t) => t
  }

  /** `AllEvents` lists every event name. */
  lemma EveryEventNamed()
    ensures forall n: EventName :: n in AllEvents
  {
    forall n: EventName
      ensures n in AllEvents
    {
      match n
      case Down =>
      case Up =>
      case Drag =>
      case Click =>
    }
  }

  /** The callbacks `events.down`, `events.up`, … that are truthy. */
  function Registered(t: Table): set<EventName> {
    set n | n in AllEvents && Truthy(Get(t, NameOf(n)))
  }

  lemma KeysAllowed(t: Table, allowed: set<string>)
    ensures FirstUnsupported(Keys(t), allowed).None? <==>
      forall i | 0 <= i < |t| :: t[i].0 in allowed
  {
    var ks := Keys(t);
    assert forall i | 0 <= i < |t| :: ks[i] == t[i].0;
  }

  /** The validation loops: event keys first, then option keys; the error
      names the first key outside the allowed ones. */
  function Validate(events: Table, opts: Table): (r: Option<BindError>)
    ensures r.None? <==>
      (forall i | 0 <= i < |events| :: events[i].0 in EventKeys) &&
      (forall i | 0 <= i < |opts| :: opts[i].0 in OptionKeys)
    ensures r.Some? && r.value.UnsupportedEvent? ==>
      && r.value.key !in EventKeys
      && exists i | 0 <= i < |events| ::
           events[i].0 == r.value.key && forall j | 0 <= j < i :: events[j].0 in EventKeys
    ensures r.Some? && r.value.UnsupportedOption? ==>
      && r.value.key !in OptionKeys
      && (exists i | 0 <= i < |opts| ::
            opts[i].0 == r.value.key && forall j | 0 <= j < i :: opts[j].0 in OptionKeys)
      && (forall i | 0 <= i < |events| :: events[i].0 in EventKeys)
  {
    KeysAllowed(events, EventKeys);
    KeysAllowed(opts, OptionKeys);
    var badEvent := FirstUnsupported(Keys(events), EventKeys);
    if badEvent.Some? then
      Some(UnsupportedEvent(badEvent.value))
    else
      var badOption := FirstUnsupported(Keys(opts), OptionKeys);
      if badOption.Some? then Some(UnsupportedOption(badOption.value)) else None
  }

  /** `vz.touch` on a single element, up to the point where listeners are
      attached: validation, then the configuration the handlers read. */
  function Bind(opts: Table, events: EventsArg, env: Env): (r: Result<Config, BindError>)
    ensures r.Failure? <==> Validate(EventTable(events), opts).Some?
    ensures r.Failure? ==> r.error == Validate(EventTable(events), opts).value
    ensures events.Handler? && r.Success? ==> r.value.registered == {Click}
    ensures r.Success? && events.Handlers? ==>
      forall n :: n in r.value.registered <==> Truthy(Get(events.table, NameOf(n)))
    ensures r.Success? ==>
      && r.value.axis == AxisOf(Get(opts, "dragDirection"))
      && r.value.selector == Get(opts, "selector")
      && r.value.ignoreNativeClick == env.ignoreNativeClick
      && r.value.matches == env.matches
  {
    var table := EventTable(events);
    var bad := Validate(table, opts);
    if bad.Some? then
      Failure(bad.value)
    else
      EveryEventNamed();
      Success(Config(Registered(table), AxisOf(Get(opts, "dragDirection")),
                     Get(opts, "selector"), env.ignoreNativeClick, env.matches))
  }

  /** Argument handling and validation of one `vz.touch` call. */
  function Configure(opts: Arg, events: Arg, env: Env): Result<Config, BindError> {
    var (table, evs) := Normalize(opts, events);
    Bind(table, evs, env)
  }

  /** Calling with the events alone is calling with empty options. */
  lemma OptionsOptional(events: Arg, env: Env)
    ensures Configure(events, Missing, env) == Configure(Plain([]), events, env)
  {
  }

  /** A plain object as the events binds exactly its truthy `down`, `up`,
      `drag` and `click` entries, and binding fails exactly when that object
      or the options hold a key outside the allowed ones. */
  lemma PlainEventsRegistered(opts: Arg, t: Table, env: Env)
    ensures var r := Configure(opts, Plain(t), env);
      && (r.Failure? <==> Validate(t, OptionTable(opts)).Some?)
      && (r.Success? ==> forall n :: n in r.value.registered <==> Truthy(Get(t, NameOf(n))))
  {
  }

  /** A bare function as the events binds exactly the click callback and
      accepts only the two known options. */
  lemma ShorthandBindsClick(opts: Arg, f: nat, env: Env)
    ensures var r := Configure(opts, Callable(f), env);
      && (r.Success? <==> forall i | 0 <= i < |OptionTable(opts)| :: OptionTable(opts)[i].0 in OptionKeys)
      && (r.Success? ==> r.value.registered == {Click} && r.value.axis == AxisOf(Get(OptionTable(opts), "dragDirection")))
  {
  }
}
