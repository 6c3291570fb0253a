/**
 * The input binding registry (Overkill.Core/InputService.cs): named keyboard and gamepad
 * inputs bound to actions, with their default key codes, validated against the input
 * configuration, and the dispatch of input events to the bound actions.
 *
 * An action is an id; invoking it is reported as an `Invocation` value.
 */
module InputService {
  import opened Wrappers
  import opened Topics
  import opened PubSub

  type ActionId = nat

  /** The three gamepad binding kinds; they share one dictionary of defaults. */
  datatype GamepadKind = Joystick | Trigger | Button

  /** The exceptions binding can throw. */
  datatype BindError =
    | InvalidInputConfiguration(name: string)   // InvalidInputConfigurationException
    | InputAlreadyBound(name: string)           // InputAlreadyBoundException
    | DuplicateKey(name: string)                // ArgumentException from Dictionary.Add

  /**
   * `config.Input`: raw configured values by input name, with the values the
   * `KeyboardKey` and `GamepadInput` enumerations define.
   */
  datatype InputConfiguration = InputConfiguration(
    keyboard: map<string, int>,
    gamepad: map<string, int>,
    keyboardKeys: set<int>,
    gamepadInputs: set<int>)

  /** The six dictionaries of InputService.cs:21-27. */
  datatype Bindings = Bindings(
    defaultKeyboard: map<string, int>,
    defaultGamepad: map<string, int>,
    keyboard: map<string, ActionId>,
    joystick: map<string, ActionId>,
    button: map<string, ActionId>,
    trigger: map<string, ActionId>)

  /** One call of a bound action, with the argument it receives. */
  datatype Invocation =
    | KeyAction(action: ActionId, state: InputState)
    | JoystickAction(action: ActionId, isPressed: bool, x: real, y: real)
    | ButtonAction(action: ActionId, state: InputState)
    | TriggerAction(action: ActionId, value: real)

  const NoBindings := Bindings(map[], map[], map[], map[], map[], map[])

  /**
   * What the dictionaries keep in step: every keyboard binding has a default and vice versa;
   * the gamepad defaults are exactly the names of the three gamepad kinds, and no name is
   * bound by two gamepad kinds.
   */
  ghost predicate Consistent(b: Bindings) {
    && b.defaultKeyboard.Keys == b.keyboard.Keys
    && b.defaultGamepad.Keys == b.joystick.Keys + b.button.Keys + b.trigger.Keys
    && b.joystick.Keys !! b.button.Keys
    && b.joystick.Keys !! b.trigger.Keys
    && b.button.Keys !! b.trigger.Keys
  }

  /** The configuration check of InputService.cs:71: the name is configured with a defined key. */
  predicate KeyboardConfigured(config: InputConfiguration, name: string) {
    name in config.keyboard && config.keyboard[name] in config.keyboardKeys
  }

  /** The configuration check of InputService.cs:85, 100 and 114. */
  predicate GamepadConfigured(config: InputConfiguration, name: string) {
    name in config.gamepad && config.gamepad[name] in config.gamepadInputs
  }

  /** The dictionary of one gamepad kind. */
  function KindBindings(b: Bindings, kind: GamepadKind): map<string, ActionId> {
    match kind
    case Joystick => b.joystick
    case Trigger => b.trigger
    case Button => b.button
  }

  /** The bindings with one gamepad kind's dictionary replaced. */
  function WithKind(b: Bindings, kind: GamepadKind, m: map<string, ActionId>): Bindings {
    match kind
    case Joystick => b.(joystick := m)
    case Trigger => b.(trigger := m)
    case Button => b.(button := m)
  }

  /** `Keyboard(name, defaultBinding, action)` (InputService.cs:69-75) on the dictionaries `b`. */
  function BindKeyboard(b: Bindings, config: InputConfiguration, name: string, defaultBinding: int, action: ActionId)
    : (r: Result<Bindings, BindError>)
    ensures !KeyboardConfigured(config, name) ==> r == Failure(InvalidInputConfiguration(name))
    ensures KeyboardConfigured(config, name) && name in b.keyboard ==> r == Failure(InputAlreadyBound(name))
    ensures r.Success? ==>
      r.value == b.(defaultKeyboard := b.defaultKeyboard[name := defaultBinding],
                    keyboard := b.keyboard[name := action])
  {
    if !KeyboardConfigured(config, name) then Failure(InvalidInputConfiguration(name))
    else if name in b.keyboard then Failure(InputAlreadyBound(name))
    else if name in b.defaultKeyboard then Failure(DuplicateKey(name))
    else Success(b.(defaultKeyboard := b.defaultKeyboard[name := defaultBinding],
                    keyboard := b.keyboard[name := action]))
  }

  /**
   * `GamepadJoystick`, `GamepadTrigger` and `GamepadButton` (InputService.cs:83-118): the
   * configuration check, the duplicate check within the kind, then the shared defaults
   * dictionary is filled before the kind's own.
   */
  function BindGamepad(b: Bindings, config: InputConfiguration, kind: GamepadKind, name: string, defaultBinding: int, action: ActionId)
    : (r: Result<Bindings, BindError>)
    ensures !GamepadConfigured(config, name) ==> r == Failure(InvalidInputConfiguration(name))
    ensures GamepadConfigured(config, name) && name in KindBindings(b, kind) ==> r == Failure(InputAlreadyBound(name))
    ensures r.Success? ==>
      r.value == WithKind(b.(defaultGamepad := b.defaultGamepad[name := defaultBinding]),
                          kind, KindBindings(b, kind)[name := action])
  {
    if !GamepadConfigured(config, name) then Failure(InvalidInputConfiguration(name))
    else if name in KindBindings(b, kind) then Failure(InputAlreadyBound(name))
    else if name in b.defaultGamepad then Failure(DuplicateKey(name))
    else Success(WithKind(b.(defaultGamepad := b.defaultGamepad[name := defaultBinding]),
                          kind, KindBindings(b, kind)[name := action]))
  }

  /** `GetKeyboardInputs()` (InputService.cs:123-126): each keyboard binding with its default key code. */
  function KeyboardInputs(b: Bindings): (r: map<string, int>)
    requires Consistent(b)
    ensures r.Keys == b.keyboard.Keys
  {
    map name | name in b.keyboard :: b.defaultKeyboard[name]
  }

  /** `GetGamepadInputs()` (InputService.cs:131-134): the joystick bindings only, with their defaults. */
  function GamepadInputs(b: Bindings): (r: map<string, int>)
    requires Consistent(b)
    ensures r.Keys == b.joystick.Keys
  {
    map name | name in b.joystick :: b.defaultGamepad[name]
  }

  /** `EmitKeyboardEvent` (InputService.cs:141-145): the bound action, if any, gets the state. */
  function EmitKeyboardEvent(b: Bindings, name: string, state: InputState): (r: Option<Invocation>)
    ensures r.Some? <==> name in b.keyboard
    ensures r.Some? ==> r.value == KeyAction(b.keyboard[name], state)
  {
    if name !in b.keyboard then None else Some(KeyAction(b.keyboard[name], state))
  }

  /** `EmitGamepadJoystickEvent` (InputService.cs:153-157). */
  function EmitGamepadJoystickEvent(b: Bindings, name: string, isPressed: bool, x: real, y: real): (r: Option<Invocation>)
    ensures r.Some? <==> name in b.joystick
    ensures r.Some? ==> r.value == JoystickAction(b.joystick[name], isPressed, x, y)
  {
    if name !in b.joystick then None else Some(JoystickAction(b.joystick[name], isPressed, x, y))
  }

  /** `EmitGamepadButtonEvent` (InputService.cs:164-168). */
  function EmitGamepadButtonEvent(b: Bindings, name: string, state: InputState): (r: Option<Invocation>)
    ensures r.Some? <==> name in b.button
    ensures r.Some? ==> r.value == ButtonAction(b.button[name], state)
  {
    if name !in b.button then None else Some(ButtonAction(b.button[name], state))
  }

  /** `EmitGamepadTriggerEvent` (InputService.cs:175-179). */
  function EmitGamepadTriggerEvent(b: Bindings, name: string, value: real): (r: Option<Invocation>)
    ensures r.Some? <==> name in b.trigger
    ensures r.Some? ==> r.value == TriggerAction(b.trigger[name], value)
  {
    if name !in b.trigger then None else Some(TriggerAction(b.trigger[name], value))
  }

  /** The key state a keyboard topic carries (InputService.cs:43). */
  function KeyState(isPressed: bool): (s: InputState)
    ensures s == Pressed <==> isPressed
  {
    if isPressed then Pressed else Released
  }

  /**
   * The bodies of the four subscriptions the constructor makes (InputService.cs:41-59).
   * The bus delivers only topics of the four subscribed names, so other topics do nothing.
   */
  function OnInputTopic(b: Bindings, t: Topic): (r: Option<Invocation>)
    ensures t.DriveInputTopic? || t.TraxxasInputMessage? ==> r == None
    ensures t.KeyboardInputTopic? ==> (r.Some? <==> t.name in b.keyboard)
    ensures t.GamepadJoystickInputTopic? ==> (r.Some? <==> t.name in b.joystick)
    ensures t.GamepadButtonInputTopic? ==> (r.Some? <==> t.name in b.button)
    ensures t.GamepadTriggerInputTopic? ==> (r.Some? <==> t.name in b.trigger)
  {
    match t
    case KeyboardInputTopic(name, isPressed) => EmitKeyboardEvent(b, name, KeyState(isPressed))
    case GamepadJoystickInputTopic(name, isPressed, x, y) => EmitGamepadJoystickEvent(b, name, isPressed, x, y)
    case GamepadButtonInputTopic(name, state) => EmitGamepadButtonEvent(b, name, state)
    case GamepadTriggerInputTopic(name, value) => EmitGamepadTriggerEvent(b, name, value)
    case _ => None
  }

  /*
   * Properties of binding.
   */

  /** The configuration is checked before duplicates: an unconfigured name fails the same way whatever is bound. */
  lemma ConfigurationCheckedFirst(b: Bindings, b': Bindings, config: InputConfiguration, name: string, key: int, action: ActionId)
    requires !KeyboardConfigured(config, name)
    ensures BindKeyboard(b, config, name, key, action) == BindKeyboard(b', config, name, key, action)
  {
  }

  /** Binding keeps the dictionaries in step. */
  lemma BindPreservesConsistency(b: Bindings, config: InputConfiguration, kind: GamepadKind, name: string, key: int, action: ActionId)
    requires Consistent(b)
    ensures BindKeyboard(b, config, name, key, action).Success? ==> Consistent(BindKeyboard(b, config, name, key, action).value)
    ensures BindGamepad(b, config, kind, name, key, action).Success? ==> Consistent(BindGamepad(b, config, kind, name, key, action).value)
  {
    var r := BindGamepad(b, config, kind, name, key, action);
    if r.Success? {
      var n := r.value;
      assert name !in b.joystick && name !in b.button && name !in b.trigger;
      match kind
      case Joystick => assert n.joystick.Keys == b.joystick.Keys + {name};
      case Trigger => assert n.trigger.Keys == b.trigger.Keys + {name};
      case Button => assert n.button.Keys == b.button.Keys + {name};
    }
  }

  /** For consistent dictionaries, the keyboard defaults `Add` never fails: keyboard binding succeeds iff validation passes. */
  lemma KeyboardBindSucceeds(b: Bindings, config: InputConfiguration, name: string, key: int, action: ActionId)
    requires Consistent(b)
    ensures BindKeyboard(b, config, name, key, action).Success? <==>
      KeyboardConfigured(config, name) && name !in b.keyboard
  {
  }

  /**
   * A gamepad bind succeeds exactly when the name is configured and no gamepad kind has
   * bound it yet: the kinds share the defaults dictionary.
   */
  lemma GamepadBindSucceeds(b: Bindings, config: InputConfiguration, kind: GamepadKind, name: string, key: int, action: ActionId)
    requires Consistent(b)
    ensures BindGamepad(b, config, kind, name, key, action).Success? <==>
      GamepadConfigured(config, name) && name !in b.joystick && name !in b.button && name !in b.trigger
  {
    assert name in b.defaultGamepad <==> name in b.joystick || name in b.button || name in b.trigger;
    match kind
    case Joystick => assert KindBindings(b, kind) == b.joystick;
    case Button => assert KindBindings(b, kind) == b.button;
    case Trigger => assert KindBindings(b, kind) == b.trigger;
  }

  /**
   * The shared gamepad defaults: a configured name not yet bound for this kind fails at the
   * defaults `Add` exactly when another gamepad kind already bound it (InputService.cs:87).
   */
  lemma GamepadSharedDefaults(b: Bindings, config: InputConfiguration, kind: GamepadKind, name: string, key: int, action: ActionId)
    requires Consistent(b)
    requires GamepadConfigured(config, name) && name !in KindBindings(b, kind)
    ensures BindGamepad(b, config, kind, name, key, action) == Failure(DuplicateKey(name)) <==>
      exists other :: other != kind && name in KindBindings(b, other)
  {
    if name in b.defaultGamepad {
      assert name in b.joystick || name in b.button || name in b.trigger;
      if name in b.joystick { assert name in KindBindings(b, Joystick); }
      else if name in b.button { assert name in KindBindings(b, Button); }
      else { assert name in KindBindings(b, Trigger); }
    } else {
      assert forall other :: name !in KindBindings(b, other);
    }
  }

  /** A keyboard bind adds its name and default to `GetKeyboardInputs` and leaves the gamepad inputs alone. */
  lemma KeyboardInputsAfterBind(b: Bindings, config: InputConfiguration, name: string, key: int, action: ActionId)
    requires Consistent(b)
    requires BindKeyboard(b, config, name, key, action).Success?
    ensures var n := BindKeyboard(b, config, name, key, action).value;
      Consistent(n) &&
      KeyboardInputs(n) == KeyboardInputs(b)[name := key] &&
      GamepadInputs(n) == GamepadInputs(b)
  {
    BindPreservesConsistency(b, config, Joystick, name, key, action);
  }

  /** Only a joystick bind changes `GetGamepadInputs`; a trigger or button bind does not. */
  lemma GamepadInputsAfterBind(b: Bindings, config: InputConfiguration, kind: GamepadKind, name: string, key: int, action: ActionId)
    requires Consistent(b)
    requires BindGamepad(b, config, kind, name, key, action).Success?
    ensures var n := BindGamepad(b, config, kind, name, key, action).value;
      Consistent(n) &&
      GamepadInputs(n) == (if kind == Joystick then GamepadInputs(b)[name := key] else GamepadInputs(b)) &&
      KeyboardInputs(n) == KeyboardInputs(b)
  {
    BindPreservesConsistency(b, config, kind, name, key, action);
    var n := BindGamepad(b, config, kind, name, key, action).value;
    if kind != Joystick {
      assert name !in b.joystick;
      assert forall k :: k in b.joystick ==> k != name && n.defaultGamepad[k] == b.defaultGamepad[k];
    }
  }

  /*
   * Properties of emitting.
   */

  /** After binding `name`, its keyboard event invokes exactly the new action; other names are unaffected. */
  lemma EmitAfterKeyboardBind(b: Bindings, config: InputConfiguration, name: string, key: int, action: ActionId, other: string, state: InputState)
    requires BindKeyboard(b, config, name, key, action).Success?
    ensures var n := BindKeyboard(b, config, name, key, action).value;
      EmitKeyboardEvent(n, name, state) == Some(KeyAction(action, state)) &&
      (other != name ==> EmitKeyboardEvent(n, other, state) == EmitKeyboardEvent(b, other, state))
  {
  }

  /** An event for a name bound by no kind invokes nothing, whichever topic carries it. */
  lemma UnboundIsIgnored(b: Bindings, t: Topic)
    requires t.KeyboardInputTopic? || t.GamepadJoystickInputTopic? || t.GamepadButtonInputTopic? || t.GamepadTriggerInputTopic?
    requires t.name !in b.keyboard && t.name !in b.joystick && t.name !in b.button && t.name !in b.trigger
    ensures OnInputTopic(b, t) == None
  {
  }

  /** A keyboard topic invokes the bound action once, with `Pressed` exactly when the key is down. */
  lemma KeyboardTopicInvokes(b: Bindings, name: string, isPressed: bool)
    requires name in b.keyboard
    ensures OnInputTopic(b, KeyboardInputTopic(name, isPressed)) ==
      Some(KeyAction(b.keyboard[name], if isPressed then Pressed else Released))
  {
  }

  /** A gamepad topic for a bound name invokes that name's action once, with the topic's values. */
  lemma GamepadTopicsInvoke(b: Bindings, name: string, isPressed: bool, x: real, y: real, state: InputState, value: real)
    ensures name in b.joystick ==>
      OnInputTopic(b, GamepadJoystickInputTopic(name, isPressed, x, y)) == Some(JoystickAction(b.joystick[name], isPressed, x, y))
    ensures name in b.button ==>
      OnInputTopic(b, GamepadButtonInputTopic(name, state)) == Some(ButtonAction(b.button[name], state))
    ensures name in b.trigger ==>
      OnInputTopic(b, GamepadTriggerInputTopic(name, value)) == Some(TriggerAction(b.trigger[name], value))
  {
  }

  /** The service object: the configuration and the six dictionaries, updated in place. */
  class InputService {
    const config: InputConfiguration
    var defaultKeyboardBindings: map<string, int>
    var defaultGamepadBindings: map<string, int>
    var keyboardBindings: map<string, ActionId>
    var gamepadJoystickBindings: map<string, ActionId>
    var gamepadButtonBindings: map<string, ActionId>
    var gamepadTriggerBindings: map<string, ActionId>

    /** The six dictionaries as one value. */
    function State(): Bindings
      reads this
    {
      Bindings(defaultKeyboardBindings, defaultGamepadBindings, keyboardBindings,
               gamepadJoystickBindings, gamepadButtonBindings, gamepadTriggerBindings)
    }

    ghost predicate Valid()
      reads this
    {
      Consistent(State())
    }

    /**
     * The constructor (InputService.cs:29-60): empty dictionaries, and one subscription,
     * under `listener`, on each of the four input topics.
     */
    constructor(bus: PubSubService<Topic>, config: InputConfiguration, listener: SubscriberId)
      modifies bus
      ensures this.config == config
      ensures State() == NoBindings && Valid()
      ensures bus.subscribers ==
        Appended(Appended(Appended(Appended(old(bus.subscribers),
          "KeyboardInputTopic", listener), "GamepadJoystickInputTopic", listener),
          "GamepadButtonInputTopic", listener), "GamepadTriggerInputTopic", listener)
      ensures bus.middlewares == old(bus.middlewares) && bus.transformers == old(bus.transformers)
    {
      this.config := config;
      defaultKeyboardBindings := map[];
      defaultGamepadBindings := map[];
      keyboardBindings := map[];
      gamepadJoystickBindings := map[];
      gamepadButtonBindings := map[];
      gamepadTriggerBindings := map[];
      bus.Subscribe("KeyboardInputTopic", listener);
      bus.Subscribe("GamepadJoystickInputTopic", listener);
      bus.Subscribe("GamepadButtonInputTopic", listener);
      bus.Subscribe("GamepadTriggerInputTopic", listener);
    }

    /** `Keyboard(name, defaultBinding, action)` (InputService.cs:69-75). */
    method Keyboard(name: string, defaultBinding: int, action: ActionId) returns (r: Option<BindError>)
      requires Valid()
      modifies this
      ensures Valid()
      ensures var step := BindKeyboard(old(State()), config, name, defaultBinding, action);
        if step.Success? then r == None && State() == step.value
        else r == Some(step.error) && State() == old(State())
    {
      BindPreservesConsistency(State(), config, Joystick, name, defaultBinding, action);
      if !(name in config.keyboard && config.keyboard[name] in config.keyboardKeys) {
        return Some(InvalidInputConfiguration(name));
      }
      if name in keyboardBindings {
        return Some(InputAlreadyBound(name));
      }
      if name in defaultKeyboardBindings {
        return Some(DuplicateKey(name));
      }
      defaultKeyboardBindings := defaultKeyboardBindings[name := defaultBinding];
      keyboardBindings := keyboardBindings[name := action];
      return None;
    }

    /** `GamepadJoystick(name, defaultBinding, action)` (InputService.cs:83-89). */
    method GamepadJoystick(name: string, defaultBinding: int, action: ActionId) returns (r: Option<BindError>)
      requires Valid()
      modifies this
      ensures Valid()
      ensures var step := BindGamepad(old(State()), config, Joystick, name, defaultBinding, action);
        if step.Success? then r == None && State() == step.value
        else r == Some(step.error) && State() == old(State())
    {
      BindPreservesConsistency(State(), config, Joystick, name, defaultBinding, action);
      r := CheckGamepad(Joystick, name, defaultBinding, action);
      if r == None {
        defaultGamepadBindings := defaultGamepadBindings[name := defaultBinding];
        gamepadJoystickBindings := gamepadJoystickBindings[name := action];
      }
    }

    /** `GamepadTrigger(name, defaultBinding, action)` (InputService.cs:98-104). */
    method GamepadTrigger(name: string, defaultBinding: int, action: ActionId) returns (r: Option<BindError>)
      requires Valid()
      modifies this
      ensures Valid()
      ensures var step := BindGamepad(old(State()), config, Trigger, name, defaultBinding, action);
        if step.Success? then r == None && State() == step.value
        else r == Some(step.error) && State() == old(State())
    {
      BindPreservesConsistency(State(), config, Trigger, name, defaultBinding, action);
      r := CheckGamepad(Trigger, name, defaultBinding, action);
      if r == None {
        defaultGamepadBindings := defaultGamepadBindings[name := defaultBinding];
        gamepadTriggerBindings := gamepadTriggerBindings[name := action];
      }
    }

    /** `GamepadButton(name, defaultBinding, action)` (InputService.cs:112-118). */
    method GamepadButton(name: string, defaultBinding: int, action: ActionId) returns (r: Option<BindError>)
      requires Valid()
      modifies this
      ensures Valid()
      ensures var step := BindGamepad(old(State()), config, Button, name, defaultBinding, action);
        if step.Success? then r == None && State() == step.value
        else r == Some(step.error) && State() == old(State())
    {
      BindPreservesConsistency(State(), config, Button, name, defaultBinding, action);
      r := CheckGamepad(Button, name, defaultBinding, action);
      if r == None {
        defaultGamepadBindings := defaultGamepadBindings[name := defaultBinding];
        gamepadButtonBindings := gamepadButtonBindings[name := action];
      }
    }

    /**
     * The guards a gamepad bind of `kind` runs before its two `Add`s: no error exactly when
     * the bind succeeds, and otherwise the error the bind fails with.
     */
    method CheckGamepad(kind: GamepadKind, name: string, ghost defaultBinding: int, ghost action: ActionId)
      returns (r: Option<BindError>)
      ensures r.None? <==> BindGamepad(State(), config, kind, name, defaultBinding, action).Success?
      ensures r.Some? ==> BindGamepad(State(), config, kind, name, defaultBinding, action) == Failure(r.value)
    {
      var kindBindings := match kind
        case Joystick => gamepadJoystickBindings
        case Trigger => gamepadTriggerBindings
        case Button => gamepadButtonBindings;
      if !(name in config.gamepad && config.gamepad[name] in config.gamepadInputs) {
        return Some(InvalidInputConfiguration(name));
      }
      if name in kindBindings {
        return Some(InputAlreadyBound(name));
      }
      if name in defaultGamepadBindings {
        return Some(DuplicateKey(name));
      }
      return None;
    }

    /** `GetKeyboardInputs()` (InputService.cs:123-126). */
    function GetKeyboardInputs(): (r: map<string, int>)
      reads this
      requires Valid()
      ensures r == KeyboardInputs(State())
    {
      map name | name in keyboardBindings :: defaultKeyboardBindings[name]
    }

    /** `GetGamepadInputs()` (InputService.cs:131-134). */
    function GetGamepadInputs(): (r: map<string, int>)
      reads this
      requires Valid()
      ensures r == GamepadInputs(State())
    {
      map name | name in gamepadJoystickBindings :: defaultGamepadBindings[name]
    }

    /** The subscriber callbacks of the constructor: the action a delivered input topic invokes, if any. */
    method OnTopic(t: Topic) returns (r: Option<Invocation>)
      ensures r == OnInputTopic(State(), t)
    {
      match t
      case KeyboardInputTopic(name, isPressed) =>
        var state := if isPressed then Pressed else Released;
        if name in keyboardBindings { r := Some(KeyAction(keyboardBindings[name], state)); } else { r := None; }
      case GamepadJoystickInputTopic(name, isPressed, x, y) =>
        if name in gamepadJoystickBindings { r := Some(JoystickAction(gamepadJoystickBindings[name], isPressed, x, y)); } else { r := None; }
      case GamepadButtonInputTopic(name, state) =>
        if name in gamepadButtonBindings { r := Some(ButtonAction(gamepadButtonBindings[name], state)); } else { r := None; }
      case GamepadTriggerInputTopic(name, value) =>
        if name in gamepadTriggerBindings { r := Some(TriggerAction(gamepadTriggerBindings[name], value)); } else { r := None; }
      case _ =>
        r := None;
    }
  }
}
