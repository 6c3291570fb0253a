/**
 * The topic records the core files publish and consume, as one datatype whose
 * constructor is the topic's runtime class (Overkill.Core/Topics/DriveInputTopic.cs,
 * Vehicle.Traxxas/Topics/TraxxasInputMessage.cs and the input topics InputService.cs reads).
 */
module Topics {

  /** C#'s `int`. */
  newtype int32 = x: int | -0x8000_0000 <= x < 0x8000_0000

  /** C#'s `byte`. */
  newtype byte = x: int | 0 <= x < 0x100

  /** The state of a key or button. */
  datatype InputState = Pressed | Released

  datatype Topic =
    | DriveInputTopic(throttle: int32, steering: int32, brake: bool)
    | TraxxasInputMessage(throttleChannel: byte, steeringChannel: byte, brakeChannel: byte)
    | KeyboardInputTopic(name: string, isPressed: bool)
    | GamepadJoystickInputTopic(name: string, isPressed: bool, x: real, y: real)
    | GamepadButtonInputTopic(name: string, state: InputState)
    | GamepadTriggerInputTopic(name: string, value: real)

  /** `topic.GetType().Name`, the key the bus routes by. */
  function TypeName(t: Topic): string {
    match t
    case DriveInputTopic(_, _, _) => "DriveInputTopic"
    case TraxxasInputMessage(_, _, _) => "TraxxasInputMessage"
    case KeyboardInputTopic(_, _) => "KeyboardInputTopic"
    case GamepadJoystickInputTopic(_, _, _, _) => "GamepadJoystickInputTopic"
    case GamepadButtonInputTopic(_, _) => "GamepadButtonInputTopic"
    case GamepadTriggerInputTopic(_, _) => "GamepadTriggerInputTopic"
  }

  /** Distinct topic classes have distinct names, so routing by name is routing by class. */
  lemma TypeNameIdentifiesClass(a: Topic, b: Topic)
    ensures TypeName(a) == TypeName(b) <==>
      (a.DriveInputTopic? && b.DriveInputTopic?) ||
      (a.TraxxasInputMessage? && b.TraxxasInputMessage?) ||
      (a.KeyboardInputTopic? && b.KeyboardInputTopic?) ||
      (a.GamepadJoystickInputTopic? && b.GamepadJoystickInputTopic?) ||
      (a.GamepadButtonInputTopic? && b.GamepadButtonInputTopic?) ||
      (a.GamepadTriggerInputTopic? && b.GamepadTriggerInputTopic?)
  {
  }
}
