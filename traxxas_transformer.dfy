/**
 * The Traxxas transformer (Vehicle.Traxxas/Middleware/TraxxasInputTransformer.cs): a generic
 * drive topic becomes the byte channels the Traxxas receiver understands.
 */
module TraxxasInputTransformer {
  import opened Topics

  /** The 32-bit two's-complement pattern of a C# `int`, read as an unsigned number. */
  function Bits(x: int32): (n: nat)
    ensures n < 0x1_0000_0000
  {
    if x < 0 then x as int + 0x1_0000_0000 else x as int
  }

  /**
   * `(byte)(x & 255)`: the low eight bits of `x`'s two's-complement pattern, which is the
   * Euclidean remainder of `x` modulo 256 (for negative `x` too, unlike C#'s `%`).
   */
  function LowByte(x: int32): (b: byte)
    ensures b as int == x as int % 256
  {
    LowBitsAreMod256(x);
    (Bits(x) % 0x100) as byte
  }

  /** The low eight bits of the pattern do not depend on the 2^32 offset of negative numbers. */
  lemma LowBitsAreMod256(x: int32)
    ensures Bits(x) % 0x100 == x as int % 256
  {
    if x < 0 {
      var q := (x as int) / 256;
      var m := (x as int) % 256;
      assert x as int == 256 * q + m;
      assert Bits(x) == 256 * (q + 0x100_0000) + m;
    }
  }

  /** `Process(topic)` (TraxxasInputTransformer.cs:15-25). */
  function Process(topic: Topic): (r: Topic)
    ensures topic.DriveInputTopic? ==>
      && r.TraxxasInputMessage?
      && r.throttleChannel as int == topic.throttle as int % 256
      && r.steeringChannel as int == topic.steering as int % 256
      && r.brakeChannel == 0
      && TypeName(r) != TypeName(topic)
  {
    match topic
    case DriveInputTopic(throttle, steering, brake) =>
      TraxxasInputMessage(LowByte(throttle), LowByte(steering), 0)
    // The bus applies a transformer only to topics of the name it was registered for,
    // DriveInputTopic, so this arm is never taken; it stands for the failing cast.
    case _ => topic
  }

  /** The brake flag does not reach the channels: braking and not braking give the same message. */
  lemma BrakeIgnored(throttle: int32, steering: int32)
    ensures Process(DriveInputTopic(throttle, steering, true)) == Process(DriveInputTopic(throttle, steering, false))
  {
  }

  /** Drive inputs that agree modulo 256 on throttle and steering give the same message. */
  lemma OnlyLowBytesMatter(a: Topic, b: Topic)
    requires a.DriveInputTopic? && b.DriveInputTopic?
    requires a.throttle as int % 256 == b.throttle as int % 256
    requires a.steering as int % 256 == b.steering as int % 256
    ensures Process(a) == Process(b)
  {
  }
}
