/**
 * The Traxxas vehicle driver (Vehicle.Traxxas/Traxxas.cs): at construction it registers
 * the drive-to-channel transformer and its own input handler on the bus; the handler
 * builds the 11-byte packet the receiver expects and sends it.
 */
module Traxxas {
  import opened Topics
  import opened PubSub
  import TraxxasInputTransformer

  /** A topic of the class `TraxxasInputMessage`, what `HandleInput` is typed to receive. */
  type TraxxasInput = t: Topic | t.TraxxasInputMessage? witness TraxxasInputMessage(0, 0, 0)

  /** The sum of a byte sequence, as an unbounded integer. */
  function Sum(s: seq<byte>): int {
    if s == [] then 0 else s[0] as int + Sum(s[1..])
  }

  /** The checksum byte (Traxxas.cs:61): the sum of the other ten bytes, modulo 256. */
  function Checksum(m: TraxxasInput): byte {
    ((85 + 0 + 11 + 0 + m.throttleChannel as int + m.steeringChannel as int + m.brakeChannel as int + 0 + 0 + 0) % 256) as byte
  }

  /** The packet `HandleInput` sends (Traxxas.cs:62). */
  function Packet(m: TraxxasInput): (p: seq<byte>)
    ensures |p| == 11
    ensures p[0] == 85 && p[1] == 0 && p[2] == 11 && p[3] == 0
    ensures p[4] == m.throttleChannel && p[5] == m.steeringChannel && p[6] == m.brakeChannel
    ensures p[7] == 0 && p[8] == 0 && p[9] == 0
    ensures p[10] as int == Sum(p[..10]) % 256
  {
    var p := [85, 0, 11, 0, m.throttleChannel, m.steeringChannel, m.brakeChannel, 0, 0, 0, Checksum(m)];
    SumOfTen(p[..10]);
    p
  }

  /** One step of the sum from position `k`. */
  lemma SumStep(s: seq<byte>, k: nat)
    requires k < |s|
    ensures Sum(s[k..]) == s[k] as int + Sum(s[k + 1..])
  {
    assert s[k..][0] == s[k];
    assert s[k..][1..] == s[k + 1..];
  }

  /** The sum of ten bytes, written out. */
  lemma SumOfTen(s: seq<byte>)
    requires |s| == 10
    ensures Sum(s) == s[0] as int + s[1] as int + s[2] as int + s[3] as int + s[4] as int
                    + s[5] as int + s[6] as int + s[7] as int + s[8] as int + s[9] as int
  {
    assert s[0..] == s;
    assert s[10..] == [];
    SumStep(s, 0); SumStep(s, 1); SumStep(s, 2); SumStep(s, 3); SumStep(s, 4);
    SumStep(s, 5); SumStep(s, 6); SumStep(s, 7); SumStep(s, 8); SumStep(s, 9);
  }

  /** A packet is determined by its three channel bytes, and determines them. */
  lemma PacketInjective(a: TraxxasInput, b: TraxxasInput)
    ensures Packet(a) == Packet(b) <==> a == b
  {
    if Packet(a) == Packet(b) {
      assert Packet(a)[4] == Packet(b)[4] && Packet(a)[5] == Packet(b)[5] && Packet(a)[6] == Packet(b)[6];
    }
  }

  /** The drive-to-packet path: what the receiver gets for a drive input. */
  lemma DrivePacket(throttle: int32, steering: int32, brake: bool)
    ensures var m := TraxxasInputTransformer.Process(DriveInputTopic(throttle, steering, brake));
      m.TraxxasInputMessage? &&
      Packet(m)[4] as int == throttle as int % 256 &&
      Packet(m)[5] as int == steering as int % 256 &&
      Packet(m)[6] == 0 &&
      Packet(m)[10] as int == (96 + throttle as int % 256 + steering as int % 256) % 256
  {
  }

  /** The registrations the driver's constructor makes on an empty bus (Traxxas.cs:33-34). */
  function DriverRegistry(handler: SubscriberId): Registry<Topic> {
    Registry(map[],
             map["DriveInputTopic" := [TraxxasInputTransformer.Process]],
             map["TraxxasInputMessage" := [handler]])
  }

  /**
   * On a bus holding only the driver's registrations, a drive topic reaches the driver's
   * handler exactly once, as the transformed message.
   */
  lemma DriveReachesHandler(handler: SubscriberId, throttle: int32, steering: int32, brake: bool, depth: nat)
    requires depth >= 1
    ensures var d := DriveInputTopic(throttle, steering, brake);
      Dispatched(TypeName, DriverRegistry(handler), d, depth) ==
        Delivered([Delivery(handler, TraxxasInputTransformer.Process(d))])
  {
    var d := DriveInputTopic(throttle, steering, brake);
    var reg := DriverRegistry(handler);
    var m := TraxxasInputTransformer.Process(d);
    assert Variants(ListFor(reg.transformers, TypeName(d)), d) == [m];
    assert Variants(ListFor(reg.transformers, TypeName(m)), m) == [];
    assert Notify(ListFor(reg.subscribers, TypeName(d)), d) == [];
    assert Notify(ListFor(reg.subscribers, TypeName(m)), m) == [Delivery(handler, m)];
    assert Dispatched(TypeName, reg, m, depth - 1) == Delivered([Delivery(handler, m)]);
    assert DispatchedAll(TypeName, reg, [m], depth - 1) == Delivered([Delivery(handler, m)]);
  }

  /** The TCP connection to the receiver; only what was sent is modelled. */
  class Connection {
    var sent: seq<seq<byte>>

    constructor()
      ensures sent == []
    {
      sent := [];
    }

    /** `Send(new TcpData { Data = data })`. */
    method Send(data: seq<byte>)
      modifies this
      ensures sent == old(sent) + [data]
    {
      sent := sent + [data];
    }
  }

  /** The driver object of Traxxas.cs. */
  class Traxxas {
    const connection: Connection
    /** The bus subscriber id under which `HandleInput` is registered. */
    const handler: SubscriberId

    /**
     * The constructor (Traxxas.cs:27-35): one transformer on `DriveInputTopic` and one
     * subscriber on `TraxxasInputMessage`, nothing else on the bus.
     */
    constructor(connection: Connection, bus: PubSubService<Topic>, handler: SubscriberId)
      modifies bus
      ensures this.connection == connection && this.handler == handler
      ensures bus.transformers == Appended(old(bus.transformers), "DriveInputTopic", TraxxasInputTransformer.Process)
      ensures bus.subscribers == Appended(old(bus.subscribers), "TraxxasInputMessage", handler)
      ensures bus.middlewares == old(bus.middlewares)
    {
      this.connection := connection;
      this.handler := handler;
      bus.Transform("DriveInputTopic", TraxxasInputTransformer.Process);
      bus.Subscribe("TraxxasInputMessage", handler);
    }

    /** `HandleInput(escInput)` (Traxxas.cs:59-65): exactly one send, of the packet. */
    method HandleInput(escInput: TraxxasInput)
      modifies connection
      ensures connection.sent == old(connection.sent) + [Packet(escInput)]
    {
      var checksum := Checksum(escInput);
      var packet := [85, 0, 11, 0, escInput.throttleChannel, escInput.steeringChannel, escInput.brakeChannel, 0, 0, 0, checksum];
      connection.Send(packet);
    }
  }
}
