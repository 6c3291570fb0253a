# OverkillFramework core, modelled in Dafny

OverkillFramework is a C# control stack for remote-driven vehicles. Its components talk
through an in-process topic bus. This project models the bus and the services around it
whose behaviour is decided by table updates, string handling or byte arithmetic:

- **The topic bus** (`PubSub`, pubsub.dfy). Three registries keyed by a topic's runtime type
  name hold middleware, transformers and subscribers. `Dispatch` runs its three-stage
  pipeline:
  - Middleware run in order. A `null` result drops the topic. A result of another type is
    ignored.
  - Every transformer variant is collected first, then each variant is dispatched again
    through the whole pipeline.
  - Finally the subscribers of the original name run, in order, with the post-middleware
    topic.

  The bus is generic in its topic type. A dispatch yields the trace of
  (subscriber, topic) deliveries. The `PubSubService` class keeps the registries as `map`
  fields. Its `Dispatch` method is proved equal to `Dispatched`, the reference definition
  of a dispatch, and the ordering, veto, type-guard and termination properties are proved
  about that function.
- **Topics** (`Topics`, topics.dfy). The topic records the other files use, with C#'s
  `int` and `byte` as bounded newtypes.
- **The Traxxas driver** (`TraxxasInputTransformer`, `Traxxas`). A drive topic becomes byte
  channels by `& 255`, modelled as the two's-complement low byte. The driver then sends an
  11-byte packet with a fixed header and a mod-256 checksum. Its constructor registers on
  the bus, and lemmas follow a drive topic through the bus to the driver.
- **The input binding registry** (`InputService`). Six dictionaries hold keyboard and
  gamepad bindings with their default key codes. Binding validates the configuration and
  rejects duplicates. The constructor's subscriptions route input topics to the bound
  actions.
- **Modem sentence validation** (`ModemPositioning`). `ParseModemData` picks the
  latitude and longitude fields of the first `$GPRMC` sentence (the RMC sentence of
  NMEA 0183), kept as raw field text.
- **SSID extraction** (`Networking`). The post-processing of `GetNearbyNetworks` turns the
  scan command's exit code and output into the list of network names.
- **Websocket routing** (`Websockets`). The message-type and handler caches are keyed by
  names derived from class names. `Handle` routes an incoming object through them, and
  `SendMessage` tags outgoing messages.

`Strings` models the .NET string operations the core uses:
- ordinal `Contains`, with the `IndexOf` search it is built on;
- `Split` with an array of separators and `StringSplitOptions.None`;
- `EndsWith`, compared character by character;
- `ToLower`, on ASCII letters.

`Split` is proved to invert `Join` for one-character separators, the case the core uses.
`Wrappers` holds `Option` and `Result`.

Transformer variants go back through the whole pipeline. The doc comment of `Transform`
(Overkill.PubSub/PubSubService.cs:128-129) says only that all variants, and the original
topic, are dispatched to their subscribers. The code at Overkill.PubSub/PubSubService.cs:82
calls `Dispatch` on every variant. So a variant also runs through the middleware and the
transformers registered for its own type, and a cycle of transformers recurses without end.
The model re-dispatches each variant. It bounds the nesting by a `depth` argument: running
out of depth (`DepthExceeded`) stands for the stack overflow. `RankedCompletes` proves that
a transformer graph without cycles never exhausts a large enough depth, `SelfLoopExceeds` proves
that a transformer back to the same type exhausts every depth, and `DepthMonotone`
proves that the bound changes nothing else.

## Model

| member | source | states |
|---|---|---|
| PubSub.Appended | Overkill.PubSub/PubSubService.cs:97-143 | registering adds the unit at the end of the name's list, creating the list if absent; every other name's list is unchanged |
| PubSub.RunMiddleware | Overkill.PubSub/PubSubService.cs:57-71 | the middleware stage never changes the topic's runtime type name |
| PubSub.MiddlewareCompose | Overkill.PubSub/PubSubService.cs:59-69 | middleware compose in registration order: running `a + b` is running `b` on what `a` accepted, and a drop in `a` drops the whole chain |
| PubSub.DropSkipsRest | Overkill.PubSub/PubSubService.cs:61-65 | a middleware returning null ends the dispatch: later middleware, all transformers and all subscribers are skipped and nothing is delivered |
| PubSub.TypeGuard | Overkill.PubSub/PubSubService.cs:66-69 | a middleware result replaces the topic only when its type name equals the topic's; otherwise the next middleware sees the unchanged topic |
| PubSub.UnregisteredIsNoop | Overkill.PubSub/PubSubService.cs:57-89 | a topic whose name has no middleware, transformers or subscribers delivers nothing and does not fail |
| PubSub.Variants | Overkill.PubSub/PubSubService.cs:77-79 | one variant per registered transformer, all computed from the post-middleware topic |
| PubSub.Notify | Overkill.PubSub/PubSubService.cs:86-89 | one delivery per registered subscriber |
| PubSub.DispatchOrder | Overkill.PubSub/PubSubService.cs:77-88 | the trace is the variants' dispatches in registration order, followed by exactly one delivery of the post-middleware topic to each subscriber of the name, in registration order, duplicates kept |
| PubSub.DeliveriesAreRegistered | Overkill.PubSub/PubSubService.cs:82-88 | every delivery of a dispatch goes to a subscriber registered for the delivered topic's own type name |
| PubSub.AllDeliveriesAreRegistered | Overkill.PubSub/PubSubService.cs:82 | the same, for the re-dispatch of a list of variants |
| PubSub.DepthMonotone | Overkill.PubSub/PubSubService.cs:82 | a dispatch that completes within a nesting bound has the same trace under every larger bound |
| PubSub.AllDepthMonotone | Overkill.PubSub/PubSubService.cs:82 | the same, for the re-dispatch of a list of variants |
| PubSub.RankedCompletes | Overkill.PubSub/PubSubService.cs:77-82 | when every transformer output lowers a rank of type names (no cycles), dispatch with depth at least the topic's rank always completes |
| PubSub.SelfLoopExceeds | Overkill.PubSub/PubSubService.cs:77-82 | a transformer whose output keeps the topic's type name, behind middleware that never drops it, makes dispatch run out of every depth: the unbounded recursion of a cycle |
| PubSub.AllRankedComplete | Overkill.PubSub/PubSubService.cs:82 | the same, for the re-dispatch of a list of variants |
| PubSub.FanOut | Overkill.PubSub/PubSubService.cs:77-88 | with one transformer and a subscriber on each name, the variant's subscriber receives the variant before the original's subscriber receives the original |
| PubSub.SubscribeAddsLastDelivery | Overkill.PubSub/PubSubService.cs:86-106 | one more subscriber on a name without transformers adds exactly one delivery, to it, at the end of the trace |
| PubSub.Dispatched | Overkill.PubSub/PubSubService.cs:52-90 | the reference definition of a dispatch as a trace, with no contract of its own; `DispatchOrder`, `DeliveriesAreRegistered`, `DepthMonotone` and `RankedCompletes` state its properties |
| PubSub.Fanout | Overkill.PubSub/PubSubService.cs:77-83 | the reference definition of the transformer stage, with no contract of its own; `FanOut` and `RankedCompletes` state its properties |
| PubSub.DispatchedAll | Overkill.PubSub/PubSubService.cs:82 | the reference definition of dispatching the variants in order, with no contract of its own; `AllDeliveriesAreRegistered`, `AllDepthMonotone` and `AllRankedComplete` state its properties |
| PubSub.PubSubService.constructor | Overkill.PubSub/PubSubService.cs:21-27 | the bus starts with three empty registries |
| PubSub.PubSubService.Subscribe | Overkill.PubSub/PubSubService.cs:97-107 | the subscriber is appended to its name's list; the other registries are unchanged |
| PubSub.PubSubService.Middleware | Overkill.PubSub/PubSubService.cs:115-125 | the middleware is appended to its name's chain; the other registries are unchanged |
| PubSub.PubSubService.Transform | Overkill.PubSub/PubSubService.cs:133-143 | the transformer is appended to its name's chain; the other registries are unchanged |
| PubSub.PubSubService.ApplyMiddleware | Overkill.PubSub/PubSubService.cs:57-71 | the `for` loop over the chain computes `RunMiddleware` |
| PubSub.PubSubService.DispatchVariants | Overkill.PubSub/PubSubService.cs:82 | dispatching the collected variants one after the other yields their concatenated traces |
| PubSub.PubSubService.Dispatch | Overkill.PubSub/PubSubService.cs:52-90 | the imperative pipeline (middleware loop, variant collection, recursive re-dispatch, subscriber loop) yields exactly the trace of `Dispatched` |
| Topics.TypeNameIdentifiesClass | Overkill.PubSub/PubSubService.cs:54 | routing by type name is routing by topic class: two topics have the same name exactly when they are of the same class |
| TraxxasInputTransformer.LowByte | Vehicle.Traxxas/Middleware/TraxxasInputTransformer.cs:21-22 | `(byte)(x & 255)` of a 32-bit int is the Euclidean remainder of `x` modulo 256, within 0..255, negative inputs included |
| TraxxasInputTransformer.LowBitsAreMod256 | Vehicle.Traxxas/Middleware/TraxxasInputTransformer.cs:21-22 | the low eight bits of the two's-complement pattern equal the value modulo 256 |
| TraxxasInputTransformer.Process | Vehicle.Traxxas/Middleware/TraxxasInputTransformer.cs:15-25 | a drive topic becomes a Traxxas message of another type name, with throttle and steering modulo 256 and brake channel 0 |
| TraxxasInputTransformer.BrakeIgnored | Vehicle.Traxxas/Middleware/TraxxasInputTransformer.cs:23 | the brake flag never reaches the channels |
| TraxxasInputTransformer.OnlyLowBytesMatter | Vehicle.Traxxas/Middleware/TraxxasInputTransformer.cs:21-22 | drive inputs agreeing modulo 256 on throttle and steering give the same message |
| Traxxas.Packet | Vehicle.Traxxas/Traxxas.cs:61-62 | the packet has 11 bytes: header 85, 0, 11, 0; then throttle, steering and brake channels; then three zeros; last byte the sum of the first ten modulo 256 |
| Traxxas.Checksum | Vehicle.Traxxas/Traxxas.cs:61 | computes the checksum byte, with no contract of its own; `Packet` states it is the sum of the first ten packet bytes modulo 256 |
| Traxxas.PacketInjective | Vehicle.Traxxas/Traxxas.cs:62 | two messages give the same packet exactly when they are equal |
| Traxxas.DrivePacket | Vehicle.Traxxas/Traxxas.cs:61-62 | for a drive input the channel bytes are throttle and steering modulo 256 and 0, and the checksum is (96 + both) modulo 256 |
| Traxxas.DriveReachesHandler | Vehicle.Traxxas/Traxxas.cs:33-34 | on a bus holding only the driver's registrations, a drive topic is delivered once, transformed, to the driver's handler |
| Traxxas.Connection.Send | Vehicle.Traxxas/Traxxas.cs:64 | a send appends exactly its payload to what the connection has sent |
| Traxxas.Traxxas.constructor | Vehicle.Traxxas/Traxxas.cs:27-35 | the driver registers one transformer on `DriveInputTopic` and one subscriber on `TraxxasInputMessage`, and no middleware |
| Traxxas.Traxxas.HandleInput | Vehicle.Traxxas/Traxxas.cs:59-65 | each call sends exactly one payload, the packet of its input |
| InputService.KeyState | Overkill.Core/InputService.cs:43 | a keyboard topic's state is `Pressed` exactly when `IsPressed` holds |
| InputService.BindKeyboard | Overkill.Core/InputService.cs:69-75 | an unconfigured name or undefined key fails with the configuration error first; a bound name fails as already bound; success adds the name to the defaults and to the bindings and changes nothing else |
| InputService.BindGamepad | Overkill.Core/InputService.cs:83-118 | the gamepad configuration is checked first, then duplicates within the kind's own dictionary; success adds the name to the shared defaults and to that kind only |
| InputService.KeyboardInputs | Overkill.Core/InputService.cs:123-126 | the keyboard inputs have exactly the keyboard bindings' names |
| InputService.GamepadInputs | Overkill.Core/InputService.cs:131-134 | the gamepad inputs have exactly the joystick bindings' names |
| InputService.EmitKeyboardEvent | Overkill.Core/InputService.cs:141-145 | an action is invoked exactly when the name has a keyboard binding, and it is that binding's action with the state |
| InputService.EmitGamepadJoystickEvent | Overkill.Core/InputService.cs:153-157 | an action is invoked exactly when the name has a joystick binding, and it is that binding's action with the pressed flag and both axes |
| InputService.EmitGamepadButtonEvent | Overkill.Core/InputService.cs:164-168 | an action is invoked exactly when the name has a button binding, and it is that binding's action with the state |
| InputService.EmitGamepadTriggerEvent | Overkill.Core/InputService.cs:175-179 | an action is invoked exactly when the name has a trigger binding, and it is that binding's action with the value |
| InputService.OnInputTopic | Overkill.Core/InputService.cs:37-60 | a drive or Traxxas topic invokes nothing; each input topic invokes an action exactly when its name is bound under the kind that topic serves |
| InputService.ConfigurationCheckedFirst | Overkill.Core/InputService.cs:71-72 | for an unconfigured name the outcome does not depend on what is already bound |
| InputService.BindPreservesConsistency | Overkill.Core/InputService.cs:69-118 | binding keeps the dictionaries in step: keyboard defaults match keyboard bindings, gamepad defaults are the union of three pairwise disjoint gamepad kinds |
| InputService.KeyboardBindSucceeds | Overkill.Core/InputService.cs:71-74 | with consistent dictionaries a keyboard bind succeeds exactly when the name is configured with a defined key and not yet bound |
| InputService.GamepadSharedDefaults | Overkill.Core/InputService.cs:85-88 | a configured name new to its kind fails at the shared defaults `Add` exactly when another gamepad kind already bound it |
| InputService.GamepadBindSucceeds | Overkill.Core/InputService.cs:85-88 | with consistent dictionaries a gamepad bind of any kind succeeds exactly when the name is configured with a defined input and no gamepad kind has bound it |
| InputService.KeyboardInputsAfterBind | Overkill.Core/InputService.cs:123-126 | a keyboard bind adds its name with its default to the keyboard inputs and leaves the gamepad inputs alone |
| InputService.GamepadInputsAfterBind | Overkill.Core/InputService.cs:131-134 | a joystick bind adds its name with its default to the gamepad inputs; trigger and button binds leave them unchanged; keyboard inputs are unchanged |
| InputService.EmitAfterKeyboardBind | Overkill.Core/InputService.cs:141-145 | after binding a name, its keyboard event invokes exactly the new action with the state; other names behave as before |
| InputService.UnboundIsIgnored | Overkill.Core/InputService.cs:141-179 | an input topic for a name bound by no kind invokes nothing |
| InputService.KeyboardTopicInvokes | Overkill.Core/InputService.cs:41-44 | a keyboard topic for a bound name invokes that action once, with `Pressed` when the key is down and `Released` otherwise |
| InputService.GamepadTopicsInvoke | Overkill.Core/InputService.cs:46-59 | joystick, button and trigger topics for a bound name invoke that name's action once with the topic's values |
| InputService.InputService.constructor | Overkill.Core/InputService.cs:29-60 | all six dictionaries start empty and the service subscribes once to each of the four input topics |
| InputService.InputService.Keyboard | Overkill.Core/InputService.cs:69-75 | on error returns it and changes no dictionary; on success the dictionaries are the `BindKeyboard` step; consistency is preserved |
| InputService.InputService.GamepadJoystick | Overkill.Core/InputService.cs:83-89 | as `BindGamepad` for the joystick kind, with no change on error |
| InputService.InputService.GamepadTrigger | Overkill.Core/InputService.cs:98-104 | as `BindGamepad` for the trigger kind, with no change on error |
| InputService.InputService.GamepadButton | Overkill.Core/InputService.cs:112-118 | as `BindGamepad` for the button kind, with no change on error |
| InputService.InputService.CheckGamepad | Overkill.Core/InputService.cs:85-87 | no error exactly when the `BindGamepad` step of that kind succeeds, and otherwise the error that step fails with |
| InputService.InputService.GetKeyboardInputs | Overkill.Core/InputService.cs:123-126 | each keyboard binding's name mapped to its default key code |
| InputService.InputService.GetGamepadInputs | Overkill.Core/InputService.cs:131-134 | each joystick binding's name mapped to its default |
| InputService.InputService.OnTopic | Overkill.Core/InputService.cs:41-59 | a delivered input topic invokes what the constructor's subscription would |
| ModemPositioning.Segment | Overkill.Core/QuectelModemPositioningService.cs:90 | the examined text starts right after the first `$GPRMC`, holds no further tag, and ends at the next tag or at the end |
| ModemPositioning.Fields | Overkill.Core/QuectelModemPositioningService.cs:91 | the fields hold no comma and joined with commas give back the segment |
| ModemPositioning.ParseModemData | Overkill.Core/QuectelModemPositioningService.cs:86-105 | no tag gives failure; success exactly when there are at least six fields with fields 3 and 5 non-empty, and then latitude is field 3 and longitude field 5 |
| ModemPositioning.SegmentBeforeNextTag | Overkill.Core/QuectelModemPositioningService.cs:90 | when neither the text before the first tag nor the segment contains the tag, the examined segment stops at the second tag |
| ModemPositioning.SegmentToEnd | Overkill.Core/QuectelModemPositioningService.cs:90 | when neither the text before the first tag nor the segment contains the tag, the examined segment runs to the end |
| ModemPositioning.SegmentOf | Overkill.Core/QuectelModemPositioningService.cs:90 | the two cases above, for a report with or without a following sentence |
| ModemPositioning.FieldsOf | Overkill.Core/QuectelModemPositioningService.cs:90-91 | the fields of a report are exactly the comma-free, tag-free fields its first sentence was joined from |
| ModemPositioning.ParsesAssembledSentence | Overkill.Core/QuectelModemPositioningService.cs:86-105 | a sentence assembled from at least six comma-free fields without the tag, with fields 3 and 5 non-empty, parses back to exactly fields 3 and 5, whatever sentences without the tag precede it and whatever follows it |
| ModemPositioning.LaterSentencesIgnored | Overkill.Core/QuectelModemPositioningService.cs:90 | what follows the second tag never changes the result |
| ModemPositioning.TooFewFieldsRejected | Overkill.Core/QuectelModemPositioningService.cs:94 | a sentence of fewer than six fields is rejected, with or without a following sentence |
| ModemPositioning.EmptyCoordinateRejected | Overkill.Core/QuectelModemPositioningService.cs:95 | a sentence with an empty field 3 or 5 is rejected, with or without a following sentence |
| Networking.NameOf | Overkill.Services/Services/NetworkingService.cs:59 | a line's name is the text right after its first `SSID:`, up to the next `SSID:` or the end of the line |
| Networking.Candidates | Overkill.Services/Services/NetworkingService.cs:57-60 | a name is a candidate exactly when some line contains `SSID:` and yields that name, shorter than 20 characters |
| Networking.DistinctFrom | Overkill.Services/Services/NetworkingService.cs:61 | the result has no duplicates and holds exactly the input's elements not already seen |
| Networking.Distinct | Overkill.Services/Services/NetworkingService.cs:61 | the result has no duplicates and the same elements as the input |
| Networking.DistinctFromSnoc | Overkill.Services/Services/NetworkingService.cs:61 | one more element at the end of the input appears at the end of the result exactly when it is new |
| Networking.DistinctKeepsFirstOccurrences | Overkill.Services/Services/NetworkingService.cs:61 | `Distinct` equals an independent definition that keeps each element's first occurrence in order |
| Networking.NetworkNames | Overkill.Services/Services/NetworkingService.cs:57-61 | each name some line yields, shorter than 20 characters, exactly once |
| Networking.NearbyNetworks | Overkill.Services/Services/NetworkingService.cs:48-65 | a non-zero exit code fails with the fixed message followed by the error output; otherwise the names of the output's lines |
| Networking.NamesInScanOrder | Overkill.Services/Services/NetworkingService.cs:57-61 | the names come out in the order of the first line yielding each |
| Networking.LongNamesDropped | Overkill.Services/Services/NetworkingService.cs:60 | a line whose name has 20 or more characters contributes nothing |
| Networking.UnmarkedLinesIgnored | Overkill.Services/Services/NetworkingService.cs:58 | a line without `SSID:` contributes nothing |
| Websockets.MessageKey | Overkill.Websockets/WebsocketService.cs:190 | a message class's key is the lower-cased name cut at its first `message`: a prefix of it with no `message` inside |
| Websockets.HandlerKey | Overkill.Websockets/WebsocketService.cs:161 | a handler class's key is the lower-cased name cut at its first `messagehandler` |
| Websockets.AddMessages | Overkill.Websockets/WebsocketService.cs:177-199 | registration never overwrites or removes an entry, and a failure names a key that is already in the cache |
| Websockets.AddHandlers | Overkill.Websockets/WebsocketService.cs:147-170 | handler registration never overwrites or removes an entry, and a failure names a key that is already in the cache |
| Websockets.AddMessagesKeepsKeysDerived | Overkill.Websockets/WebsocketService.cs:188-195 | registration stores every message class under its own key |
| Websockets.AddMessagesFailsOnCollision | Overkill.Websockets/WebsocketService.cs:188-195 | registration fails exactly when two message classes, or a new and an already registered one, derive the same key |
| Websockets.AddMessagesContents | Overkill.Websockets/WebsocketService.cs:188-195 | a successful registration keeps the old entries, adds every message class under its key and nothing else |
| Websockets.AddHandlersFailsOnCollision | Overkill.Websockets/WebsocketService.cs:159-166 | handler registration fails exactly when two handler classes, or a new and an already registered one, derive the same key |
| Websockets.AddHandlersContents | Overkill.Websockets/WebsocketService.cs:159-166 | a successful handler registration keeps the old entries, adds every handler class under its key and nothing else |
| Websockets.AddHandlersKeys | Overkill.Websockets/WebsocketService.cs:159-166 | a successful handler registration keeps the old entries and adds exactly the keys of the handler classes |
| Websockets.AddHandlersValues | Overkill.Websockets/WebsocketService.cs:161-163 | a successful handler registration stores each handler class's instance under that class's key |
| Websockets.HandlerCollision | Overkill.Websockets/WebsocketService.cs:159-166 | of two handler classes with the same key the first is registered and the second fails at `Add` |
| Websockets.KeyOfClassIsUnique | Overkill.Websockets/WebsocketService.cs:210 | with keys derived from classes, a class is stored under one key only, so the reverse lookup is determined |
| Websockets.Outgoing | Overkill.Websockets/WebsocketService.cs:206-214 | an unregistered class sends nothing; a registered message that already has `type` fails; a registered message without `type` sends exactly one object, with the message's properties and `type` set to the key that looks up its class |
| Websockets.Incoming | Overkill.Websockets/WebsocketService.cs:118-140 | no `type` fails; an unknown type fails at the lookup; a known type without handler sends nothing; a null handler response sends nothing; a non-null response is sent as `Outgoing` sends it |
| Websockets.SentTypeRoutesBack | Overkill.Websockets/WebsocketService.cs:210-213 | a sent object's `type` is its class's key, and looking it up gives back the class |
| Websockets.NullResponseSendsNothing | Overkill.Websockets/WebsocketService.cs:138-139 | a handler returning a null task sends nothing |
| Websockets.MessageClassKey | Overkill.Websockets/WebsocketService.cs:183-190 | `<base>Message`, for a base without `message`, passes the filter and is keyed by the lower-cased base |
| Websockets.HandlerClassKey | Overkill.Websockets/WebsocketService.cs:153-161 | `<base>MessageHandler`, for a base without `message`, passes the filter and is keyed by the lower-cased base |
| Websockets.MessageAndHandlerShareKey | Overkill.Websockets/WebsocketService.cs:153-190 | a message class and its handler class, named by the convention, meet under the same key |
| Websockets.DriveRoutes | Overkill.Websockets/WebsocketService.cs:153-190 | `DriveMessage` and `DriveMessageHandler` meet under the key `drive` |
| Websockets.CaseCollision | Overkill.Websockets/WebsocketService.cs:190-192 | `PingMessage` and `PINGMessage` derive the same key, so registering both fails at the second |
| Websockets.WebsocketService.constructor | Overkill.Websockets/WebsocketService.cs:35-51 | both caches start empty and nothing has been sent |
| Websockets.WebsocketService.RegisterMessages | Overkill.Websockets/WebsocketService.cs:177-199 | the loop fills the type cache as `AddMessages` does and stops at the first repeated key, keeping what it added |
| Websockets.WebsocketService.RegisterMessageHandlers | Overkill.Websockets/WebsocketService.cs:147-170 | the loop fills the handler cache as `AddHandlers` does and stops at the first repeated key |
| Websockets.WebsocketService.SendMessage | Overkill.Websockets/WebsocketService.cs:206-214 | the socket receives exactly what `Outgoing` says, looking the key up by class; the caches are unchanged |
| Websockets.WebsocketService.Handle | Overkill.Websockets/WebsocketService.cs:118-140 | the socket receives exactly what `Incoming` says; the caches are unchanged |

## Left out

- Reflection discovery. `DiscoverTopics` (PubSubService.cs:33-46) and the assembly scans of `RegisterMessages`/`RegisterMessageHandlers` are not modelled. The discovered classes are an explicit input list. The interface, abstract and generic filters of the scans are assumed to have been applied already; the naming filters are modelled.
- The registration casts. `Func<T,T>` is cast through `object` (PubSubService.cs:124,142), and the interface and driver take `Type` handles. Stored units are already-typed functions over the topic type.
- Runtime type identity. The bus compares and keys by a type-name function. Two distinct classes sharing a name are not distinguished; in the source the middleware guard compares `Type`s, so it would distinguish them.
- Exceptions thrown by middleware, transformers or subscribers. Units are total functions, so the partially-delivered trace of a failing unit, and the exceptions such a unit raises, are not modelled. The same holds for a transformer that returns `null`. Its variant makes `Dispatch` throw at `topic.GetType()` (PubSubService.cs:54), which aborts the remaining variants and the original's subscribers. A `TransformerUnit` always returns a topic.
- PubSub.PubSubService.Dispatch: a stack overflow is modelled by the `depth` bound, and its outcome `DepthExceeded` is reported as a value, not as a crash.
- Subscriber side effects. A subscriber is an id, and a delivery records the call.
- Bound actions of `InputService`. Actions are ids, and an invocation is returned as a value instead of being called.
- Enum values in `InputService`. The `KeyboardKey` and `GamepadInput` enumerations are not part of this model. The configured values are integers, and the defined values are sets given with the configuration.
- Floating point. `ParseGPSCoordinate` and the float conversions in `ParseModemData` are not modelled; the result keeps the raw field text. Gamepad axis and trigger values are carried as `real` without arithmetic.
- `ProcessUpdates` and the serial read loop of the modem service. These are I/O.
- The process call of `GetNearbyNetworks`. The exit code and both output streams are inputs. `GetLocalInterfaceAddress` is I/O. `Environment.NewLine` is fixed to `"\n"`, the Linux value.
- Strings.EndsWith: compares character by character. .NET's `EndsWith(string)` compares by the current culture. Results that depend on the culture are not modelled: ignorable characters, `"\r\n"` compared as one unit, contractions. The core applies it only to lower-cased class names and the suffixes `message` and `messagehandler`.
- Strings.ToLower: uses the invariant ASCII mapping, `A`–`Z` to `a`–`z`, and leaves every other character unchanged. .NET's `ToLower()` uses the current culture. Results that depend on the culture are not modelled, for the core's ASCII class names too: under a Turkish or Azerbaijani culture `I` lowers to `ı`, so `KeyboardInputMessage` would get a key other than `keyboardinput`.
- Websocket transport and JSON text. Connecting, reconnecting, the socket and `JObject.Parse` are not modelled. An incoming message is an already parsed object, and a sent message is an object, not its text.
- JSON values. These are strings, and nested objects or other value kinds are not modelled.
- `ToObject` deserialisation. A routed message carries the whole incoming object as its properties. The class-specific property mapping is not modelled.
- Websockets.Handler: `None` stands only for a null task. A non-null task that resolves to `null` would pass `null` to `SendMessage`. That throws at `message.GetType()` (WebsocketService.cs:208) when the type cache is not empty, and the model does not represent it. The handlers of the repository all return a null task.
- The message handler classes. Each copies fields into one bus dispatch. A handler is a function from message to optional response.
- The `PluginWebsocketMessageTopic` subscription of the websocket constructor (WebsocketService.cs:44-50). It sends a `CustomMessage`, and `CustomMessage` is not part of this model.
- Async and concurrency. Tasks are awaited to their values, and registration and dispatch are sequential.
- Boot, Program, FFmpeg, logging, the proxies and the Lidar plugin. These are wiring, I/O and floating point.
