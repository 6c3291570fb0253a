/**
 * The message routing of the websocket client (Overkill.Websockets/WebsocketService.cs):
 * two caches keyed by a name derived from class names, one of message classes and one of
 * message handlers; `Handle` routes an incoming JSON object through them, and `SendMessage`
 * tags an outgoing message with its registered key.
 *
 * A JSON object is a map from property names to (string) values. A message is its runtime
 * class name with its serialised properties. The classes that reflection would discover are
 * an explicit input, and the socket is the sequence of objects sent on it.
 */
module Websockets {
  import opened Wrappers
  import opened Strings

  type JsonObject = map<string, string>

  /** An `IWebsocketMessage` instance: its runtime class name and its serialised properties. */
  datatype Message = Message(className: string, fields: JsonObject)

  /** `IWebsocketMessageHandler.Handle`: `None` for a null task, otherwise the awaited response. */
  type Handler = Message -> Option<Message>

  /** A handler instance with the name of its class. */
  datatype HandlerClass = HandlerClass(className: string, handler: Handler)

  /** The exceptions routing can throw. */
  datatype WebsocketError =
    | MissingType                  // ArgumentNullException: the object has no "type"
    | UnknownType(key: string)     // KeyNotFoundException from the type cache indexer
    | DuplicateKey(key: string)    // ArgumentException from Dictionary.Add
    | DuplicateProperty(name: string) // ArgumentException from JObject.Add

  const MessageSuffix: string := "message"
  const HandlerSuffix: string := "messagehandler"
  const TypeProperty: string := "type"

  /** The naming conventions of the discovery filters (WebsocketService.cs:153 and 183). */
  predicate IsMessageClass(className: string) {
    EndsWith(ToLower(className), MessageSuffix)
  }

  predicate IsHandlerClass(className: string) {
    EndsWith(ToLower(className), HandlerSuffix)
  }

  /** A message class's key (WebsocketService.cs:190): its lower-cased name cut at the first `message`. */
  function MessageKey(className: string): (k: string)
    ensures !Contains(k, MessageSuffix) && k <= ToLower(className)
    ensures |k| == |className| || OccursAt(ToLower(className), MessageSuffix, |k|)
  {
    FirstPiece(ToLower(className), MessageSuffix);
    Split(ToLower(className), MessageSuffix)[0]
  }

  /** A handler class's key (WebsocketService.cs:161): its lower-cased name cut at the first `messagehandler`. */
  function HandlerKey(className: string): (k: string)
    ensures !Contains(k, HandlerSuffix) && k <= ToLower(className)
    ensures |k| == |className| || OccursAt(ToLower(className), HandlerSuffix, |k|)
  {
    FirstPiece(ToLower(className), HandlerSuffix);
    Split(ToLower(className), HandlerSuffix)[0]
  }

  /**
   * `RegisterMessages` (WebsocketService.cs:177-199) on the class names `types`: each message
   * class is added in order under its key; a key already present stops the registration with
   * the error and the cache as filled so far.
   */
  function AddMessages(cache: map<string, string>, types: seq<string>): (r: (map<string, string>, Option<WebsocketError>))
    ensures forall key :: key in cache ==> key in r.0 && r.0[key] == cache[key]
    ensures r.1.Some? ==> r.1.value.DuplicateKey? && r.1.value.key in r.0
    decreases |types|
  {
    if types == [] then (cache, None)
    else if !IsMessageClass(types[0]) then AddMessages(cache, types[1..])
    else
      var key := MessageKey(types[0]);
      if key in cache then (cache, Some(DuplicateKey(key)))
      else AddMessages(cache[key := types[0]], types[1..])
  }

  /** `RegisterMessageHandlers` (WebsocketService.cs:147-170) on the handler instances `handlers`. */
  function AddHandlers(cache: map<string, Handler>, handlers: seq<HandlerClass>): (r: (map<string, Handler>, Option<WebsocketError>))
    ensures forall key :: key in cache ==> key in r.0 && r.0[key] == cache[key]
    ensures r.1.Some? ==> r.1.value.DuplicateKey? && r.1.value.key in r.0
    decreases |handlers|
  {
    if handlers == [] then (cache, None)
    else if !IsHandlerClass(handlers[0].className) then AddHandlers(cache, handlers[1..])
    else
      var key := HandlerKey(handlers[0].className);
      if key in cache then (cache, Some(DuplicateKey(key)))
      else AddHandlers(cache[key := handlers[0].handler], handlers[1..])
  }

  /** Every entry of the type cache is stored under its class's key. */
  predicate KeysDerived(cache: map<string, string>) {
    forall key :: key in cache ==> MessageKey(cache[key]) == key
  }

  /** The message classes of `types` have keys that are new to `cache` and pairwise distinct. */
  predicate FreshKeys(cache: map<string, string>, types: seq<string>) {
    && (forall i :: 0 <= i < |types| && IsMessageClass(types[i]) ==> MessageKey(types[i]) !in cache)
    && (forall i, j :: 0 <= i < j < |types| && IsMessageClass(types[i]) && IsMessageClass(types[j]) ==>
          MessageKey(types[i]) != MessageKey(types[j]))
  }

  /** Registration keeps every entry under its class's key. */
  lemma {:induction false} AddMessagesKeepsKeysDerived(cache: map<string, string>, types: seq<string>)
    requires KeysDerived(cache)
    ensures KeysDerived(AddMessages(cache, types).0)
    decreases |types|
  {
    if types != [] {
      if !IsMessageClass(types[0]) {
        AddMessagesKeepsKeysDerived(cache, types[1..]);
      } else if MessageKey(types[0]) !in cache {
        AddMessagesKeepsKeysDerived(cache[MessageKey(types[0]) := types[0]], types[1..]);
      }
    }
  }

  /**
   * Registration fails exactly when two message classes, or a message class and one already
   * registered, derive the same key.
   */
  lemma {:induction false} AddMessagesFailsOnCollision(cache: map<string, string>, types: seq<string>)
    ensures AddMessages(cache, types).1.None? <==> FreshKeys(cache, types)
    decreases |types|
  {
    if types != [] {
      if !IsMessageClass(types[0]) {
        AddMessagesFailsOnCollision(cache, types[1..]);
        FreshKeysTail(cache, types);
      } else if MessageKey(types[0]) !in cache {
        AddMessagesFailsOnCollision(cache[MessageKey(types[0]) := types[0]], types[1..]);
        FreshKeysCons(cache, types);
      }
    }
  }

  /** The keys `types` adds to a cache: those of its message classes. */
  ghost predicate AddedKey(types: seq<string>, key: string) {
    exists i :: 0 <= i < |types| && IsMessageClass(types[i]) && MessageKey(types[i]) == key
  }

  /**
   * A registration that succeeds registers every message class under its key, keeps what
   * was there, and adds nothing else.
   */
  lemma {:induction false} AddMessagesContents(cache: map<string, string>, types: seq<string>)
    requires AddMessages(cache, types).1.None?
    ensures var result := AddMessages(cache, types).0;
      && (forall key :: key in result <==> key in cache || AddedKey(types, key))
      && (forall key :: key in cache ==> result[key] == cache[key])
      && (forall i :: 0 <= i < |types| && IsMessageClass(types[i]) ==> result[MessageKey(types[i])] == types[i])
    decreases |types|
  {
    if types != [] {
      var tail := types[1..];
      AddedKeyCons(types);
      if !IsMessageClass(types[0]) {
        AddMessagesContents(cache, tail);
      } else {
        AddMessagesContents(cache[MessageKey(types[0]) := types[0]], tail);
        AddMessagesFailsOnCollision(cache[MessageKey(types[0]) := types[0]], tail);
        var result := AddMessages(cache, types).0;
        assert result == AddMessages(cache[MessageKey(types[0]) := types[0]], tail).0;
        forall i | 0 <= i < |types| && IsMessageClass(types[i]) ensures result[MessageKey(types[i])] == types[i] {
          if i > 0 {
            assert types[i] == tail[i - 1];
          }
        }
      }
    }
  }

  /** The keys added by a sequence are those of its head, if a message class, and of its tail. */
  lemma AddedKeyCons(types: seq<string>)
    requires |types| > 0
    ensures forall key :: AddedKey(types, key) <==>
      (IsMessageClass(types[0]) && MessageKey(types[0]) == key) || AddedKey(types[1..], key)
  {
    assert forall i :: 1 <= i < |types| ==> types[i] == types[1..][i - 1];
    forall key | AddedKey(types[1..], key) ensures AddedKey(types, key) {
      var i :| 0 <= i < |types[1..]| && IsMessageClass(types[1..][i]) && MessageKey(types[1..][i]) == key;
      assert types[i + 1] == types[1..][i];
    }
  }

  /** `FreshKeys` past a class that is not a message class. */
  lemma FreshKeysTail(cache: map<string, string>, types: seq<string>)
    requires |types| > 0 && !IsMessageClass(types[0])
    ensures FreshKeys(cache, types) <==> FreshKeys(cache, types[1..])
  {
    assert forall i :: 1 <= i < |types| ==> types[i] == types[1..][i - 1];
    if FreshKeys(cache, types[1..]) {
      forall i, j | 0 <= i < j < |types| && IsMessageClass(types[i]) && IsMessageClass(types[j])
        ensures MessageKey(types[i]) != MessageKey(types[j])
      {
        assert types[i] == types[1..][i - 1] && types[j] == types[1..][j - 1];
      }
    }
  }

  /** `FreshKeys` past a message class with a new key. */
  lemma FreshKeysCons(cache: map<string, string>, types: seq<string>)
    requires |types| > 0 && IsMessageClass(types[0]) && MessageKey(types[0]) !in cache
    ensures FreshKeys(cache, types) <==> FreshKeys(cache[MessageKey(types[0]) := types[0]], types[1..])
  {
    var cache' := cache[MessageKey(types[0]) := types[0]];
    var tail := types[1..];
    assert forall i :: 1 <= i < |types| ==> types[i] == tail[i - 1];
    if FreshKeys(cache', tail) {
      forall i, j | 0 <= i < j < |types| && IsMessageClass(types[i]) && IsMessageClass(types[j])
        ensures MessageKey(types[i]) != MessageKey(types[j])
      {
        assert types[j] == tail[j - 1];
        assert MessageKey(tail[j - 1]) !in cache';
        if i > 0 {
          assert types[i] == tail[i - 1];
        }
      }
    }
    if FreshKeys(cache, types) {
      forall i | 0 <= i < |tail| && IsMessageClass(tail[i]) ensures MessageKey(tail[i]) !in cache' {
        assert tail[i] == types[i + 1];
      }
      forall i, j | 0 <= i < j < |tail| && IsMessageClass(tail[i]) && IsMessageClass(tail[j])
        ensures MessageKey(tail[i]) != MessageKey(tail[j])
      {
        assert tail[i] == types[i + 1] && tail[j] == types[j + 1];
      }
    }
  }

  /** Two handler classes that derive the same key: the first is registered, the second fails. */
  lemma HandlerCollision(first: HandlerClass, second: HandlerClass)
    requires IsHandlerClass(first.className) && IsHandlerClass(second.className)
    requires HandlerKey(first.className) == HandlerKey(second.className)
    ensures AddHandlers(map[], [first, second]) ==
      (map[HandlerKey(first.className) := first.handler], Some(DuplicateKey(HandlerKey(first.className))))
  {
    assert [first, second][1..] == [second];
  }

  /** The handler classes of `handlers` have keys that are new to `cache` and pairwise distinct. */
  predicate FreshHandlerKeys(cache: map<string, Handler>, handlers: seq<HandlerClass>) {
    && (forall i :: 0 <= i < |handlers| && IsHandlerClass(handlers[i].className) ==> HandlerKey(handlers[i].className) !in cache)
    && (forall i, j :: 0 <= i < j < |handlers| && IsHandlerClass(handlers[i].className) && IsHandlerClass(handlers[j].className) ==>
          HandlerKey(handlers[i].className) != HandlerKey(handlers[j].className))
  }

  /**
   * Handler registration fails exactly when two handler classes, or a handler class and one
   * already registered, derive the same key.
   */
  lemma {:induction false} AddHandlersFailsOnCollision(cache: map<string, Handler>, handlers: seq<HandlerClass>)
    ensures AddHandlers(cache, handlers).1.None? <==> FreshHandlerKeys(cache, handlers)
    decreases |handlers|
  {
    if handlers != [] {
      if !IsHandlerClass(handlers[0].className) {
        AddHandlersFailsOnCollision(cache, handlers[1..]);
        FreshHandlerKeysTail(cache, handlers);
      } else if HandlerKey(handlers[0].className) !in cache {
        AddHandlersFailsOnCollision(cache[HandlerKey(handlers[0].className) := handlers[0].handler], handlers[1..]);
        FreshHandlerKeysCons(cache, handlers);
      }
    }
  }

  /** The keys `handlers` adds to a cache: those of its handler classes. */
  ghost predicate AddedHandlerKey(handlers: seq<HandlerClass>, key: string) {
    exists i :: 0 <= i < |handlers| && IsHandlerClass(handlers[i].className) && HandlerKey(handlers[i].className) == key
  }

  /**
   * A handler registration that succeeds registers every handler class under its key, keeps
   * what was there, and adds nothing else.
   */
  lemma AddHandlersContents(cache: map<string, Handler>, handlers: seq<HandlerClass>)
    requires AddHandlers(cache, handlers).1.None?
    ensures var result := AddHandlers(cache, handlers).0;
      && (forall key :: key in result <==> key in cache || AddedHandlerKey(handlers, key))
      && (forall key :: key in cache ==> result[key] == cache[key])
      && (forall i :: 0 <= i < |handlers| && IsHandlerClass(handlers[i].className) ==>
            result[HandlerKey(handlers[i].className)] == handlers[i].handler)
  {
    AddHandlersKeys(cache, handlers);
    AddHandlersValues(cache, handlers);
  }

  /** A successful handler registration keeps the old entries and adds exactly the handler classes' keys. */
  lemma {:induction false} AddHandlersKeys(cache: map<string, Handler>, handlers: seq<HandlerClass>)
    requires AddHandlers(cache, handlers).1.None?
    ensures var result := AddHandlers(cache, handlers).0;
      && (forall key :: key in result <==> key in cache || AddedHandlerKey(handlers, key))
      && (forall key :: key in cache ==> result[key] == cache[key])
    decreases |handlers|
  {
    if handlers != [] {
      AddedHandlerKeyCons(handlers);
      if !IsHandlerClass(handlers[0].className) {
        AddHandlersKeys(cache, handlers[1..]);
      } else {
        AddHandlersKeys(cache[HandlerKey(handlers[0].className) := handlers[0].handler], handlers[1..]);
      }
    }
  }

  /** A successful handler registration stores each handler class under its key. */
  lemma {:induction false} AddHandlersValues(cache: map<string, Handler>, handlers: seq<HandlerClass>)
    requires AddHandlers(cache, handlers).1.None?
    ensures var result := AddHandlers(cache, handlers).0;
      forall i :: 0 <= i < |handlers| && IsHandlerClass(handlers[i].className) ==>
        HandlerKey(handlers[i].className) in result && result[HandlerKey(handlers[i].className)] == handlers[i].handler
    decreases |handlers|
  {
    if handlers != [] {
      var tail := handlers[1..];
      var cache' := if IsHandlerClass(handlers[0].className)
        then cache[HandlerKey(handlers[0].className) := handlers[0].handler] else cache;
      var result := AddHandlers(cache', tail).0;
      AddHandlersValues(cache', tail);
      forall i | 1 <= i < |handlers| && IsHandlerClass(handlers[i].className)
        ensures HandlerKey(handlers[i].className) in result && result[HandlerKey(handlers[i].className)] == handlers[i].handler
      {
        assert handlers[i] == tail[i - 1];
      }
      if IsHandlerClass(handlers[0].className) {
        AddHandlersKeys(cache', tail);
        AddHandlersContentsStep(cache, handlers, result);
      }
    }
  }

  /** The step of `AddHandlersValues` past a registered handler class: the head's entry survives. */
  lemma AddHandlersContentsStep(cache: map<string, Handler>, handlers: seq<HandlerClass>, result: map<string, Handler>)
    requires |handlers| > 0 && IsHandlerClass(handlers[0].className)
    requires result == AddHandlers(cache[HandlerKey(handlers[0].className) := handlers[0].handler], handlers[1..]).0
    requires forall key :: key in cache[HandlerKey(handlers[0].className) := handlers[0].handler] ==>
      key in result && result[key] == cache[HandlerKey(handlers[0].className) := handlers[0].handler][key]
    requires forall i :: 1 <= i < |handlers| && IsHandlerClass(handlers[i].className) ==>
      HandlerKey(handlers[i].className) in result && result[HandlerKey(handlers[i].className)] == handlers[i].handler
    ensures forall i :: 0 <= i < |handlers| && IsHandlerClass(handlers[i].className) ==>
      HandlerKey(handlers[i].className) in result && result[HandlerKey(handlers[i].className)] == handlers[i].handler
  {
  }

  /** The keys added by a sequence of handlers are those of its head, if a handler class, and of its tail. */
  lemma AddedHandlerKeyCons(handlers: seq<HandlerClass>)
    requires |handlers| > 0
    ensures forall key :: AddedHandlerKey(handlers, key) <==>
      (IsHandlerClass(handlers[0].className) && HandlerKey(handlers[0].className) == key) || AddedHandlerKey(handlers[1..], key)
  {
    assert forall i :: 1 <= i < |handlers| ==> handlers[i] == handlers[1..][i - 1];
    forall key | AddedHandlerKey(handlers[1..], key) ensures AddedHandlerKey(handlers, key) {
      var i :| 0 <= i < |handlers[1..]| && IsHandlerClass(handlers[1..][i].className) && HandlerKey(handlers[1..][i].className) == key;
      assert handlers[i + 1] == handlers[1..][i];
    }
  }

  /** `FreshHandlerKeys` past a class that is not a handler class. */
  lemma FreshHandlerKeysTail(cache: map<string, Handler>, handlers: seq<HandlerClass>)
    requires |handlers| > 0 && !IsHandlerClass(handlers[0].className)
    ensures FreshHandlerKeys(cache, handlers) <==> FreshHandlerKeys(cache, handlers[1..])
  {
    var tail := handlers[1..];
    assert forall i :: 1 <= i < |handlers| ==> handlers[i] == tail[i - 1];
    if FreshHandlerKeys(cache, tail) {
      forall i, j | 0 <= i < j < |handlers| && IsHandlerClass(handlers[i].className) && IsHandlerClass(handlers[j].className)
        ensures HandlerKey(handlers[i].className) != HandlerKey(handlers[j].className)
      {
        assert handlers[i] == tail[i - 1] && handlers[j] == tail[j - 1];
      }
    }
    if FreshHandlerKeys(cache, handlers) {
      forall i | 0 <= i < |tail| && IsHandlerClass(tail[i].className) ensures HandlerKey(tail[i].className) !in cache {
        assert tail[i] == handlers[i + 1];
      }
      forall i, j | 0 <= i < j < |tail| && IsHandlerClass(tail[i].className) && IsHandlerClass(tail[j].className)
        ensures HandlerKey(tail[i].className) != HandlerKey(tail[j].className)
      {
        assert tail[i] == handlers[i + 1] && tail[j] == handlers[j + 1];
      }
    }
  }

  /** `FreshHandlerKeys` past a handler class with a new key. */
  lemma FreshHandlerKeysCons(cache: map<string, Handler>, handlers: seq<HandlerClass>)
    requires |handlers| > 0 && IsHandlerClass(handlers[0].className) && HandlerKey(handlers[0].className) !in cache
    ensures FreshHandlerKeys(cache, handlers) <==>
      FreshHandlerKeys(cache[HandlerKey(handlers[0].className) := handlers[0].handler], handlers[1..])
  {
    var cache' := cache[HandlerKey(handlers[0].className) := handlers[0].handler];
    var tail := handlers[1..];
    assert forall i :: 1 <= i < |handlers| ==> handlers[i] == tail[i - 1];
    if FreshHandlerKeys(cache', tail) {
      forall i, j | 0 <= i < j < |handlers| && IsHandlerClass(handlers[i].className) && IsHandlerClass(handlers[j].className)
        ensures HandlerKey(handlers[i].className) != HandlerKey(handlers[j].className)
      {
        assert handlers[j] == tail[j - 1];
        assert HandlerKey(tail[j - 1].className) !in cache';
        if i > 0 {
          assert handlers[i] == tail[i - 1];
        }
      }
    }
    if FreshHandlerKeys(cache, handlers) {
      forall i | 0 <= i < |tail| && IsHandlerClass(tail[i].className) ensures HandlerKey(tail[i].className) !in cache' {
        assert tail[i] == handlers[i + 1];
      }
      forall i, j | 0 <= i < j < |tail| && IsHandlerClass(tail[i].className) && IsHandlerClass(tail[j].className)
        ensures HandlerKey(tail[i].className) != HandlerKey(tail[j].className)
      {
        assert tail[i] == handlers[i + 1] && tail[j] == handlers[j + 1];
      }
    }
  }

  /** With keys derived from classes, distinct keys hold distinct classes, so a class has at most one key. */
  lemma KeyOfClassIsUnique(cache: map<string, string>, k1: string, k2: string)
    requires KeysDerived(cache) && k1 in cache && k2 in cache && cache[k1] == cache[k2]
    ensures k1 == k2
  {
  }

  /**
   * What `SendMessage` (WebsocketService.cs:206-214) puts on the socket: nothing for an
   * unregistered class, otherwise the message's properties tagged with its key; a message
   * that already has a `type` property fails at `JObject.Add`.
   */
  function Outgoing(cache: map<string, string>, m: Message): (r: Result<seq<JsonObject>, WebsocketError>)
    requires KeysDerived(cache)
    ensures m.className !in cache.Values ==> r == Success([])
    ensures m.className in cache.Values && TypeProperty in m.fields ==> r == Failure(DuplicateProperty(TypeProperty))
    ensures m.className in cache.Values && TypeProperty !in m.fields ==> r.Success? && |r.value| == 1
    ensures r.Success? && r.value != [] ==>
      && |r.value| == 1
      && r.value[0].Keys == m.fields.Keys + {TypeProperty}
      && (forall f :: f in m.fields ==> r.value[0][f] == m.fields[f])
      && r.value[0][TypeProperty] in cache && cache[r.value[0][TypeProperty]] == m.className
  {
    if m.className !in cache.Values then Success([])
    else if TypeProperty in m.fields then Failure(DuplicateProperty(TypeProperty))
    else
      var key := MessageKey(m.className);
      assert exists k :: k in cache && cache[k] == m.className;
      Success([m.fields[TypeProperty := key]])
  }

  /**
   * What `Handle` (WebsocketService.cs:118-140) puts on the socket for an incoming object:
   * the `type` is looked up in the type cache, then in the handler cache; the handler's
   * response, if any, goes out through `Outgoing`.
   */
  function Incoming(types: map<string, string>, handlers: map<string, Handler>, json: JsonObject)
    : (r: Result<seq<JsonObject>, WebsocketError>)
    requires KeysDerived(types)
    ensures TypeProperty !in json ==> r == Failure(MissingType)
    ensures TypeProperty in json && json[TypeProperty] !in types ==> r == Failure(UnknownType(json[TypeProperty]))
    ensures TypeProperty in json && json[TypeProperty] in types && json[TypeProperty] !in handlers ==> r == Success([])
    ensures TypeProperty in json && json[TypeProperty] in types && json[TypeProperty] in handlers ==>
      var response := handlers[json[TypeProperty]](Message(types[json[TypeProperty]], json));
      && (response.None? ==> r == Success([]))
      && (response.Some? ==> r == Outgoing(types, response.value))
    ensures r.Success? && r.value != [] ==>
      var key := json[TypeProperty];
      && key in types && key in handlers
      && handlers[key](Message(types[key], json)).Some?
      && r == Outgoing(types, handlers[key](Message(types[key], json)).value)
  {
    if TypeProperty !in json then Failure(MissingType)
    else
      var key := json[TypeProperty];
      if key !in types then Failure(UnknownType(key))
      else if key !in handlers then Success([])
      else
        match handlers[key](Message(types[key], json))
        case None => Success([])
        case Some(response) => Outgoing(types, response)
  }

  /** A sent object routes back: its `type` looks up the class of the message it came from. */
  lemma SentTypeRoutesBack(cache: map<string, string>, m: Message)
    requires KeysDerived(cache) && Outgoing(cache, m).Success? && Outgoing(cache, m).value != []
    ensures var sent := Outgoing(cache, m).value[0];
      sent[TypeProperty] == MessageKey(m.className) && cache[MessageKey(m.className)] == m.className
  {
  }

  /** The handler's response decides what is sent: a null task sends nothing. */
  lemma NullResponseSendsNothing(types: map<string, string>, handlers: map<string, Handler>, json: JsonObject)
    requires KeysDerived(types)
    requires TypeProperty in json && json[TypeProperty] in types && json[TypeProperty] in handlers
    requires handlers[json[TypeProperty]](Message(types[json[TypeProperty]], json)).None?
    ensures Incoming(types, handlers, json) == Success([])
  {
  }

  /** `"message"` has no border. */
  lemma MessageSuffixUnbordered()
    ensures Unbordered(MessageSuffix)
  {
    forall d | 0 < d < |MessageSuffix| ensures MessageSuffix[d..] != MessageSuffix[..|MessageSuffix| - d] {
      assert MessageSuffix[d..][0] != 'm';
    }
  }

  /** `"messagehandler"` has no border. */
  lemma HandlerSuffixUnbordered()
    ensures Unbordered(HandlerSuffix)
  {
    forall d | 0 < d < |HandlerSuffix| ensures HandlerSuffix[d..] != HandlerSuffix[..|HandlerSuffix| - d] {
      assert HandlerSuffix[d..][0] != 'm';
    }
  }

  /** Cutting `a + p` at its first unbordered `p`, when `a` has none, gives `a`. */
  lemma CutBeforeSuffix(a: string, p: string)
    requires |p| > 0 && !Contains(a, p) && Unbordered(p)
    ensures Split(a + p, p)[0] == a
  {
    FirstOccurrenceUnbordered(a, p, []);
    assert a + p + [] == a + p;
    assert (a + p)[..|a|] == a;
  }

  /** The lower-cased suffixes of the naming convention. */
  lemma SuffixesLowered()
    ensures ToLower("Message") == MessageSuffix
    ensures ToLower("MessageHandler") == HandlerSuffix
  {
  }

  /** For a base name without `message` in it, `<base>Message` is a message class keyed by the lower-cased base. */
  lemma MessageClassKey(base: string)
    requires !Contains(ToLower(base), MessageSuffix)
    ensures IsMessageClass(base + "Message") && MessageKey(base + "Message") == ToLower(base)
  {
    ToLowerAppend(base, "Message");
    SuffixesLowered();
    MessageSuffixUnbordered();
    CutBeforeSuffix(ToLower(base), MessageSuffix);
  }

  /** For a base name without `message` in it, `<base>MessageHandler` is a handler class keyed by the lower-cased base. */
  lemma HandlerClassKey(base: string)
    requires !Contains(ToLower(base), MessageSuffix)
    ensures IsHandlerClass(base + "MessageHandler") && HandlerKey(base + "MessageHandler") == ToLower(base)
  {
    ToLowerAppend(base, "MessageHandler");
    SuffixesLowered();
    HandlerSuffixUnbordered();
    assert HandlerSuffix == MessageSuffix + "handler";
    if Contains(ToLower(base), HandlerSuffix) {
      ContainsPrefix(ToLower(base), MessageSuffix, "handler");
    }
    CutBeforeSuffix(ToLower(base), HandlerSuffix);
  }

  /**
   * The naming convention pairs a message class with its handler: for a base name without
   * `message` in it, `<base>Message` and `<base>MessageHandler` pass the filters and both
   * derive the lower-cased base as their key.
   */
  lemma MessageAndHandlerShareKey(base: string)
    requires !Contains(ToLower(base), MessageSuffix)
    ensures IsMessageClass(base + "Message") && IsHandlerClass(base + "MessageHandler")
    ensures MessageKey(base + "Message") == HandlerKey(base + "MessageHandler") == ToLower(base)
  {
    MessageClassKey(base);
    HandlerClassKey(base);
  }

  /** A base name in lower case without an `m` has no `message` in it. */
  lemma PlainBase(base: string, lower: string)
    requires ToLower(base) == lower && 'm' !in lower
    ensures !Contains(ToLower(base), MessageSuffix)
  {
    NoOccurrence(lower, MessageSuffix);
  }

  /** The drive message and its handler classes meet under the key `drive`. */
  lemma DriveRoutes()
    ensures MessageKey("Drive" + "Message") == HandlerKey("Drive" + "MessageHandler") == "drive"
  {
    PlainBase("Drive", "drive");
    MessageAndHandlerShareKey("Drive");
  }

  /** A base name whose lower-cased form has no `m` gives a message class keyed by that form. */
  lemma PlainMessageKey(base: string, lower: string)
    requires ToLower(base) == lower && 'm' !in lower
    ensures IsMessageClass(base + "Message") && MessageKey(base + "Message") == lower
  {
    PlainBase(base, lower);
    MessageClassKey(base);
  }

  /** Class names that differ only in case derive the same key, so registering both fails at the second. */
  lemma CaseCollision()
    ensures AddMessages(map[], ["Ping" + "Message", "PING" + "Message"]) ==
      (map["ping" := "Ping" + "Message"], Some(DuplicateKey("ping")))
  {
    assert ToLower("Ping") == "ping";
    assert ToLower("PING") == "ping";
    PlainMessageKey("Ping", "ping");
    PlainMessageKey("PING", "ping");
    var types := ["Ping" + "Message", "PING" + "Message"];
    assert types[1..] == ["PING" + "Message"];
    assert types[1..][1..] == [];
  }

  /** The service object: the two caches and the socket, updated in place. */
  class WebsocketService {
    var messageTypeCache: map<string, string>
    var messageHandlerCache: map<string, Handler>
    /** What has been sent on the socket, oldest first. */
    var sent: seq<JsonObject>

    ghost predicate Valid()
      reads this
    {
      KeysDerived(messageTypeCache)
    }

    /** The constructor (WebsocketService.cs:35-51): both caches empty, nothing sent. */
    constructor()
      ensures messageTypeCache == map[] && messageHandlerCache == map[] && sent == []
      ensures Valid()
    {
      messageTypeCache := map[];
      messageHandlerCache := map[];
      sent := [];
    }

    /** `RegisterMessages()` (WebsocketService.cs:177-199) over the discovered class names `types`. */
    method RegisterMessages(types: seq<string>) returns (r: Option<WebsocketError>)
      requires Valid()
      modifies this
      ensures (messageTypeCache, r) == AddMessages(old(messageTypeCache), types)
      ensures messageHandlerCache == old(messageHandlerCache) && sent == old(sent)
      ensures Valid()
    {
      AddMessagesKeepsKeysDerived(messageTypeCache, types);
      var i := 0;
      while i < |types|
        invariant 0 <= i <= |types|
        invariant AddMessages(old(messageTypeCache), types) == AddMessages(messageTypeCache, types[i..])
        invariant messageHandlerCache == old(messageHandlerCache) && sent == old(sent)
      {
        assert types[i..][1..] == types[i + 1..];
        var name := types[i];
        if EndsWith(ToLower(name), MessageSuffix) {
          var messageType := MessageKey(name);
          if messageType in messageTypeCache {
            return Some(DuplicateKey(messageType));
          }
          messageTypeCache := messageTypeCache[messageType := name];
        }
        i := i + 1;
      }
      return None;
    }

    /** `RegisterMessageHandlers()` (WebsocketService.cs:147-170) over the discovered handler instances. */
    method RegisterMessageHandlers(handlers: seq<HandlerClass>) returns (r: Option<WebsocketError>)
      requires Valid()
      modifies this
      ensures (messageHandlerCache, r) == AddHandlers(old(messageHandlerCache), handlers)
      ensures messageTypeCache == old(messageTypeCache) && sent == old(sent)
      ensures Valid()
    {
      var i := 0;
      while i < |handlers|
        invariant 0 <= i <= |handlers|
        invariant AddHandlers(old(messageHandlerCache), handlers) == AddHandlers(messageHandlerCache, handlers[i..])
        invariant messageTypeCache == old(messageTypeCache) && sent == old(sent)
      {
        assert handlers[i..][1..] == handlers[i + 1..];
        var instance := handlers[i];
        if EndsWith(ToLower(instance.className), HandlerSuffix) {
          var messageType := HandlerKey(instance.className);
          if messageType in messageHandlerCache {
            return Some(DuplicateKey(messageType));
          }
          messageHandlerCache := messageHandlerCache[messageType := instance.handler];
        }
        i := i + 1;
      }
      return None;
    }

    /** `SendMessage(message)` (WebsocketService.cs:206-214). */
    method SendMessage(message: Message) returns (r: Option<WebsocketError>)
      requires Valid()
      modifies this
      ensures messageTypeCache == old(messageTypeCache) && messageHandlerCache == old(messageHandlerCache)
      ensures match Outgoing(messageTypeCache, message)
        case Success(out) => r == None && sent == old(sent) + out
        case Failure(e) => r == Some(e) && sent == old(sent)
    {
      if message.className !in messageTypeCache.Values {
        return None;
      }
      var messageType :| messageType in messageTypeCache && messageTypeCache[messageType] == message.className;
      if TypeProperty in message.fields {
        return Some(DuplicateProperty(TypeProperty));
      }
      var jObject := message.fields[TypeProperty := messageType];
      sent := sent + [jObject];
      return None;
    }

    /** `Handle(json)` (WebsocketService.cs:118-140) on the parsed object. */
    method Handle(json: JsonObject) returns (r: Option<WebsocketError>)
      requires Valid()
      modifies this
      ensures messageTypeCache == old(messageTypeCache) && messageHandlerCache == old(messageHandlerCache)
      ensures match Incoming(messageTypeCache, messageHandlerCache, json)
        case Success(out) => r == None && sent == old(sent) + out
        case Failure(e) => r == Some(e) && sent == old(sent)
    {
      if TypeProperty !in json {
        return Some(MissingType);
      }
      var messageType := json[TypeProperty];
      if messageType !in messageTypeCache {
        return Some(UnknownType(messageType));
      }
      var messageClassType := messageTypeCache[messageType];
      if messageType !in messageHandlerCache {
        return None;
      }
      var convertedMessage := Message(messageClassType, json);
      var handler := messageHandlerCache[messageType];
      var task := handler(convertedMessage);
      if task.None? {
        return None;
      }
      r := SendMessage(task.value);
    }
  }
}
