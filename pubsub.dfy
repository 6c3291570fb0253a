/**
 * The topic bus (Overkill.PubSub/PubSubService.cs): three registries keyed by a topic's
 * runtime type name, and the three-stage dispatch pipeline
 *   middleware (in order, may drop or mutate) ->
 *   transformers (all variants first, then each re-dispatched through the whole pipeline) ->
 *   subscribers of the original name (in order, with the post-middleware topic).
 *
 * The bus is generic in the topic type `T`; `typeName` gives a topic's runtime type name.
 * A subscriber is an id, and a dispatch yields the trace of deliveries it makes.
 * The recursion of the transformer stage is bounded by `depth`: exhausting it stands for
 * the stack overflow a cyclic transformer graph causes in the source.
 */
module PubSub {
  import opened Wrappers

  type SubscriberId = nat

  /** A middleware returns the (possibly mutated) topic, or `None` to drop it. */
  type MiddlewareUnit<!T> = T -> Option<T>

  /** A transformer derives another topic from a topic. */
  type TransformerUnit<!T> = T -> T

  /** One invocation of a subscriber callback with a topic. */
  datatype Delivery<T> = Delivery(subscriber: SubscriberId, topic: T)

  /** What one dispatch does: the deliveries it makes, in order, or running out of stack. */
  datatype Outcome<T> = Delivered(trace: seq<Delivery<T>>) | DepthExceeded

  /** The three registries of PubSubService.cs:16-18. */
  datatype Registry<!T> = Registry(
    middlewares: map<string, seq<MiddlewareUnit<T>>>,
    transformers: map<string, seq<TransformerUnit<T>>>,
    subscribers: map<string, seq<SubscriberId>>)

  /** The registered list for `name`; a missing key behaves as an empty list. */
  function ListFor<U>(m: map<string, seq<U>>, name: string): seq<U> {
    if name in m then m[name] else []
  }

  /** The registry after appending `x` to the list for `name`, creating the list if absent. */
  function Appended<U>(m: map<string, seq<U>>, name: string, x: U): (r: map<string, seq<U>>)
    ensures r.Keys == m.Keys + {name}
    ensures ListFor(r, name) == ListFor(m, name) + [x]
    ensures forall n :: n != name ==> ListFor(r, n) == ListFor(m, n)
  {
    m[name := ListFor(m, name) + [x]]
  }

  /** Sequential composition of two outcomes: traces concatenate, exhaustion wins. */
  function Then<T>(a: Outcome<T>, b: Outcome<T>): Outcome<T> {
    if a.Delivered? && b.Delivered? then Delivered(a.trace + b.trace) else DepthExceeded
  }

  /** Composing outcomes is associative. */
  lemma ThenAssoc<T>(a: Outcome<T>, b: Outcome<T>, c: Outcome<T>)
    ensures Then(Then(a, b), c) == Then(a, Then(b, c))
  {
    if a.Delivered? && b.Delivered? && c.Delivered? {
      assert (a.trace + b.trace) + c.trace == a.trace + (b.trace + c.trace);
    }
  }

  /**
   * The middleware stage (PubSubService.cs:57-71): each middleware sees the topic the
   * previous ones accepted; `None` drops the topic; a result of another type is ignored.
   */
  function RunMiddleware<T>(typeName: T -> string, chain: seq<MiddlewareUnit<T>>, t: T): (r: Option<T>)
    ensures r.Some? ==> typeName(r.value) == typeName(t)
  {
    if chain == [] then Some(t)
    else match chain[0](t)
      case None => None
      case Some(u) => RunMiddleware(typeName, chain[1..], if typeName(u) == typeName(t) then u else t)
  }

  /** The variants the transformer stage collects (PubSubService.cs:77-79), in registration order. */
  function Variants<T>(fs: seq<TransformerUnit<T>>, t: T): (vs: seq<T>)
    ensures |vs| == |fs|
  {
    seq(|fs|, i requires 0 <= i < |fs| => fs[i](t))
  }

  /** The subscriber stage (PubSubService.cs:86-89): each subscriber once, in registration order. */
  function Notify<T>(subs: seq<SubscriberId>, t: T): (ds: seq<Delivery<T>>)
    ensures |ds| == |subs|
  {
    seq(|subs|, i requires 0 <= i < |subs| => Delivery(subs[i], t))
  }

  /** The outcome of `Dispatch(t)` (PubSubService.cs:52-90) with at most `depth` nested re-dispatches. */
  function Dispatched<T>(typeName: T -> string, reg: Registry<T>, t: T, depth: nat): Outcome<T>
    decreases depth, 1, 0
  {
    var name := typeName(t);
    match RunMiddleware(typeName, ListFor(reg.middlewares, name), t)
    case None => Delivered([])
    case Some(u) =>
      Then(Fanout(typeName, reg, Variants(ListFor(reg.transformers, name), u), depth),
           Delivered(Notify(ListFor(reg.subscribers, name), u)))
  }

  /** The transformer stage: the collected variants re-dispatched one level deeper (PubSubService.cs:82). */
  function Fanout<T>(typeName: T -> string, reg: Registry<T>, vs: seq<T>, depth: nat): Outcome<T>
    decreases depth, 0, 0
  {
    if vs == [] then Delivered([])
    else if depth == 0 then DepthExceeded
    else DispatchedAll(typeName, reg, vs, depth - 1)
  }

  /** The outcome of dispatching each of `vs` in turn. */
  function DispatchedAll<T>(typeName: T -> string, reg: Registry<T>, vs: seq<T>, depth: nat): Outcome<T>
    decreases depth, 2, |vs|
  {
    if vs == [] then Delivered([])
    else Then(Dispatched(typeName, reg, vs[0], depth), DispatchedAll(typeName, reg, vs[1..], depth))
  }

  /*
   * Properties of the middleware stage.
   */

  /** Middleware compose: running `a + b` is running `a`, then `b` on what `a` accepted. */
  lemma {:induction false} MiddlewareCompose<T>(typeName: T -> string, a: seq<MiddlewareUnit<T>>, b: seq<MiddlewareUnit<T>>, t: T)
    ensures RunMiddleware(typeName, a + b, t) ==
      match RunMiddleware(typeName, a, t)
      case None => None
      case Some(u) => RunMiddleware(typeName, b, u)
  {
    if a != [] {
      assert (a + b)[0] == a[0];
      assert (a + b)[1..] == a[1..] + b;
      match a[0](t)
      case None =>
      case Some(u) =>
        MiddlewareCompose(typeName, a[1..], b, if typeName(u) == typeName(t) then u else t);
    } else {
      assert a + b == b;
    }
  }

  /**
   * A middleware that returns `None` ends the pipeline: whatever follows it in the chain,
   * and every transformer and subscriber of that name, is skipped (PubSubService.cs:61-65).
   */
  lemma DropSkipsRest<T>(typeName: T -> string, reg: Registry<T>, t: T, depth: nat, k: nat, u: T)
    requires k < |ListFor(reg.middlewares, typeName(t))|
    requires RunMiddleware(typeName, ListFor(reg.middlewares, typeName(t))[..k], t) == Some(u)
    requires ListFor(reg.middlewares, typeName(t))[k](u) == None
    ensures RunMiddleware(typeName, ListFor(reg.middlewares, typeName(t)), t) == None
    ensures Dispatched(typeName, reg, t, depth) == Delivered([])
  {
    var chain := ListFor(reg.middlewares, typeName(t));
    assert chain == chain[..k] + chain[k..];
    MiddlewareCompose(typeName, chain[..k], chain[k..], t);
    assert chain[k..][0] == chain[k];
  }

  /**
   * A middleware's result replaces the topic only when it has the same type name; otherwise
   * the next middleware sees the unchanged topic (PubSubService.cs:66-69).
   */
  lemma TypeGuard<T>(typeName: T -> string, m: MiddlewareUnit<T>, rest: seq<MiddlewareUnit<T>>, t: T)
    requires m(t).Some?
    ensures typeName(m(t).value) == typeName(t) ==>
      RunMiddleware(typeName, [m] + rest, t) == RunMiddleware(typeName, rest, m(t).value)
    ensures typeName(m(t).value) != typeName(t) ==>
      RunMiddleware(typeName, [m] + rest, t) == RunMiddleware(typeName, rest, t)
  {
    assert ([m] + rest)[0] == m;
    assert ([m] + rest)[1..] == rest;
  }

  /*
   * Properties of the whole pipeline.
   */

  /** A topic whose name has nothing registered is a no-op (PubSubService.cs:57-89). */
  lemma UnregisteredIsNoop<T>(typeName: T -> string, reg: Registry<T>, t: T, depth: nat)
    requires typeName(t) !in reg.middlewares
    requires typeName(t) !in reg.transformers
    requires typeName(t) !in reg.subscribers
    ensures Dispatched(typeName, reg, t, depth) == Delivered([])
  {
    assert Notify<T>([], t) == [];
  }

  /**
   * The trace of a dispatch that is not dropped: first every delivery caused by the
   * transformer variants (each through the whole pipeline), then each subscriber of the
   * topic's own name exactly once, in registration order, with the post-middleware topic
   * (PubSubService.cs:77-88).
   */
  lemma {:induction false} DispatchOrder<T>(typeName: T -> string, reg: Registry<T>, t: T, depth: nat, u: T)
    requires RunMiddleware(typeName, ListFor(reg.middlewares, typeName(t)), t) == Some(u)
    requires Dispatched(typeName, reg, t, depth).Delivered?
    ensures var subs := ListFor(reg.subscribers, typeName(t));
      var tr := Dispatched(typeName, reg, t, depth).trace;
      var vs := Variants(ListFor(reg.transformers, typeName(t)), u);
      && |subs| <= |tr|
      && (vs == [] ==> |tr| == |subs|)
      && (vs != [] ==> depth > 0 && DispatchedAll(typeName, reg, vs, depth - 1) == Delivered(tr[..|tr| - |subs|]))
      && forall k :: 0 <= k < |subs| ==> tr[|tr| - |subs| + k] == Delivery(subs[k], u)
  {
    var subs := ListFor(reg.subscribers, typeName(t));
    var vs := Variants(ListFor(reg.transformers, typeName(t)), u);
    var fanout := Fanout(typeName, reg, vs, depth);
    assert Dispatched(typeName, reg, t, depth) == Then(fanout, Delivered(Notify(subs, u)));
    var tr := fanout.trace + Notify(subs, u);
    assert tr[..|tr| - |subs|] == fanout.trace;
  }

  /** Every delivery in a trace goes to a subscriber registered for that topic's own name. */
  lemma {:induction false} DeliveriesAreRegistered<T>(typeName: T -> string, reg: Registry<T>, t: T, depth: nat)
    requires Dispatched(typeName, reg, t, depth).Delivered?
    ensures var tr := Dispatched(typeName, reg, t, depth).trace;
      forall k :: 0 <= k < |tr| ==> tr[k].subscriber in ListFor(reg.subscribers, typeName(tr[k].topic))
    decreases depth, 0, 0
  {
    var name := typeName(t);
    match RunMiddleware(typeName, ListFor(reg.middlewares, name), t)
    case None =>
    case Some(u) =>
      var vs := Variants(ListFor(reg.transformers, name), u);
      var subs := ListFor(reg.subscribers, name);
      var fanout := Fanout(typeName, reg, vs, depth);
      if vs != [] {
        AllDeliveriesAreRegistered(typeName, reg, vs, depth - 1);
      }
      var tr := fanout.trace + Notify(subs, u);
      assert Dispatched(typeName, reg, t, depth).trace == tr;
      forall k | 0 <= k < |tr|
        ensures tr[k].subscriber in ListFor(reg.subscribers, typeName(tr[k].topic))
      {
        if k >= |fanout.trace| {
          assert tr[k] == Delivery(subs[k - |fanout.trace|], u);
        }
      }
  }

  /** `DeliveriesAreRegistered`, for a sequence of variants. */
  lemma {:induction false} AllDeliveriesAreRegistered<T>(typeName: T -> string, reg: Registry<T>, vs: seq<T>, depth: nat)
    requires DispatchedAll(typeName, reg, vs, depth).Delivered?
    ensures var tr := DispatchedAll(typeName, reg, vs, depth).trace;
      forall k :: 0 <= k < |tr| ==> tr[k].subscriber in ListFor(reg.subscribers, typeName(tr[k].topic))
    decreases depth, 1, |vs|
  {
    if vs != [] {
      DeliveriesAreRegistered(typeName, reg, vs[0], depth);
      AllDeliveriesAreRegistered(typeName, reg, vs[1..], depth);
    }
  }

  /**
   * The depth is only a bound: a dispatch that completes within `depth` nested
   * re-dispatches has the same trace with any larger bound.
   */
  lemma {:induction false} DepthMonotone<T>(typeName: T -> string, reg: Registry<T>, t: T, depth: nat, more: nat)
    requires depth <= more
    requires Dispatched(typeName, reg, t, depth).Delivered?
    ensures Dispatched(typeName, reg, t, more) == Dispatched(typeName, reg, t, depth)
    decreases depth, 0, 0
  {
    var name := typeName(t);
    match RunMiddleware(typeName, ListFor(reg.middlewares, name), t)
    case None =>
    case Some(u) =>
      var vs := Variants(ListFor(reg.transformers, name), u);
      if vs != [] {
        AllDepthMonotone(typeName, reg, vs, depth - 1, more - 1);
      }
  }

  /** `DepthMonotone`, for a sequence of variants. */
  lemma {:induction false} AllDepthMonotone<T>(typeName: T -> string, reg: Registry<T>, vs: seq<T>, depth: nat, more: nat)
    requires depth <= more
    requires DispatchedAll(typeName, reg, vs, depth).Delivered?
    ensures DispatchedAll(typeName, reg, vs, more) == DispatchedAll(typeName, reg, vs, depth)
    decreases depth, 1, |vs|
  {
    if vs != [] {
      DepthMonotone(typeName, reg, vs[0], depth, more);
      AllDepthMonotone(typeName, reg, vs[1..], depth, more);
    }
  }

  /**
   * The transformer type graph is cycle-free, witnessed by a rank on type names that
   * every transformer output lowers.
   */
  ghost predicate Ranked<T(!new)>(typeName: T -> string, reg: Registry<T>, rank: string -> nat) {
    forall name, i, t ::
      name in reg.transformers && 0 <= i < |reg.transformers[name]| && typeName(t) == name ==>
        rank(typeName(reg.transformers[name][i](t))) < rank(name)
  }

  /** On a cycle-free transformer graph, dispatch never runs out of depth beyond the topic's rank. */
  lemma {:induction false} RankedCompletes<T(!new)>(typeName: T -> string, reg: Registry<T>, rank: string -> nat, t: T, depth: nat)
    requires Ranked(typeName, reg, rank)
    requires rank(typeName(t)) <= depth
    ensures Dispatched(typeName, reg, t, depth).Delivered?
    decreases depth, 0, 0
  {
    var name := typeName(t);
    match RunMiddleware(typeName, ListFor(reg.middlewares, name), t)
    case None =>
    case Some(u) =>
      var fs := ListFor(reg.transformers, name);
      var vs := Variants(fs, u);
      if vs != [] {
        assert vs[0] == fs[0](u);
        assert rank(typeName(vs[0])) < rank(name);
        forall v | v in vs
          ensures rank(typeName(v)) <= depth - 1
        {
          var i :| 0 <= i < |vs| && vs[i] == v;
          assert v == fs[i](u);
        }
        AllRankedComplete(typeName, reg, rank, vs, depth - 1);
      }
  }

  /** `RankedCompletes`, for a sequence of variants. */
  lemma {:induction false} AllRankedComplete<T(!new)>(typeName: T -> string, reg: Registry<T>, rank: string -> nat, vs: seq<T>, depth: nat)
    requires Ranked(typeName, reg, rank)
    requires forall v :: v in vs ==> rank(typeName(v)) <= depth
    ensures DispatchedAll(typeName, reg, vs, depth).Delivered?
    decreases depth, 1, |vs|
  {
    if vs != [] {
      RankedCompletes(typeName, reg, rank, vs[0], depth);
      AllRankedComplete(typeName, reg, rank, vs[1..], depth);
    }
  }

  /**
   * A transformer that maps a topic back to its own type name, with middleware that never
   * drops such a topic, recurses without end: dispatch runs out of every depth.
   */
  lemma {:induction false} SelfLoopExceeds<T>(typeName: T -> string, reg: Registry<T>, name: string, f: TransformerUnit<T>, t: T, depth: nat)
    requires forall x :: typeName(x) == name ==> RunMiddleware(typeName, ListFor(reg.middlewares, name), x).Some?
    requires ListFor(reg.transformers, name) != [] && ListFor(reg.transformers, name)[0] == f
    requires forall x :: typeName(x) == name ==> typeName(f(x)) == name
    requires typeName(t) == name
    ensures Dispatched(typeName, reg, t, depth) == DepthExceeded
  {
    var u := RunMiddleware(typeName, ListFor(reg.middlewares, name), t).value;
    var vs := Variants(ListFor(reg.transformers, name), u);
    assert vs[0] == f(u);
    if depth > 0 {
      SelfLoopExceeds(typeName, reg, name, f, vs[0], depth - 1);
      assert DispatchedAll(typeName, reg, vs, depth - 1) == DepthExceeded;
    }
  }

  /**
   * Transform fan-out: one transformer on `t`'s name whose variant has another name; a
   * subscriber on each name. The variant's subscriber fires first, with the variant, then
   * the original's subscriber with the original.
   */
  lemma FanOut<T>(typeName: T -> string, f: TransformerUnit<T>, t: T, s: SubscriberId, sv: SubscriberId, depth: nat)
    requires typeName(f(t)) != typeName(t) && depth >= 1
    ensures var reg := Registry(map[],
                                map[typeName(t) := [f]],
                                map[typeName(t) := [s], typeName(f(t)) := [sv]]);
      Dispatched(typeName, reg, t, depth) == Delivered([Delivery(sv, f(t)), Delivery(s, t)])
  {
    var reg := Registry(map[], map[typeName(t) := [f]], map[typeName(t) := [s], typeName(f(t)) := [sv]]);
    assert Variants([f], t) == [f(t)];
    assert Variants<T>([], f(t)) == [];
    assert Dispatched(typeName, reg, f(t), depth - 1) == Delivered([Delivery(sv, f(t))]);
    assert DispatchedAll(typeName, reg, [f(t)], depth - 1) == Delivered([Delivery(sv, f(t))]);
  }

  /**
   * After one more subscriber on a name without transformers, a dispatch of that name
   * delivers what it did before, plus one delivery to the new subscriber at the end.
   */
  lemma SubscribeAddsLastDelivery<T>(typeName: T -> string, reg: Registry<T>, s: SubscriberId, t: T, depth: nat, u: T)
    requires ListFor(reg.transformers, typeName(t)) == []
    requires RunMiddleware(typeName, ListFor(reg.middlewares, typeName(t)), t) == Some(u)
    ensures Dispatched(typeName, reg, t, depth).Delivered?
    ensures Dispatched(typeName, reg.(subscribers := Appended(reg.subscribers, typeName(t), s)), t, depth) ==
      Delivered(Dispatched(typeName, reg, t, depth).trace + [Delivery(s, u)])
  {
    var subs := ListFor(reg.subscribers, typeName(t));
    assert Notify(subs + [s], u) == Notify(subs, u) + [Delivery(s, u)];
  }

  /**
   * The bus of PubSubService.cs. Each registry is a map from type name to the registered
   * units in order; registration appends, dispatch only reads.
   */
  class PubSubService<T> {
    const typeName: T -> string
    var middlewares: map<string, seq<MiddlewareUnit<T>>>
    var transformers: map<string, seq<TransformerUnit<T>>>
    var subscribers: map<string, seq<SubscriberId>>

    /** The three registries as one value. */
    function Registrations(): Registry<T>
      reads this
    {
      Registry(middlewares, transformers, subscribers)
    }

    /** A new bus has empty registries (PubSubService.cs:21-27). */
    constructor(typeName: T -> string)
      ensures this.typeName == typeName
      ensures Registrations() == Registry(map[], map[], map[])
    {
      this.typeName := typeName;
      middlewares := map[];
      transformers := map[];
      subscribers := map[];
    }

    /** `Subscribe<T>(listener)` for the type named `name` (PubSubService.cs:97-107). */
    method Subscribe(name: string, listener: SubscriberId)
      modifies this
      ensures subscribers == Appended(old(subscribers), name, listener)
      ensures middlewares == old(middlewares) && transformers == old(transformers)
    {
      if name !in subscribers {
        subscribers := subscribers[name := []];
      }
      subscribers := subscribers[name := subscribers[name] + [listener]];
    }

    /** `MiddlewareUnit<T>(function)` for the type named `name` (PubSubService.cs:115-125). */
    method Middleware(name: string, unit: MiddlewareUnit<T>)
      modifies this
      ensures middlewares == Appended(old(middlewares), name, unit)
      ensures transformers == old(transformers) && subscribers == old(subscribers)
    {
      if name !in middlewares {
        middlewares := middlewares[name := []];
      }
      middlewares := middlewares[name := middlewares[name] + [unit]];
    }

    /** `Transform<T>(function)` for the type named `name` (PubSubService.cs:133-143). */
    method Transform(name: string, unit: TransformerUnit<T>)
      modifies this
      ensures transformers == Appended(old(transformers), name, unit)
      ensures middlewares == old(middlewares) && subscribers == old(subscribers)
    {
      if name !in transformers {
        transformers := transformers[name := []];
      }
      transformers := transformers[name := transformers[name] + [unit]];
    }

    /** The middleware loop of `Dispatch` (PubSubService.cs:57-71). */
    method ApplyMiddleware(topic: T) returns (r: Option<T>)
      ensures r == RunMiddleware(typeName, ListFor(middlewares, typeName(topic)), topic)
    {
      var name := typeName(topic);
      var t := topic;
      if name in middlewares {
        var chain := middlewares[name];
        for i := 0 to |chain|
          invariant typeName(t) == name
          invariant RunMiddleware(typeName, chain, topic) == RunMiddleware(typeName, chain[i..], t)
        {
          assert chain[i..][0] == chain[i] && chain[i..][1..] == chain[i + 1..];
          var newTopic := chain[i](t);
          if newTopic == None {
            return None;
          } else if typeName(newTopic.value) == typeName(t) {
            t := newTopic.value;
          }
        }
        assert chain[|chain|..] == [];
      }
      return Some(t);
    }

    /** The re-dispatch of the collected variants (PubSubService.cs:82), one after another. */
    method DispatchVariants(variants: seq<T>, depth: nat) returns (r: Outcome<T>)
      ensures r == DispatchedAll(typeName, Registrations(), variants, depth)
      decreases depth, 1
    {
      var trace: seq<Delivery<T>> := [];
      for j := 0 to |variants|
        invariant DispatchedAll(typeName, Registrations(), variants, depth)
                  == Then(Delivered(trace), DispatchedAll(typeName, Registrations(), variants[j..], depth))
      {
        ghost var later := DispatchedAll(typeName, Registrations(), variants[j + 1..], depth);
        assert variants[j..][0] == variants[j] && variants[j..][1..] == variants[j + 1..];
        var sub := Dispatch(variants[j], depth);
        assert DispatchedAll(typeName, Registrations(), variants[j..], depth) == Then(sub, later);
        ThenAssoc(Delivered(trace), sub, later);
        if sub == DepthExceeded {
          return DepthExceeded;
        }
        trace := trace + sub.trace;
      }
      assert variants[|variants|..] == [];
      return Delivered(trace);
    }

    /** `Dispatch(topic)` (PubSubService.cs:52-90), with at most `depth` nested re-dispatches. */
    method Dispatch(topic: T, depth: nat) returns (r: Outcome<T>)
      ensures r == Dispatched(typeName, Registrations(), topic, depth)
      decreases depth, 0
    {
      var name := typeName(topic);
      var accepted := ApplyMiddleware(topic);
      if accepted == None {
        return Delivered([]);
      }
      var t := accepted.value;

      var variants: seq<T> := [];
      if name in transformers {
        var fs := transformers[name];
        for i := 0 to |fs|
          invariant variants == Variants(fs[..i], t)
        {
          variants := variants + [fs[i](t)];
        }
        assert fs[..|fs|] == fs;
      }
      assert variants == Variants(ListFor(transformers, name), t);
      var trace: seq<Delivery<T>> := [];
      if variants != [] {
        if depth == 0 {
          return DepthExceeded;
        }
        var fanout := DispatchVariants(variants, depth - 1);
        if fanout == DepthExceeded {
          return DepthExceeded;
        }
        trace := fanout.trace;
      }
      assert Fanout(typeName, Registrations(), variants, depth) == Delivered(trace);
      ghost var variantTrace := trace;

      if name in subscribers {
        var subs := subscribers[name];
        for k := 0 to |subs|
          invariant trace == variantTrace + Notify(subs[..k], t)
        {
          assert Notify(subs[..k + 1], t) == Notify(subs[..k], t) + [Delivery(subs[k], t)];
          trace := trace + [Delivery(subs[k], t)];
        }
        assert subs[..|subs|] == subs;
      }
      return Delivered(trace);
    }
  }
}
