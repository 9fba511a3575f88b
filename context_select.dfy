/**
 * `SelectState` of src/select-state.ts: a controller that finds its actor
 * through a context at every `hostConnected` and delegates to a fresh
 * controller of src/select-controller.ts each time, tearing the previous one
 * down first.
 *
 * The context collaborator is reduced to a slot an ancestor fills with a
 * `service` (assumed present, as the source's `value!` does) and a
 * consumer that is engaged or not.
 */
module ContextSelect {
  import opened Wrappers
  import opened Lit
  import opened Gating
  import opened ServiceSelect
  import Comparators

  /** The value an ancestor provides under the context key: its `service` field. */
  class Context<S, T(==)> {
    var service: Actor<S, T>

    constructor (service: Actor<S, T>)
      ensures this.service == service
    {
      this.service := service;
    }

    /** The providing ancestor puts another service under the key. */
    method Provide(service: Actor<S, T>)
      modifies this`service
      ensures this.service == service
    {
      this.service := service;
    }
  }

  /** A `ContextConsumer` of that context: engaged while its host is connected. */
  class ContextConsumer<S, T(==)> {
    const context: Context<S, T>
    var connected: bool

    constructor (context: Context<S, T>)
      ensures this.context == context && !connected
    {
      this.context := context;
      connected := false;
    }

    method HostConnected()
      modifies this`connected
      ensures connected
    {
      connected := true;
    }

    method HostDisconnected()
      modifies this`connected
      ensures !connected
    {
      connected := false;
    }

    /** `value!.service`: the service the context currently provides. */
    function Service(): Actor<S, T>
      reads this, context
    {
      context.service
    }
  }

  /** The controller is registered with its actor under its subscription id. */
  ghost predicate Registered<S, T>(c: SelectorController<S, T>)
    reads c.actor
  {
    c.subscription < |c.actor.listeners| && c.actor.listeners[c.subscription] == c
  }

  /** The controller's subscription has not been cancelled. */
  ghost predicate IsLive<S, T>(c: SelectorController<S, T>)
    reads c.actor
  {
    c.subscription in c.actor.live
  }

  /** How many of the controllers `cs` hold a live subscription. */
  ghost function LiveCount<S, T>(cs: seq<SelectorController<S, T>>): nat
    reads set c | c in cs :: c.actor
    decreases |cs|
  {
    if cs == [] then 0
    else LiveCount(cs[..|cs| - 1]) + if IsLive(cs[|cs| - 1]) then 1 else 0
  }

  /** Controllers none of which is live count zero. */
  lemma {:induction false} LiveCountNone<S, T>(cs: seq<SelectorController<S, T>>)
    requires forall j | 0 <= j < |cs| :: !IsLive(cs[j])
    ensures LiveCount(cs) == 0
    decreases |cs|
  {
    if cs != [] {
      LiveCountNone(cs[..|cs| - 1]);
    }
  }

  class SelectState<S, T(==)> {
    const host: Host
    const serviceContext: ContextConsumer<S, T>
    const selector: Option<S> -> T
    /** The comparator handed to the next inner controller. */
    var compare: (T, T) -> bool
    /** The inner controller of the latest connection, if any. */
    var selectorController: Option<SelectorController<S, T>>
    /** Every inner controller created so far, oldest first. */
    ghost var inners: seq<SelectorController<S, T>>

    ghost function InnerActors(): set<Actor<S, T>>
      reads this
    {
      set c | c in inners :: c.actor
    }

    /**
     * `selectorController` is the newest inner controller; every inner
     * controller was built for this host and selector and is registered with
     * its actor; all but the newest have been unsubscribed.
     */
    ghost predicate Valid()
      reads this, InnerActors()
    {
      && (selectorController.None? <==> inners == [])
      && (selectorController.Some? ==> selectorController.value == inners[|inners| - 1])
      && (forall j | 0 <= j < |inners| :: inners[j].host == host && inners[j].selector == selector && Registered(inners[j]))
      && (forall j | 0 <= j < |inners| - 1 :: !IsLive(inners[j]))
    }

    /** The actor a teardown acts on: the newest inner controller's, else the context's service. */
    ghost function BoundActor(): Actor<S, T>
      reads this, serviceContext, serviceContext.context
    {
      if selectorController.Some? then selectorController.value.actor else serviceContext.context.service
    }

    /** Registers with the host and creates the context consumer; nothing is subscribed yet. */
    constructor (context: Context<S, T>, host: Host, selector: Option<S> -> T, compare: (T, T) -> bool := Comparators.DefaultCompare)
      modifies host`controllers
      ensures Valid() && Value() == None && inners == []
      ensures this.host == host && this.selector == selector && this.compare == compare
      ensures fresh(serviceContext) && serviceContext.context == context && !serviceContext.connected
      ensures host.controllers == old(host.controllers) + [this] && host.updateRequests == old(host.updateRequests)
    {
      this.host := host;
      serviceContext := new ContextConsumer(context);
      this.selector := selector;
      this.compare := compare;
      selectorController := None;
      inners := [];
      new;
      host.AddController(this);
    }

    /**
     * Tears down any previous inner controller, engages the context and binds
     * a new inner controller to the service it provides, with the current
     * `compare`. Afterwards exactly one inner subscription is live.
     */
    method HostConnected()
      requires Valid() && serviceContext.context.service.Valid()
      modifies this`selectorController, this`inners, serviceContext`connected, host`controllers
      modifies BoundActor()`live, serviceContext.context.service`listeners, serviceContext.context.service`live
      ensures Valid() && serviceContext.connected
      ensures |inners| == |old(inners)| + 1 && inners[..|old(inners)|] == old(inners)
      ensures var c := inners[|inners| - 1];
        && selectorController == Some(c) && fresh(c)
        && c.actor == old(serviceContext.context.service) && c.compare == old(compare)
        && c.Value() == selector(GetSnapshot(c.actor.ref)) && IsLive(c)
        && host.controllers == old(host.controllers) + [c]
      ensures host.updateRequests == old(host.updateRequests)
      ensures var a, c := old(serviceContext.context.service), inners[|inners| - 1];
        && a.listeners == old(a.listeners) + [c]
        && a.live == (if old(selectorController).Some? && old(selectorController.value.actor) == a
                      then old(a.live) - {old(selectorController.value.subscription)} else old(a.live)) + {c.subscription}
      ensures old(selectorController).Some? ==> var p := old(selectorController.value);
        && !IsLive(p)
        && (p.actor != old(serviceContext.context.service) ==> p.actor.live == old(p.actor.live) - {p.subscription})
      ensures LiveCount(inners) == 1
    {
      if selectorController.Some? {
        HostDisconnected();
      }
      serviceContext.HostConnected();
      var service := serviceContext.Service();
      Bind(service);
    }

    /**
     * The second half of `hostConnected`: a new inner controller on
     * `service`, with the current `compare`, becomes the newest one.
     */
    method Bind(service: Actor<S, T>)
      requires Valid() && service.Valid()
      requires forall j | 0 <= j < |inners| :: !IsLive(inners[j])
      modifies this`selectorController, this`inners, host`controllers, service`listeners, service`live
      ensures Valid()
      ensures |inners| == |old(inners)| + 1 && inners[..|old(inners)|] == old(inners)
      ensures var c := inners[|inners| - 1];
        && selectorController == Some(c) && fresh(c)
        && c.actor == service && c.compare == compare
        && c.Value() == selector(GetSnapshot(service.ref)) && IsLive(c)
        && host.controllers == old(host.controllers) + [c]
        && service.listeners == old(service.listeners) + [c]
        && service.live == old(service.live) + {c.subscription}
      ensures host.updateRequests == old(host.updateRequests)
      ensures LiveCount(inners) == 1
    {
      ghost var prior := inners;
      var c := new SelectorController(host, service, selector, compare);
      forall j | 0 <= j < |prior|
        ensures Registered(prior[j]) && !IsLive(prior[j])
      {
        if prior[j].actor == service {
          assert prior[j].subscription < c.subscription;
        }
      }
      selectorController := Some(c);
      inners := inners + [c];
      assert inners[..|inners| - 1] == prior;
      LiveCountNone(prior);
    }

    /**
     * Disengages the context and unsubscribes the newest inner controller, if
     * any. `selectorController` is kept, so `value` goes on returning its
     * value; with no inner controller no subscription changes.
     */
    method HostDisconnected()
      requires Valid()
      modifies serviceContext`connected, BoundActor()`live
      ensures Valid() && !serviceContext.connected
      ensures Value() == old(Value())
      ensures selectorController.Some? ==> var c := selectorController.value;
        c.actor.live == old(c.actor.live) - {c.subscription}
      ensures selectorController.None? ==> BoundActor().live == old(BoundActor().live)
      ensures forall j | 0 <= j < |inners| :: !IsLive(inners[j])
      ensures LiveCount(inners) == 0
    {
      serviceContext.HostDisconnected();
      if selectorController.Some? {
        selectorController.value.HostDisconnected();
      }
      LiveCountNone(inners);
    }

    /** The `value` getter: the newest inner controller's value, `None` (undefined) before the first connection. */
    function Value(): Option<T>
      reads this, if selectorController.Some? then {selectorController.value} else {}
    {
      if selectorController.Some? then Some(selectorController.value.Value()) else None
    }

    /** `value` is undefined until the first connection and afterwards the newest inner controller's value. */
    lemma ValueIsNewestInner()
      requires Valid()
      ensures Value() == if inners == [] then None else Some(inners[|inners| - 1].Value())
    {
    }

    /**
     * What the actors do between lifecycle calls (emissions) keeps the
     * invariant, as long as their subscriptions are left alone.
     */
    twostate lemma StaysValid()
      requires old(Valid()) && unchanged(this)
      requires forall j | 0 <= j < |inners| :: var a := inners[j].actor;
        a.listeners == old(a.listeners) && a.live == old(a.live)
      ensures Valid()
    {
      forall j | 0 <= j < |inners|
        ensures Registered(inners[j])
      {
        assert old(Registered(inners[j]));
      }
      forall j | 0 <= j < |inners| - 1
        ensures !IsLive(inners[j])
      {
        assert old(!IsLive(inners[j]));
      }
    }

    /** At most one inner subscription is live, whatever the sequence of connections and disconnections. */
    lemma AtMostOneLive()
      requires Valid()
      ensures LiveCount(inners) <= 1
    {
      if inners != [] {
        var n := |inners| - 1;
        assert forall j | 0 <= j < n :: inners[..n][j] == inners[j];
        LiveCountNone(inners[..n]);
      }
    }

    /** The inner controllers as the change-gating semantics sees them, oldest first. */
    ghost function InnerSlots(): (r: seq<Slot<Option<S>, T>>)
      reads this, InnerActors(), set c | c in inners
      ensures |r| == |inners|
    {
      seq(|inners|, j requires 0 <= j < |inners| reads this, InnerActors(), set c | c in inners =>
        Slot(inners[j].host, IsLive(inners[j]), inners[j].selected, inners[j].selector, inners[j].compare))
    }

    /**
     * Whatever connections and disconnections came before, one emission
     * reaches the host through this `SelectState` as at most one update
     * request, and as none while no inner subscription is live. Each inner
     * slot is the one its actor's `Emit` advances.
     */
    lemma OneRequestPerEmission(e: Option<S>)
      requires Valid()
      ensures Requests(host, InnerSlots(), [e]) <= 1
      ensures (forall j | 0 <= j < |inners| :: !IsLive(inners[j])) ==> Requests(host, InnerSlots(), [e]) == 0
      ensures forall j | 0 <= j < |inners| :: InnerSlots()[j] == inners[j].actor.Slots()[inners[j].subscription]
    {
      var slots := InnerSlots();
      assert AtMostOneLiveOn(host, slots) by {
        forall i, j | 0 <= i < j < |slots|
          ensures !(slots[i].live && slots[i].host == host && slots[j].live && slots[j].host == host)
        {
          assert !IsLive(inners[i]);
        }
      }
      AtMostOneRequestPerEmission(host, slots, e);
      forall j | 0 <= j < |inners|
        ensures InnerSlots()[j] == inners[j].actor.Slots()[inners[j].subscription]
      {
        assert Registered(inners[j]);
      }
    }
  }

  /** `connectState`: the same as constructing a `SelectState`. */
  method ConnectState<S, T(==)>(context: Context<S, T>, host: Host, selector: Option<S> -> T, compare: (T, T) -> bool := Comparators.DefaultCompare)
    returns (s: SelectState<S, T>)
    modifies host`controllers
    ensures fresh(s) && s.Valid() && s.Value() == None && s.inners == []
    ensures s.host == host && s.selector == selector && s.compare == compare
    ensures fresh(s.serviceContext) && s.serviceContext.context == context && !s.serviceContext.connected
    ensures host.controllers == old(host.controllers) + [s] && host.updateRequests == old(host.updateRequests)
  {
    s := new SelectState(context, host, selector, compare);
  }

  /**
   * Connect, an emission of the bound service, connect again: the invariant
   * survives the emission in between, and afterwards exactly one inner
   * subscription is live, whatever inner controllers came before.
   */
  method ConnectEmitReconnect<S, T(==)>(state: SelectState<S, T>, e: S)
    requires state.Valid() && state.serviceContext.context.service.Valid()
    modifies state, state.serviceContext, state.host, state.BoundActor()
    modifies state.serviceContext.context.service, state.serviceContext.context.service.Listeners()
    modifies state.serviceContext.context.service.Hosts()
    ensures state.Valid() && state.serviceContext.connected && LiveCount(state.inners) == 1
    ensures |state.inners| == |old(state.inners)| + 2
  {
    state.HostConnected();
    EmitToService(state, e);
    state.HostConnected();
  }

  /** An emission of the service the context provides keeps the invariant of a `SelectState`. */
  method EmitToService<S, T(==)>(state: SelectState<S, T>, e: S)
    requires state.Valid() && state.serviceContext.context.service.Valid()
    modifies state.serviceContext.context.service, state.serviceContext.context.service.Listeners()
    modifies state.serviceContext.context.service.Hosts()
    ensures state.Valid() && state.serviceContext.context.service.Valid()
  {
    var service := state.serviceContext.Service();
    label Emitted:
    service.Emit(e);
    state.StaysValid@Emitted();
  }

  /** The projection `s => s.count` on a numeric state, undefined counting as minus one. */
  function Count(snapshot: Option<int>): int
  {
    if snapshot.Some? then snapshot.value else -1
  }

  /** A fresh host, a running service at state 0 provided by a context, and a `SelectState` selecting `Count` that has not connected yet. */
  method FreshState() returns (host: Host, actor: Actor<int, int>, state: SelectState<int, int>)
    ensures fresh(host) && fresh(actor) && fresh(state) && fresh(state.serviceContext) && host.updateRequests == 0
    ensures actor.Valid() && actor.listeners == [] && actor.live == {}
    ensures actor.ref == ActorRef(Some(0), Some(Machine(0)), 1, 0)
    ensures state.Valid() && state.inners == [] && state.host == host && state.serviceContext.context.service == actor
    ensures state.selector == Count && state.compare == Comparators.DefaultCompare
  {
    host := new Host();
    actor := new Actor<int, int>(ActorRef(Some(0), Some(Machine(0)), 1, 0));
    var context := new Context(actor);
    state := new SelectState(context, host, Count);
  }

  /** A fresh host, a running service at state 0 provided by a context, and a connected `SelectState` selecting `Count`. */
  method ConnectedState() returns (host: Host, actor: Actor<int, int>, state: SelectState<int, int>, inner: SelectorController<int, int>)
    ensures fresh(host) && fresh(actor) && fresh(state) && fresh(inner) && host.updateRequests == 0
    ensures actor.Valid() && actor.listeners == [inner] && actor.live == {inner.subscription}
    ensures actor.ref == ActorRef(Some(0), Some(Machine(0)), 1, 0)
    ensures inner.host == host && inner.actor == actor && inner.selector == Count
    ensures inner.compare == Comparators.DefaultCompare && inner.selected == 0
    ensures state.Valid() && state.inners == [inner] && state.host == host && state.serviceContext.context.service == actor
    ensures state.selector == Count && state.compare == Comparators.DefaultCompare
  {
    host, actor, state := FreshState();
    state.HostConnected();
    inner := state.selectorController.value;
  }

  /** `ConnectedState` followed by a second `hostConnected`, without a `hostDisconnected` in between. */
  method ReconnectedState() returns (host: Host, actor: Actor<int, int>, state: SelectState<int, int>, first: SelectorController<int, int>, second: SelectorController<int, int>)
    ensures fresh(host) && fresh(actor) && host.updateRequests == 0
    ensures actor.Valid() && actor.listeners == [first, second] && actor.live == {1}
    ensures first.host == host && first.selector == Count && first.compare == Comparators.DefaultCompare && first.selected == 0
    ensures second.host == host && second.selector == Count && second.compare == Comparators.DefaultCompare && second.selected == 0
    ensures state.selectorController == Some(second)
  {
    host, actor, state, first := ConnectedState();
    state.HostConnected();
    second := state.selectorController.value;
    assert actor.listeners[1] == second;
  }

  /**
   * `hostConnected` twice without a `hostDisconnected` in between leaves one
   * live subscription: the next change reaches the host as one update
   * request, not two.
   */
  method ReconnectScenario() returns (updates: nat, value: Option<int>)
    ensures updates == 1 && value == Some(1)
  {
    var host, actor, state, first, second := ReconnectedState();
    ghost var slots := actor.Slots();
    assert actor.listeners[0] == first && actor.listeners[1] == second;
    assert slots == [Slot(host, false, 0, Count, Comparators.DefaultCompare), Slot(host, true, 0, Count, Comparators.DefaultCompare)];
    RequestsOfOne(host, slots[0], [Some(1)]);
    RequestsPrefix(host, slots, 1, [Some(1)]);
    assert slots[..2] == slots;
    RunOne(0, Some(1), Count, Comparators.DefaultCompare);
    actor.Emit(1);
    assert actor.listeners[1].host == host;
    updates, value := host.updateRequests, state.Value();
  }

  /**
   * The comparator is fixed when an inner controller is created: set to
   * "always equal" after the connection, it does not stop the live
   * controller from taking 1.
   */
  method CompareScenario() returns (updates: nat, value: Option<int>)
    ensures updates == 1 && value == Some(1)
  {
    var host, actor, state, inner := ConnectedState();
    state.compare := (a: int, b: int) => true;
    ghost var slot := Slot(host, true, 0, Count, Comparators.DefaultCompare);
    assert actor.Slots() == [slot];
    RequestsOfOne(host, slot, [Some(1)]);
    RunOne(0, Some(1), Count, Comparators.DefaultCompare);
    actor.Emit(1);
    assert actor.listeners[0].host == host;
    updates, value := host.updateRequests, state.Value();
  }

  /**
   * After `hostDisconnected` the value is still the last one taken, and a
   * further emission requests nothing.
   */
  method DisconnectScenario() returns (updates: nat, value: Option<int>)
    ensures updates == 0 && value == Some(0)
  {
    var host, actor, state, inner := ConnectedState();
    state.HostDisconnected();
    ghost var slot := Slot(host, false, 0, Count, Comparators.DefaultCompare);
    assert actor.Slots() == [slot];
    RequestsOfOne(host, slot, [Some(1)]);
    actor.Emit(1);
    assert actor.listeners[0].host == host;
    updates, value := host.updateRequests, state.Value();
  }
}
