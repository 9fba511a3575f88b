/**
 * The controller of src/select-controller.ts. It is the controller of
 * src/selector-controller.ts except for the initial value, which comes from
 * a snapshot dispatch on the shape of the actor reference: a running
 * service, a service not yet started, an actor with a `state` property, or
 * none of these.
 *
 * The runtime probes `'state' in actor` and `'machine' in actor` become
 * optional fields of the `ActorRef` datatype. Since the dispatch can yield
 * `undefined`, the selector of this variant is a function on `Option<S>`;
 * emissions reach it as `Some(e)`.
 */
module ServiceSelect {
  import opened Wrappers
  import opened Lit
  import opened Gating
  import Comparators

  /** A state machine, reduced to its `initialState`. */
  datatype Machine<S> = Machine(initialState: S)

  /**
   * What the dispatch can see of an actor reference: the `state` and
   * `machine` properties where present, the interpreter `status` (0 is
   * "not started") and what `getSnapshot()` returns.
   */
  datatype ActorRef<S> = ActorRef(state: Option<S>, machine: Option<Machine<S>>, status: int, snapshot: S)

  /** `isService`: the reference has both a `state` and a `machine` property. */
  predicate IsService<S>(actor: ActorRef<S>)
  {
    actor.state.Some? && actor.machine.Some?
  }

  /** `isActorWithState`: the reference has a `state` property. */
  predicate IsActorWithState<S>(actorRef: ActorRef<S>)
  {
    actorRef.state.Some?
  }

  /** `getServiceSnapshot`: a started service's `getSnapshot()`, else its machine's initial state. */
  function GetServiceSnapshot<S>(service: ActorRef<S>): S
    requires IsService(service)
  {
    if service.status != 0 then service.snapshot else service.machine.value.initialState
  }

  /** `getSnapshot`: the dispatch on the actor's shape; `None` is `undefined`. */
  function GetSnapshot<S>(actorRef: ActorRef<S>): (r: Option<S>)
    ensures r.Some? <==> IsActorWithState(actorRef)
    ensures IsService(actorRef) ==> r == Some(GetServiceSnapshot(actorRef))
    ensures !IsService(actorRef) ==> r == actorRef.state
  {
    if IsService(actorRef) then Some(GetServiceSnapshot(actorRef))
    else if IsActorWithState(actorRef) then actorRef.state
    else None
  }

  /** The four outcomes of the dispatch, in terms of the reference's fields. */
  lemma GetSnapshotCases<S>(a: ActorRef<S>)
    ensures a.state.Some? && a.machine.Some? && a.status != 0 ==> GetSnapshot(a) == Some(a.snapshot)
    ensures a.state.Some? && a.machine.Some? && a.status == 0 ==> GetSnapshot(a) == Some(a.machine.value.initialState)
    ensures a.state.Some? && a.machine.None? ==> GetSnapshot(a) == a.state
    ensures a.state.None? ==> GetSnapshot(a) == None
  {
  }

  /**
   * The reference after a transition whose new state is `e`: `getSnapshot()`
   * and, where present, the `state` property read `e`; `machine` and
   * `status` are unchanged.
   */
  function Transitioned<S>(a: ActorRef<S>, e: S): (r: ActorRef<S>)
    ensures IsService(r) == IsService(a) && IsActorWithState(r) == IsActorWithState(a)
    ensures IsActorWithState(a) && (IsService(a) ==> a.status != 0) ==> GetSnapshot(r) == Some(e)
  {
    a.(snapshot := e, state := if a.state.Some? then Some(e) else None)
  }

  class Actor<S, T(==)> {
    /** The actor reference's current shape. */
    var ref: ActorRef<S>
    /** Every listener that ever subscribed, indexed by its subscription id. */
    var listeners: seq<SelectorController<S, T>>
    /** The subscription ids not yet unsubscribed. */
    var live: set<nat>

    ghost predicate Valid()
      reads this
    {
      && (forall id | id in live :: id < |listeners|)
      && (forall i | 0 <= i < |listeners| :: listeners[i].actor == this && listeners[i].subscription == i)
    }

    ghost function Listeners(): set<SelectorController<S, T>>
      reads this
    {
      set c | c in listeners
    }

    ghost function Hosts(): set<Host>
      reads this
    {
      set c | c in listeners :: c.host
    }

    /** Each listener as the change-gating semantics sees it. */
    ghost function Slots(): (r: seq<Slot<Option<S>, T>>)
      reads this, Listeners()
      ensures |r| == |listeners|
    {
      seq(|listeners|, i requires 0 <= i < |listeners| reads this, Listeners() =>
        Slot(listeners[i].host, i in live, listeners[i].selected, listeners[i].selector, listeners[i].compare))
    }

    constructor (initial: ActorRef<S>)
      ensures Valid() && ref == initial && listeners == [] && live == {}
    {
      ref, listeners, live := initial, [], {};
    }

    /** `subscribe(listener)`: the listener gets the next id, which becomes live. */
    method Subscribe(listener: SelectorController<S, T>)
      requires Valid() && listener.actor == this && listener.subscription == |listeners|
      modifies this`listeners, this`live
      ensures Valid()
      ensures listeners == old(listeners) + [listener]
      ensures live == old(live) + {listener.subscription}
    {
      listeners := listeners + [listener];
      live := live + {listener.subscription};
    }

    /** `subscription.unsubscribe()`: removing the id, so a second call changes nothing. */
    method Unsubscribe(id: nat)
      modifies this`live
      ensures live == old(live) - {id}
      ensures old(Valid()) ==> Valid()
    {
      live := live - {id};
    }

    /**
     * A transition to state `e`: every live listener's callback runs on
     * `e`, in subscription order; unsubscribed listeners are not called.
     */
    method Emit(e: S)
      requires Valid()
      modifies this, Listeners(), Hosts()
      ensures Valid() && ref == Transitioned(old(ref), e) && listeners == old(listeners) && live == old(live)
      ensures Slots() == AdvanceAll(old(Slots()), [Some(e)])
      ensures forall j | 0 <= j < |listeners| :: var h := listeners[j].host;
        h.updateRequests == old(h.updateRequests) + Requests(h, old(Slots()), [Some(e)]) && h.controllers == old(h.controllers)
    {
      ghost var before := Slots();
      ref := Transitioned(ref, e);
      Notify(e, before);
      assert forall j | 0 <= j < |listeners| :: Slots()[j] == AdvanceAll(before, [Some(e)])[j];
    }

    /** The notification loop: the callbacks of the live listeners run on `e`, in subscription order. */
    method Notify(e: S, ghost before: seq<Slot<Option<S>, T>>)
      requires Valid() && before == Slots()
      modifies Listeners(), Hosts()
      ensures listeners == old(listeners) && live == old(live)
      ensures forall j | 0 <= j < |listeners| :: listeners[j].selected == Advance(before[j], [Some(e)]).selected
      ensures forall j | 0 <= j < |listeners| :: var h := listeners[j].host;
        h.updateRequests == old(h.updateRequests) + Requests(h, before, [Some(e)]) && h.controllers == old(h.controllers)
    {
      var i := 0;
      while i < |listeners|
        invariant 0 <= i <= |listeners|
        invariant forall j | 0 <= j < |listeners| ::
          listeners[j].selected == (if j < i then Advance(before[j], [Some(e)]) else before[j]).selected
        invariant forall j | 0 <= j < |listeners| :: var h := listeners[j].host;
          h.updateRequests == old(h.updateRequests) + Requests(h, before[..i], [Some(e)]) && h.controllers == old(h.controllers)
      {
        RequestsPrefixAll(before, i, [Some(e)]);
        Deliver(i, e, before);
        i := i + 1;
      }
      assert before[..i] == before;
    }

    /** One step of the notification loop: listener `i` is called if its subscription is live. */
    method Deliver(i: nat, e: S, ghost before: seq<Slot<Option<S>, T>>)
      requires Valid() && i < |listeners| && |before| == |listeners|
      requires before[i] == Slot(listeners[i].host, i in live, listeners[i].selected, listeners[i].selector, listeners[i].compare)
      modifies listeners[i], listeners[i].host
      ensures listeners[i].selected == Advance(before[i], [Some(e)]).selected
      ensures forall j | 0 <= j < |listeners| && j != i :: listeners[j].selected == old(listeners[j].selected)
      ensures forall j | 0 <= j < |listeners| :: var h := listeners[j].host;
        h.updateRequests == old(h.updateRequests) + Share(h, before[i], [Some(e)]) && h.controllers == old(h.controllers)
    {
      var c := listeners[i];
      RunOne(before[i].selected, Some(e), c.selector, c.compare);
      if i in live {
        c.OnEmit(e);
      }
      assert forall j | 0 <= j < |listeners| && j != i :: listeners[j] != c by {
        forall j | 0 <= j < |listeners| && j != i ensures listeners[j] != c {
          assert listeners[j].subscription == j;
        }
      }
    }
  }

  class SelectorController<S, T(==)> {
    const host: Host
    const actor: Actor<S, T>
    const selector: Option<S> -> T
    const compare: (T, T) -> bool
    /** The id `actorRef.subscribe` handed out: the `subscription` field. */
    const subscription: nat
    /** The last accepted projection: the `selected` field. */
    var selected: T

    /**
     * Registers with the host, stores the projection of the dispatched
     * snapshot and subscribes. No update is requested.
     */
    constructor (host: Host, actorRef: Actor<S, T>, selector: Option<S> -> T, compare: (T, T) -> bool := Comparators.DefaultCompare)
      requires actorRef.Valid()
      modifies host`controllers, actorRef`listeners, actorRef`live
      ensures this.host == host && actor == actorRef && this.selector == selector && this.compare == compare
      ensures Value() == selector(GetSnapshot(actorRef.ref))
      ensures host.controllers == old(host.controllers) + [this] && this !in old(host.controllers)
      ensures host.updateRequests == old(host.updateRequests)
      ensures actorRef.Valid() && actorRef.listeners == old(actorRef.listeners) + [this]
      ensures actorRef.live == old(actorRef.live) + {subscription} && subscription == |old(actorRef.listeners)|
    {
      this.host := host;
      this.actor := actorRef;
      this.selector := selector;
      this.compare := compare;
      selected := selector(GetSnapshot(actorRef.ref));
      subscription := |actorRef.listeners|;
      new;
      host.AddController(this);
      actorRef.Subscribe(this);
    }

    /** The subscription callback on the emitted state `e`. */
    method OnEmit(e: S)
      modifies this`selected, host`updateRequests
      ensures !compare(old(selected), selector(Some(e))) ==>
        selected == selector(Some(e)) && host.updateRequests == old(host.updateRequests) + 1
      ensures compare(old(selected), selector(Some(e))) ==>
        selected == old(selected) && host.updateRequests == old(host.updateRequests)
    {
      var nextSelected := selector(Some(e));
      if !compare(selected, nextSelected) {
        selected := nextSelected;
        host.RequestUpdate();
      }
    }

    /** The `value` getter. */
    function Value(): T
      reads this
    {
      selected
    }

    /** `hostDisconnected()`: unsubscribes; calling it again changes nothing more. */
    method HostDisconnected()
      modifies actor`live
      ensures actor.live == old(actor.live) - {subscription}
      ensures subscription !in actor.live
      ensures old(actor.Valid()) ==> actor.Valid()
    {
      actor.Unsubscribe(subscription);
    }
  }

  /** `connectSelector`: the same as constructing the controller. */
  method ConnectSelector<S, T(==)>(host: Host, actorRef: Actor<S, T>, selector: Option<S> -> T, compare: (T, T) -> bool := Comparators.DefaultCompare)
    returns (c: SelectorController<S, T>)
    requires actorRef.Valid()
    modifies host`controllers, actorRef`listeners, actorRef`live
    ensures fresh(c)
    ensures c.host == host && c.actor == actorRef && c.selector == selector && c.compare == compare
    ensures c.Value() == selector(GetSnapshot(actorRef.ref))
    ensures host.controllers == old(host.controllers) + [c] && host.updateRequests == old(host.updateRequests)
    ensures actorRef.Valid() && actorRef.listeners == old(actorRef.listeners) + [c]
    ensures actorRef.live == old(actorRef.live) + {c.subscription} && c.subscription == |old(actorRef.listeners)|
  {
    c := new SelectorController(host, actorRef, selector, compare);
  }
}
