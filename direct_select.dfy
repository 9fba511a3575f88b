/**
 * The controller of src/selector-controller.ts: it reads the initial value
 * with `actorRef.getSnapshot()` and then follows the actor's emissions,
 * asking its host for an update only when the comparator reports a change.
 *
 * The actor is the collaborator XState provides. Here it is a class with
 * a current snapshot, the listeners that subscribed to it (the listener
 * with subscription id `i` is `listeners[i]`) and the set of ids still
 * subscribed; `Emit` is the actor's notification loop.
 */
module DirectSelect {
  import opened Lit
  import opened Gating
  import Comparators

  class Actor<S, T(==)> {
    /** What `getSnapshot()` returns. */
    var snapshot: S
    /** Every listener that ever subscribed, indexed by its subscription id. */
    var listeners: seq<SelectorController<S, T>>
    /** The subscription ids not yet unsubscribed. */
    var live: set<nat>

    ghost predicate Valid()
      reads this
    {
      && (forall id | id in live :: id < |listeners|)
      && (forall i | 0 <= i < |listeners| :: listeners[i].actor == this && listeners[i].subscription == i)
    }

    ghost function Listeners(): set<SelectorController<S, T>>
      reads this
    {
      set c | c in listeners
    }

    ghost function Hosts(): set<Host>
      reads this
    {
      set c | c in listeners :: c.host
    }

    /** Each listener as the change-gating semantics sees it. */
    ghost function Slots(): (r: seq<Slot<S, T>>)
      reads this, Listeners()
      ensures |r| == |listeners|
    {
      seq(|listeners|, i requires 0 <= i < |listeners| reads this, Listeners() =>
        Slot(listeners[i].host, i in live, listeners[i].selected, listeners[i].selector, listeners[i].compare))
    }

    constructor (initial: S)
      ensures Valid() && snapshot == initial && listeners == [] && live == {}
    {
      snapshot, listeners, live := initial, [], {};
    }

    /** `getSnapshot()`. */
    function GetSnapshot(): S
      reads this
    {
      snapshot
    }

    /** `subscribe(listener)`: the listener gets the next id, which becomes live. */
    method Subscribe(listener: SelectorController<S, T>)
      requires Valid() && listener.actor == this && listener.subscription == |listeners|
      modifies this`listeners, this`live
      ensures Valid()
      ensures listeners == old(listeners) + [listener]
      ensures live == old(live) + {listener.subscription}
    {
      listeners := listeners + [listener];
      live := live + {listener.subscription};
    }

    /** `subscription.unsubscribe()`: removing the id, so a second call changes nothing. */
    method Unsubscribe(id: nat)
      modifies this`live
      ensures live == old(live) - {id}
      ensures old(Valid()) ==> Valid()
    {
      live := live - {id};
    }

    /**
     * A transition to snapshot `e`: every live listener's callback runs on
     * `e`, in subscription order; unsubscribed listeners are not called.
     */
    method Emit(e: S)
      requires Valid()
      modifies this, Listeners(), Hosts()
      ensures Valid() && snapshot == e && listeners == old(listeners) && live == old(live)
      ensures Slots() == AdvanceAll(old(Slots()), [e])
      ensures forall j | 0 <= j < |listeners| :: var h := listeners[j].host;
        h.updateRequests == old(h.updateRequests) + Requests(h, old(Slots()), [e]) && h.controllers == old(h.controllers)
    {
      ghost var before := Slots();
      snapshot := e;
      Notify(e, before);
      assert forall j | 0 <= j < |listeners| :: Slots()[j] == AdvanceAll(before, [e])[j];
    }

    /**
     * A run of transitions, one `Emit` after another: each host's update
     * requests add up to what the emissions `es` ask of it as a whole, and
     * every listener ends where `es` takes it.
     */
    method EmitEach(es: seq<S>)
      requires Valid()
      modifies this, Listeners(), Hosts()
      ensures Valid() && listeners == old(listeners) && live == old(live)
      ensures snapshot == if es == [] then old(snapshot) else es[|es| - 1]
      ensures Slots() == AdvanceAll(old(Slots()), es)
      ensures forall j | 0 <= j < |listeners| :: var h := listeners[j].host;
        h.updateRequests == old(h.updateRequests) + Requests(h, old(Slots()), es) && h.controllers == old(h.controllers)
    {
      ghost var before := Slots();
      forall h: Host
        ensures AdvanceAll(before, []) == before && Requests(h, before, []) == 0
      {
        NoEmissions(h, before);
      }
      var k := 0;
      while k < |es|
        invariant 0 <= k <= |es|
        invariant Valid() && listeners == old(listeners) && live == old(live)
        invariant snapshot == if k == 0 then old(snapshot) else es[k - 1]
        invariant Slots() == AdvanceAll(before, es[..k])
        invariant forall j | 0 <= j < |listeners| :: var h := listeners[j].host;
          h.updateRequests == old(h.updateRequests) + Requests(h, before, es[..k]) && h.controllers == old(h.controllers)
      {
        AdvanceAllSnoc(before, es[..k], es[k]);
        RequestsSnocAll(before, es[..k], es[k]);
        assert es[..k + 1] == es[..k] + [es[k]];
        Emit(es[k]);
        k := k + 1;
      }
      assert es[..k] == es;
    }

    /** The notification loop: the callbacks of the live listeners run on `e`, in subscription order. */
    method Notify(e: S, ghost before: seq<Slot<S, T>>)
      requires Valid() && before == Slots()
      modifies Listeners(), Hosts()
      ensures listeners == old(listeners) && live == old(live)
      ensures forall j | 0 <= j < |listeners| :: listeners[j].selected == Advance(before[j], [e]).selected
      ensures forall j | 0 <= j < |listeners| :: var h := listeners[j].host;
        h.updateRequests == old(h.updateRequests) + Requests(h, before, [e]) && h.controllers == old(h.controllers)
    {
      var i := 0;
      while i < |listeners|
        invariant 0 <= i <= |listeners|
        invariant forall j | 0 <= j < |listeners| ::
          listeners[j].selected == (if j < i then Advance(before[j], [e]) else before[j]).selected
        invariant forall j | 0 <= j < |listeners| :: var h := listeners[j].host;
          h.updateRequests == old(h.updateRequests) + Requests(h, before[..i], [e]) && h.controllers == old(h.controllers)
      {
        RequestsPrefixAll(before, i, [e]);
        Deliver(i, e, before);
        i := i + 1;
      }
      assert before[..i] == before;
    }

    /** One step of the notification loop: listener `i` is called if its subscription is live. */
    method Deliver(i: nat, e: S, ghost before: seq<Slot<S, T>>)
      requires Valid() && i < |listeners| && |before| == |listeners|
      requires before[i] == Slot(listeners[i].host, i in live, listeners[i].selected, listeners[i].selector, listeners[i].compare)
      modifies listeners[i], listeners[i].host
      ensures listeners[i].selected == Advance(before[i], [e]).selected
      ensures forall j | 0 <= j < |listeners| && j != i :: listeners[j].selected == old(listeners[j].selected)
      ensures forall j | 0 <= j < |listeners| :: var h := listeners[j].host;
        h.updateRequests == old(h.updateRequests) + Share(h, before[i], [e]) && h.controllers == old(h.controllers)
    {
      var c := listeners[i];
      RunOne(before[i].selected, e, c.selector, c.compare);
      if i in live {
        c.OnEmit(e);
      }
      assert forall j | 0 <= j < |listeners| && j != i :: listeners[j] != c by {
        forall j | 0 <= j < |listeners| && j != i ensures listeners[j] != c {
          assert listeners[j].subscription == j;
        }
      }
    }
  }

  class SelectorController<S, T(==)> {
    const host: Host
    const actor: Actor<S, T>
    const selector: S -> T
    const compare: (T, T) -> bool
    /** The id `actorRef.subscribe` handed out: the `subscription` field. */
    const subscription: nat
    /** The last accepted projection: the `selected` field. */
    var selected: T

    /**
     * Registers with the host, stores the projection of the actor's current
     * snapshot and subscribes. No update is requested.
     */
    constructor (host: Host, actorRef: Actor<S, T>, selector: S -> T, compare: (T, T) -> bool := Comparators.DefaultCompare)
      requires actorRef.Valid()
      modifies host`controllers, actorRef`listeners, actorRef`live
      ensures this.host == host && actor == actorRef && this.selector == selector && this.compare == compare
      ensures Value() == selector(actorRef.GetSnapshot())
      ensures host.controllers == old(host.controllers) + [this] && this !in old(host.controllers)
      ensures host.updateRequests == old(host.updateRequests)
      ensures actorRef.Valid() && actorRef.listeners == old(actorRef.listeners) + [this]
      ensures actorRef.live == old(actorRef.live) + {subscription} && subscription == |old(actorRef.listeners)|
    {
      this.host := host;
      this.actor := actorRef;
      this.selector := selector;
      this.compare := compare;
      selected := selector(actorRef.GetSnapshot());
      subscription := |actorRef.listeners|;
      new;
      host.AddController(this);
      actorRef.Subscribe(this);
    }

    /** The subscription callback on the emitted snapshot `e`. */
    method OnEmit(e: S)
      modifies this`selected, host`updateRequests
      ensures !compare(old(selected), selector(e)) ==>
        selected == selector(e) && host.updateRequests == old(host.updateRequests) + 1
      ensures compare(old(selected), selector(e)) ==>
        selected == old(selected) && host.updateRequests == old(host.updateRequests)
    {
      var nextSelected := selector(e);
      if !compare(selected, nextSelected) {
        selected := nextSelected;
        host.RequestUpdate();
      }
    }

    /** The `value` getter. */
    function Value(): T
      reads this
    {
      selected
    }

    /** `hostDisconnected()`: unsubscribes; calling it again changes nothing more. */
    method HostDisconnected()
      modifies actor`live
      ensures actor.live == old(actor.live) - {subscription}
      ensures subscription !in actor.live
      ensures old(actor.Valid()) ==> actor.Valid()
    {
      actor.Unsubscribe(subscription);
    }
  }

  /** `connectSelector`: the same as constructing the controller. */
  method ConnectSelector<S, T(==)>(host: Host, actorRef: Actor<S, T>, selector: S -> T, compare: (T, T) -> bool := Comparators.DefaultCompare)
    returns (c: SelectorController<S, T>)
    requires actorRef.Valid()
    modifies host`controllers, actorRef`listeners, actorRef`live
    ensures fresh(c)
    ensures c.host == host && c.actor == actorRef && c.selector == selector && c.compare == compare
    ensures c.Value() == selector(actorRef.GetSnapshot())
    ensures host.controllers == old(host.controllers) + [c] && host.updateRequests == old(host.updateRequests)
    ensures actorRef.Valid() && actorRef.listeners == old(actorRef.listeners) + [c]
    ensures actorRef.live == old(actorRef.live) + {c.subscription} && c.subscription == |old(actorRef.listeners)|
  {
    c := new SelectorController(host, actorRef, selector, compare);
  }

  /** A snapshot with a counter, as in the scenario below. */
  datatype Counter = Counter(count: int)

  /** A fresh host and actor at `{count: 0}`, and a controller selecting `s => s.count` with `===`. */
  method CounterStart() returns (host: Host, actor: Actor<Counter, int>, c: SelectorController<Counter, int>)
    ensures fresh(host) && fresh(actor) && host.updateRequests == 0
    ensures actor.Valid() && actor.listeners == [c] && actor.live == {0}
    ensures c.host == host && c.selector == ((s: Counter) => s.count) && c.compare == Comparators.DefaultCompare<int> && c.selected == 0
  {
    host := new Host();
    actor := new Actor<Counter, int>(Counter(0));
    c := new SelectorController(host, actor, (s: Counter) => s.count);
  }

  /**
   * Start at `{count: 0}` with selector `s => s.count` and `===`: emitting
   * `{count: 0}` requests nothing and keeps 0; emitting `{count: 1}` requests
   * one update and stores 1; after `hostDisconnected`, emitting `{count: 2}`
   * requests nothing and the value stays 1.
   */
  method CounterScenario() returns (value0: int, updates0: nat, value1: int, updates1: nat, value2: int, updates2: nat)
    ensures value0 == 0 && updates0 == 0
    ensures value1 == 1 && updates1 == 1
    ensures value2 == 1 && updates2 == 1
  {
    var host, actor, c := CounterStart();
    var select := (s: Counter) => s.count;
    var same := Comparators.DefaultCompare<int>;

    ghost var slot := Slot(host, true, 0, select, same);
    assert actor.Slots() == [slot];
    RequestsOfOne(host, slot, [Counter(0)]);
    RunOne(0, Counter(0), select, same);
    actor.Emit(Counter(0));
    assert actor.listeners[0] == c;
    value0, updates0 := c.Value(), host.updateRequests;

    assert actor.Slots() == [slot];
    RequestsOfOne(host, slot, [Counter(1)]);
    RunOne(0, Counter(1), select, same);
    actor.Emit(Counter(1));
    assert actor.listeners[0] == c;
    value1, updates1 := c.Value(), host.updateRequests;

    c.HostDisconnected();
    slot := Slot(host, false, 1, select, same);
    assert actor.Slots() == [slot];
    RequestsOfOne(host, slot, [Counter(2)]);
    actor.Emit(Counter(2));
    assert actor.listeners[0] == c;
    value2, updates2 := c.Value(), host.updateRequests;
  }
}
