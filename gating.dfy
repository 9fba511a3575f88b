/**
 * The meaning of the subscription callback that both controller variants
 * install (src/select-controller.ts:54-60, src/selector-controller.ts:27-33),
 * as pure functions: one emission, a run of emissions, and the update
 * requests a host receives from all the controllers listening to an actor.
 */
module Gating {
  import Lit

  /** What one emission does: the stored value afterwards and whether the host was asked to update. */
  datatype Reaction<T> = Reaction(selected: T, requested: bool)

  /** The callback on one emission whose projection is `next`. */
  function React<T>(selected: T, next: T, compare: (T, T) -> bool): Reaction<T>
  {
    if compare(selected, next) then Reaction(selected, false) else Reaction(next, true)
  }

  /** The stored value after a run of emissions and how many updates the run requested. */
  datatype Tally<T> = Tally(selected: T, requests: nat)

  /** The callback applied to the emissions `es` in order, starting from the stored value `selected`. */
  function Run<S, T>(selected: T, es: seq<S>, selector: S -> T, compare: (T, T) -> bool): Tally<T>
    decreases |es|
  {
    if es == [] then Tally(selected, 0)
    else
      var before := Run(selected, es[..|es| - 1], selector, compare);
      var r := React(before.selected, selector(es[|es| - 1]), compare);
      Tally(r.selected, before.requests + if r.requested then 1 else 0)
  }

  /** A run of one emission is one callback. */
  lemma RunOne<S, T>(selected: T, e: S, selector: S -> T, compare: (T, T) -> bool)
    ensures var r := React(selected, selector(e), compare);
      Run(selected, [e], selector, compare) == Tally(r.selected, if r.requested then 1 else 0)
  {
    assert [e][..0] == [];
  }

  /** Extending a run by one emission is one more callback on the run's stored value. */
  lemma RunSnoc<S, T>(selected: T, es: seq<S>, e: S, selector: S -> T, compare: (T, T) -> bool)
    ensures var before := Run(selected, es, selector, compare);
      var r := React(before.selected, selector(e), compare);
      Run(selected, es + [e], selector, compare) == Tally(r.selected, before.requests + if r.requested then 1 else 0)
  {
    assert (es + [e])[..|es|] == es;
  }

  /** At most one update is requested per emission. */
  lemma {:induction false} RunRequestsAtMostOnePerEmission<S, T>(selected: T, es: seq<S>, selector: S -> T, compare: (T, T) -> bool)
    ensures Run(selected, es, selector, compare).requests <= |es|
    decreases |es|
  {
    if es != [] {
      RunRequestsAtMostOnePerEmission(selected, es[..|es| - 1], selector, compare);
    }
  }

  /** The projections of a run of emissions. */
  function Project<S, T>(es: seq<S>, selector: S -> T): (vs: seq<T>)
    ensures |vs| == |es| && forall i | 0 <= i < |es| :: vs[i] == selector(es[i])
  {
    seq(|es|, i requires 0 <= i < |es| => selector(es[i]))
  }

  /** The last of `first` followed by `vs`. */
  function Last<T>(first: T, vs: seq<T>): T
  {
    if vs == [] then first else vs[|vs| - 1]
  }

  /**
   * The number of positions where `vs` differs from the value before it,
   * `first` standing before `vs[0]`: the re-renders a change-driven UI
   * needs for the projections `vs` after an initial projection `first`.
   */
  ghost function Changes<T>(first: T, vs: seq<T>): nat
    decreases |vs|
  {
    if vs == [] then 0
    else Changes(first, vs[..|vs| - 1]) + if vs[|vs| - 1] != Last(first, vs[..|vs| - 1]) then 1 else 0
  }

  /**
   * The number of positions where `vs` is not `compare`-equal to the value
   * before it, `first` standing before `vs[0]`.
   */
  ghost function ChangesBy<T>(first: T, vs: seq<T>, compare: (T, T) -> bool): nat
    decreases |vs|
  {
    if vs == [] then 0
    else ChangesBy(first, vs[..|vs| - 1], compare) + if !compare(Last(first, vs[..|vs| - 1]), vs[|vs| - 1]) then 1 else 0
  }

  /**
   * With an equivalence (a reflexive, symmetric and transitive comparator,
   * as `===` and every deep-equality comparator are), the stored value is always
   * equivalent to the projection of the latest emission, and an update is
   * requested exactly when a projection is not equivalent to the previous
   * one (the initial snapshot's projection counting as the first). The
   * stored value may be an older, equivalent projection; the count never lags.
   */
  lemma {:induction false} RunWithEquivalence<S, T>(first: T, es: seq<S>, selector: S -> T, compare: (T, T) -> bool)
    requires forall a :: compare(a, a)
    requires forall a, b :: compare(a, b) ==> compare(b, a)
    requires forall a, b, c {:trigger compare(a, b), compare(b, c)} :: compare(a, b) && compare(b, c) ==> compare(a, c)
    ensures compare(Run(first, es, selector, compare).selected, Last(first, Project(es, selector)))
    ensures Run(first, es, selector, compare).requests == ChangesBy(first, Project(es, selector), compare)
    decreases |es|
  {
    if es != [] {
      var init := es[..|es| - 1];
      RunWithEquivalence(first, init, selector, compare);
      assert Project(es, selector)[..|es| - 1] == Project(init, selector);
      var stored, prev, next := Run(first, init, selector, compare).selected, Last(first, Project(init, selector)), selector(es[|es| - 1]);
      assert compare(stored, prev);
      assert compare(prev, stored);
      assert compare(stored, next) ==> compare(prev, next) by {
        if compare(stored, next) {
          Transitive(compare, prev, stored, next);
        }
      }
      assert compare(prev, next) ==> compare(stored, next) by {
        if compare(prev, next) {
          Transitive(compare, stored, prev, next);
        }
      }
    }
  }

  /** One step of transitivity. */
  lemma Transitive<T>(compare: (T, T) -> bool, x: T, y: T, z: T)
    requires forall a, b, c {:trigger compare(a, b), compare(b, c)} :: compare(a, b) && compare(b, c) ==> compare(a, c)
    requires compare(x, y) && compare(y, z)
    ensures compare(x, z)
  {
  }

  /** Under `==`, counting changes by the comparator is counting changes. */
  lemma {:induction false} ChangesByIdentity<T>(first: T, vs: seq<T>, compare: (T, T) -> bool)
    requires forall a, b :: compare(a, b) <==> a == b
    ensures ChangesBy(first, vs, compare) == Changes(first, vs)
    decreases |vs|
  {
    if vs != [] {
      ChangesByIdentity(first, vs[..|vs| - 1], compare);
    }
  }

  /**
   * With `===` as the comparator the stored value is always the projection
   * of the latest emission, and an update is requested exactly when the
   * projection differs from the previous one (the initial snapshot's
   * projection counting as the first).
   */
  lemma RunWithIdentity<S, T>(first: T, es: seq<S>, selector: S -> T, compare: (T, T) -> bool)
    requires forall a, b :: compare(a, b) <==> a == b
    ensures Run(first, es, selector, compare) == Tally(Last(first, Project(es, selector)), Changes(first, Project(es, selector)))
  {
    RunWithEquivalence(first, es, selector, compare);
    ChangesByIdentity(first, Project(es, selector), compare);
  }

  /**
   * With a comparator that also equates some distinct values, the stored
   * value can lag behind the latest emission: with a comparator that is
   * always true, emitting 1 after a start at 0 keeps 0 and requests nothing.
   */
  lemma StoredValueCanLag()
    ensures Run(0, [1], (x: int) => x, (a: int, b: int) => true) == Tally(0, 0)
  {
    RunOne(0, 1, (x: int) => x, (a: int, b: int) => true);
  }

  /** One listener's part in an emission: its host, whether its subscription is live, its stored value, selector and comparator. */
  datatype Slot<!S, !T> = Slot(host: Lit.Host, live: bool, selected: T, selector: S -> T, compare: (T, T) -> bool)

  /** A listener after the emissions `es`: only a live one runs its callback. */
  function Advance<S, T>(slot: Slot<S, T>, es: seq<S>): Slot<S, T>
  {
    if slot.live then slot.(selected := Run(slot.selected, es, slot.selector, slot.compare).selected) else slot
  }

  /** All listeners after the emissions `es`. */
  function AdvanceAll<S, T>(slots: seq<Slot<S, T>>, es: seq<S>): (r: seq<Slot<S, T>>)
    ensures |r| == |slots| && forall i | 0 <= i < |slots| :: r[i] == Advance(slots[i], es)
  {
    seq(|slots|, i requires 0 <= i < |slots| => Advance(slots[i], es))
  }

  /** The update requests one listener sends to host `h` over the emissions `es`. */
  function Share<S, T>(h: Lit.Host, slot: Slot<S, T>, es: seq<S>): nat
  {
    if slot.live && slot.host == h then Run(slot.selected, es, slot.selector, slot.compare).requests else 0
  }

  /** The update requests host `h` receives from all the listeners over the emissions `es`. */
  function Requests<S, T>(h: Lit.Host, slots: seq<Slot<S, T>>, es: seq<S>): nat
    decreases |slots|
  {
    if slots == [] then 0 else Requests(h, slots[..|slots| - 1], es) + Share(h, slots[|slots| - 1], es)
  }

  /** A single listener's requests are its share. */
  lemma RequestsOfOne<S, T>(h: Lit.Host, slot: Slot<S, T>, es: seq<S>)
    ensures Requests(h, [slot], es) == Share(h, slot, es)
  {
    assert [slot][..0] == [];
  }

  /** Counting one more listener adds its share. */
  lemma RequestsPrefix<S, T>(h: Lit.Host, slots: seq<Slot<S, T>>, i: nat, es: seq<S>)
    requires i < |slots|
    ensures Requests(h, slots[..i + 1], es) == Requests(h, slots[..i], es) + Share(h, slots[i], es)
  {
    assert slots[..i + 1][..i] == slots[..i];
  }

  /** `RequestsPrefix` for every host at once. */
  lemma RequestsPrefixAll<S, T>(slots: seq<Slot<S, T>>, i: nat, es: seq<S>)
    requires i < |slots|
    ensures forall h: Lit.Host :: Requests(h, slots[..i + 1], es) == Requests(h, slots[..i], es) + Share(h, slots[i], es)
  {
    forall h: Lit.Host
      ensures Requests(h, slots[..i + 1], es) == Requests(h, slots[..i], es) + Share(h, slots[i], es)
    {
      RequestsPrefix(h, slots, i, es);
    }
  }

  /** Emitting `es` and then `e` is emitting `es + [e]`, for every listener. */
  lemma AdvanceAllSnoc<S, T>(slots: seq<Slot<S, T>>, es: seq<S>, e: S)
    ensures AdvanceAll(AdvanceAll(slots, es), [e]) == AdvanceAll(slots, es + [e])
  {
    forall i | 0 <= i < |slots|
      ensures AdvanceAll(AdvanceAll(slots, es), [e])[i] == AdvanceAll(slots, es + [e])[i]
    {
      var s := slots[i];
      RunSnoc(s.selected, es, e, s.selector, s.compare);
      RunOne(Run(s.selected, es, s.selector, s.compare).selected, e, s.selector, s.compare);
    }
  }

  /**
   * The requests a host receives over `es + [e]` are those over `es` plus
   * those of the single emission `e` to the listeners as `es` left them:
   * successive emissions add up.
   */
  lemma {:induction false} RequestsSnoc<S, T>(h: Lit.Host, slots: seq<Slot<S, T>>, es: seq<S>, e: S)
    ensures Requests(h, slots, es + [e]) == Requests(h, slots, es) + Requests(h, AdvanceAll(slots, es), [e])
    decreases |slots|
  {
    if slots != [] {
      var n := |slots| - 1;
      RequestsSnoc(h, slots[..n], es, e);
      assert AdvanceAll(slots, es)[..n] == AdvanceAll(slots[..n], es);
      var s := slots[n];
      RunSnoc(s.selected, es, e, s.selector, s.compare);
      RunOne(Run(s.selected, es, s.selector, s.compare).selected, e, s.selector, s.compare);
    }
  }

  /** `RequestsSnoc` for every host at once. */
  lemma RequestsSnocAll<S, T>(slots: seq<Slot<S, T>>, es: seq<S>, e: S)
    ensures forall h: Lit.Host :: Requests(h, slots, es + [e]) == Requests(h, slots, es) + Requests(h, AdvanceAll(slots, es), [e])
  {
    forall h: Lit.Host
      ensures Requests(h, slots, es + [e]) == Requests(h, slots, es) + Requests(h, AdvanceAll(slots, es), [e])
    {
      RequestsSnoc(h, slots, es, e);
    }
  }

  /** No emissions: no listener changes and no host is asked for anything. */
  lemma {:induction false} NoEmissions<S, T>(h: Lit.Host, slots: seq<Slot<S, T>>)
    ensures AdvanceAll(slots, []) == slots
    ensures Requests(h, slots, []) == 0
    decreases |slots|
  {
    if slots != [] {
      NoEmissions(h, slots[..|slots| - 1]);
    }
  }

  /** Host `h` has at most one live listener among `slots`. */
  ghost predicate AtMostOneLiveOn<S, T>(h: Lit.Host, slots: seq<Slot<S, T>>)
  {
    forall i, j | 0 <= i < j < |slots| :: !(slots[i].live && slots[i].host == h && slots[j].live && slots[j].host == h)
  }

  /** A host with at most one live listener receives at most one update request per emission. */
  lemma {:induction false} AtMostOneRequestPerEmission<S, T>(h: Lit.Host, slots: seq<Slot<S, T>>, e: S)
    requires AtMostOneLiveOn(h, slots)
    ensures Requests(h, slots, [e]) <= 1
    ensures (forall i | 0 <= i < |slots| :: !(slots[i].live && slots[i].host == h)) ==> Requests(h, slots, [e]) == 0
    decreases |slots|
  {
    if slots != [] {
      var n := |slots| - 1;
      var s := slots[n];
      assert AtMostOneLiveOn(h, slots[..n]);
      AtMostOneRequestPerEmission(h, slots[..n], e);
      RunOne(s.selected, e, s.selector, s.compare);
      if s.live && s.host == h {
        assert forall i | 0 <= i < n :: !(slots[..n][i].live && slots[..n][i].host == h);
      }
    }
  }
}
