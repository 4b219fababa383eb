/** The listener-subscription registry of Quill's core: a `Subscriber`
    keeps the (source, target, event, handler, options) records of the
    listeners it attached so that they can later be removed one tuple at a
    time, per originating source, or all at once; `SubscriberMap` is the
    module-level owner-to-`Subscriber` association. */
module Subscribers {
  import opened Sequences

  /** Any object that asks for a subscription; only its identity matters. */
  class Source { }

  /** An externally owned event target (an element or the document). */
  class EventTarget { }

  /** A listener callback or listener object, compared by identity. */
  class EventListener { }

  /** An `AddEventListenerOptions` object, compared by identity. */
  class ListenerOptions { }

  /** The optional `options` argument: left out (`undefined`), the boolean
      capture shorthand, or an options object. Strict (in)equality on these
      is equality of this datatype. */
  datatype Options = Omitted | Capture(capture: bool) | Config(settings: ListenerOptions)

  /** A call the registry issues on a target; the targets themselves are
      not modelled, only the calls made to them. */
  datatype Call =
    | AddEventListener(target: EventTarget, event: string, handler: EventListener, options: Options)
    | RemoveEventListener(target: EventTarget, event: string, handler: EventListener, options: Options)

  /** One recorded registration. */
  datatype Subscription = Subscription(source: Source, target: EventTarget, event: string,
                                       handler: EventListener, options: Options)
  {
    /** The record is the listener (target, event, handler, options), whatever its source. */
    predicate IsListener(t: EventTarget, e: string, h: EventListener, o: Options) {
      target == t && event == e && handler == h && options == o
    }

    /** The call that attached this record's listener. */
    function Addition(): Call {
      AddEventListener(target, event, handler, options)
    }

    /** The call that detaches this record's listener. */
    function Removal(): Call {
      RemoveEventListener(target, event, handler, options)
    }
  }

  /** The test `off` filters with: a record stays when any of the four fields differs. */
  function KeepUnlessListener(t: EventTarget, e: string, h: EventListener, o: Options): Subscription -> bool {
    (sub: Subscription) => !sub.IsListener(t, e, h, o)
  }

  /** The test selecting the records of one source. */
  function FromSource(source: Source): Subscription -> bool {
    (sub: Subscription) => sub.source == source
  }

  /** The test keeping the records of every other source. */
  function NotFromSource(source: Source): Subscription -> bool {
    (sub: Subscription) => !FromSource(source)(sub)
  }

  /** The calls that detach the listeners of `subs`, one per record, in order. */
  function Removals(subs: seq<Subscription>): seq<Call> {
    seq(|subs|, i requires 0 <= i < |subs| => subs[i].Removal())
  }

  /** After `off`, no record is the listener, every other record is kept
      once and in its original order, and the source plays no part. */
  lemma OffRemovesExactlyTheListener(subs: seq<Subscription>, t: EventTarget, e: string,
                                     h: EventListener, o: Options)
    ensures forall k :: 0 <= k < |Filter(subs, KeepUnlessListener(t, e, h, o))| ==>
              !Filter(subs, KeepUnlessListener(t, e, h, o))[k].IsListener(t, e, h, o)
    ensures forall i :: 0 <= i < |subs| && !subs[i].IsListener(t, e, h, o) ==>
              subs[i] in Filter(subs, KeepUnlessListener(t, e, h, o))
    ensures KeepsExactly(Filter(subs, KeepUnlessListener(t, e, h, o)), subs, KeepUnlessListener(t, e, h, o))
  {
    FilterMembers(subs, KeepUnlessListener(t, e, h, o));
    FilterKeepsExactly(subs, KeepUnlessListener(t, e, h, o));
  }

  /** `off` with a tuple no record matches leaves the records as they are. */
  lemma OffUnmatchedIsNoop(subs: seq<Subscription>, t: EventTarget, e: string, h: EventListener, o: Options)
    requires forall i :: 0 <= i < |subs| ==> !subs[i].IsListener(t, e, h, o)
    ensures Filter(subs, KeepUnlessListener(t, e, h, o)) == subs
  {
    FilterKeepingAll(subs, KeepUnlessListener(t, e, h, o));
  }

  /** A second identical `off` changes nothing more. */
  lemma OffIdempotent(subs: seq<Subscription>, t: EventTarget, e: string, h: EventListener, o: Options)
    ensures var once := Filter(subs, KeepUnlessListener(t, e, h, o));
            Filter(once, KeepUnlessListener(t, e, h, o)) == once
  {
    FilterIdempotent(subs, KeepUnlessListener(t, e, h, o));
  }

  /** `off` undoes an `on` of a tuple that was not registered before. */
  lemma OffUndoesOn(subs: seq<Subscription>, s: Source, t: EventTarget, e: string, h: EventListener, o: Options)
    requires forall i :: 0 <= i < |subs| ==> !subs[i].IsListener(t, e, h, o)
    ensures Filter(subs + [Subscription(s, t, e, h, o)], KeepUnlessListener(t, e, h, o)) == subs
  {
    FilterAppend(subs, [Subscription(s, t, e, h, o)], KeepUnlessListener(t, e, h, o));
    OffUnmatchedIsNoop(subs, t, e, h, o);
  }

  /** Two `on` calls with the same tuple leave two records, and one `off`
      removes both. */
  lemma OnTwiceOffOnce(subs: seq<Subscription>, s: Source, t: EventTarget, e: string, h: EventListener, o: Options)
    ensures var x := Subscription(s, t, e, h, o);
            Filter(subs + [x] + [x], KeepUnlessListener(t, e, h, o)) == Filter(subs, KeepUnlessListener(t, e, h, o))
  {
    var x := Subscription(s, t, e, h, o);
    var keep := KeepUnlessListener(t, e, h, o);
    FilterAppend(subs + [x], [x], keep);
    FilterAppend(subs, [x], keep);
  }

  /** `removeSourceListeners(source)` keeps exactly the other sources'
      records in order, detaches exactly the source's records in order, and
      shrinks the list by the number of the source's records. */
  lemma RemoveSourceSplits(subs: seq<Subscription>, source: Source)
    ensures forall k :: 0 <= k < |Filter(subs, NotFromSource(source))| ==>
              Filter(subs, NotFromSource(source))[k].source != source
    ensures KeepsExactly(Filter(subs, NotFromSource(source)), subs, NotFromSource(source))
    ensures KeepsExactly(Filter(subs, FromSource(source)), subs, FromSource(source))
    ensures |Filter(subs, NotFromSource(source))| == |subs| - |Filter(subs, FromSource(source))|
  {
    FilterKeepsExactly(subs, NotFromSource(source));
    FilterKeepsExactly(subs, FromSource(source));
    FilterPartition(subs, FromSource(source), NotFromSource(source));
  }

  /** A source without records: nothing is detached and nothing is dropped. */
  lemma RemoveAbsentSourceIsNoop(subs: seq<Subscription>, source: Source)
    requires forall i :: 0 <= i < |subs| ==> subs[i].source != source
    ensures Filter(subs, NotFromSource(source)) == subs
    ensures Filter(subs, FromSource(source)) == []
  {
    assert forall i :: 0 <= i < |subs| ==> NotFromSource(source)(subs[i]) by {
      forall i | 0 <= i < |subs| ensures NotFromSource(source)(subs[i]) {
        assert !FromSource(source)(subs[i]);
      }
    }
    FilterKeepingAll(subs, NotFromSource(source));
    FilterPartition(subs, NotFromSource(source), FromSource(source));
  }

  /** Removing a source's listeners twice: the second call finds none of
      the source's records, so it detaches nothing and keeps the list. */
  lemma RemoveSourceIdempotent(subs: seq<Subscription>, source: Source)
    ensures Filter(Filter(subs, NotFromSource(source)), NotFromSource(source)) == Filter(subs, NotFromSource(source))
    ensures Filter(Filter(subs, NotFromSource(source)), FromSource(source)) == []
  {
    var kept := Filter(subs, NotFromSource(source));
    assert forall i :: 0 <= i < |kept| ==> kept[i].source != source by {
      forall i | 0 <= i < |kept| ensures kept[i].source != source {
        assert NotFromSource(source)(kept[i]);
        assert !FromSource(source)(kept[i]);
      }
    }
    RemoveAbsentSourceIsNoop(kept, source);
  }

  /** When every record comes from one source, removing that source's
      listeners detaches the same listeners in the same order as removing
      all listeners, and likewise leaves no record. */
  lemma RemoveOnlySourceIsRemoveAll(subs: seq<Subscription>, source: Source)
    requires forall i :: 0 <= i < |subs| ==> subs[i].source == source
    ensures Filter(subs, FromSource(source)) == subs
    ensures Filter(subs, NotFromSource(source)) == []
  {
    FilterKeepingAll(subs, FromSource(source));
    FilterPartition(subs, FromSource(source), NotFromSource(source));
  }

  /** Keeps track of subscriptions to event listeners, to enable later bulk
      removal. */
  class Subscriber {
    var subscriptions: seq<Subscription>
    /** The add/removeEventListener calls this subscriber has issued, in order. */
    ghost var log: seq<Call>

    /** Every recorded listener was attached through a logged call. */
    ghost predicate Valid()
      reads this
    {
      forall k :: 0 <= k < |subscriptions| ==> subscriptions[k].Addition() in log
    }

    constructor ()
      ensures Valid()
      ensures subscriptions == [] && log == []
    {
      subscriptions := [];
      log := [];
    }

    /** A copy of the current list of records. */
    method GetSubscriptions() returns (copy: seq<Subscription>)
      ensures copy == subscriptions
    {
      copy := subscriptions;
    }

    /** Attaches the listener to the target, then records it at the end. */
    method On(source: Source, target: EventTarget, event: string, handler: EventListener, options: Options)
      requires Valid()
      modifies this
      ensures Valid()
      ensures subscriptions == old(subscriptions) + [Subscription(source, target, event, handler, options)]
      ensures log == old(log) + [AddEventListener(target, event, handler, options)]
    {
      log := log + [AddEventListener(target, event, handler, options)];
      assert AddEventListener(target, event, handler, options) == Subscription(source, target, event, handler, options).Addition();
      subscriptions := subscriptions + [Subscription(source, target, event, handler, options)];
    }

    /** Detaches the listener from the target, then drops every record of
        that listener, from whichever source. */
    method Off(target: EventTarget, event: string, handler: EventListener, options: Options)
      requires Valid()
      modifies this
      ensures Valid()
      ensures subscriptions == Filter(old(subscriptions), KeepUnlessListener(target, event, handler, options))
      ensures forall k :: 0 <= k < |subscriptions| ==> !subscriptions[k].IsListener(target, event, handler, options)
      ensures KeepsExactly(subscriptions, old(subscriptions), KeepUnlessListener(target, event, handler, options))
      ensures log == old(log) + [RemoveEventListener(target, event, handler, options)]
    {
      log := log + [RemoveEventListener(target, event, handler, options)];
      OffRemovesExactlyTheListener(subscriptions, target, event, handler, options);
      FilterMembers(subscriptions, KeepUnlessListener(target, event, handler, options));
      subscriptions := Filter(subscriptions, KeepUnlessListener(target, event, handler, options));
    }

    /** Detaches every listener the source attached, in registration order,
        then drops those records. */
    method RemoveSourceListeners(source: Source)
      requires Valid()
      modifies this
      ensures Valid()
      ensures subscriptions == Filter(old(subscriptions), NotFromSource(source))
      ensures log == old(log) + Removals(Filter(old(subscriptions), FromSource(source)))
      ensures forall k :: 0 <= k < |subscriptions| ==> subscriptions[k].source != source
      ensures |subscriptions| == |old(subscriptions)| - |Filter(old(subscriptions), FromSource(source))|
    {
      var owned := Filter(subscriptions, FromSource(source));
      for i := 0 to |owned|
        invariant subscriptions == old(subscriptions)
        invariant log == old(log) + Removals(owned[..i])
      {
        assert Removals(owned[..i + 1]) == Removals(owned[..i]) + [owned[i].Removal()];
        log := log + [owned[i].Removal()];
      }
      assert owned[..|owned|] == owned;
      RemoveSourceSplits(subscriptions, source);
      FilterMembers(subscriptions, NotFromSource(source));
      subscriptions := Filter(subscriptions, NotFromSource(source));
    }

    /** Detaches every recorded listener, in registration order, then
        forgets all records. */
    method RemoveAllListeners()
      requires Valid()
      modifies this
      ensures Valid()
      ensures subscriptions == []
      ensures log == old(log) + Removals(old(subscriptions))
    {
      for i := 0 to |subscriptions|
        invariant subscriptions == old(subscriptions)
        invariant log == old(log) + Removals(subscriptions[..i])
      {
        assert Removals(subscriptions[..i + 1]) == Removals(subscriptions[..i]) + [subscriptions[i].Removal()];
        log := log + [subscriptions[i].Removal()];
      }
      assert subscriptions[..|subscriptions|] == subscriptions;
      subscriptions := [];
    }
  }

  /** The process-wide association of each owner object with its
      `Subscriber`. */
  class SubscriberMap {
    var subscribers: map<Source, Subscriber>

    /** No two owners share a `Subscriber`, and every bound `Subscriber`
        keeps its own invariant. */
    ghost predicate Valid()
      reads this, subscribers.Values
    {
      && (forall a, b :: a in subscribers && b in subscribers && a != b ==> subscribers[a] != subscribers[b])
      && (forall a :: a in subscribers ==> subscribers[a].Valid())
    }

    constructor ()
      ensures Valid() && subscribers == map[]
    {
      subscribers := map[];
    }

    /** The `Subscriber` bound to `owner`, bound first to a new empty one
        when there is none. */
    method FindOrCreateSubscriber(owner: Source) returns (subscriber: Subscriber)
      requires Valid()
      modifies this
      ensures Valid()
      ensures owner in subscribers && subscribers[owner] == subscriber && subscriber.Valid()
      ensures owner in old(subscribers) ==>
                subscriber == old(subscribers)[owner] && subscribers == old(subscribers)
      ensures owner !in old(subscribers) ==>
                && fresh(subscriber)
                && subscriber.Valid() && subscriber.subscriptions == [] && subscriber.log == []
                && subscribers == old(subscribers)[owner := subscriber]
    {
      if owner in subscribers {
        subscriber := subscribers[owner];
      } else {
        subscriber := new Subscriber();
        subscribers := subscribers[owner := subscriber];
      }
    }
  }

  /** Looking up the same owner twice yields the same `Subscriber`, and
      different owners get different ones. */
  method RepeatedLookups(m: SubscriberMap, a: Source, b: Source) returns (first: Subscriber, again: Subscriber, other: Subscriber)
    requires m.Valid()
    modifies m
    ensures m.Valid()
    ensures first == again
    ensures a != b ==> first != other
    ensures m.subscribers == old(m.subscribers)[a := first][b := other]
  {
    first := m.FindOrCreateSubscriber(a);
    again := m.FindOrCreateSubscriber(a);
    other := m.FindOrCreateSubscriber(b);
  }

  /** The usual use: look up the owner's `Subscriber` and attach a listener
      through it. The map changes at most at `owner`, no other owner's
      `Subscriber` is touched, and the owner's list and log each gain one
      entry at the end; both start empty for an owner seen for the first time. */
  method LookupThenOn(m: SubscriberMap, owner: Source, target: EventTarget, event: string,
                      handler: EventListener, options: Options) returns (subscriber: Subscriber)
    requires m.Valid()
    modifies m, if owner in m.subscribers then {m.subscribers[owner]} else {}
    ensures m.Valid()
    ensures m.subscribers == old(m.subscribers)[owner := subscriber]
    ensures owner in old(m.subscribers) ==> subscriber == old(m.subscribers[owner])
    ensures owner !in old(m.subscribers) ==> fresh(subscriber)
    ensures subscriber.subscriptions ==
              (if owner in old(m.subscribers) then old(m.subscribers[owner].subscriptions) else [])
              + [Subscription(owner, target, event, handler, options)]
    ensures subscriber.log ==
              (if owner in old(m.subscribers) then old(m.subscribers[owner].log) else [])
              + [AddEventListener(target, event, handler, options)]
  {
    subscriber := m.FindOrCreateSubscriber(owner);
    subscriber.On(owner, target, event, handler, options);
  }

  /** Two owners, each seen for the first time, attach one listener each
      through the map: each ends up with its own `Subscriber` holding just
      its own record, and the second attachment leaves the first alone. */
  method TwoOwnersScenario(a: Source, b: Source, t: EventTarget, h1: EventListener, h2: EventListener)
    returns (forA: seq<Subscription>, forB: seq<Subscription>)
    requires a != b
    ensures forA == [Subscription(a, t, "click", h1, Omitted)]
    ensures forB == [Subscription(b, t, "scroll", h2, Capture(true))]
  {
    var m := new SubscriberMap();
    var sa := LookupThenOn(m, a, t, "click", h1, Omitted);
    var sb := LookupThenOn(m, b, t, "scroll", h2, Capture(true));
    var again := m.FindOrCreateSubscriber(a);
    forA := again.GetSubscriptions();
    forB := sb.GetSubscriptions();
  }

  /** The two filters of `removeSourceListeners` on three records, the
      first two from `source`. */
  lemma SplitThree(x1: Subscription, x2: Subscription, x3: Subscription, source: Source)
    requires x1.source == source && x2.source == source && x3.source != source
    ensures Filter([x1, x2, x3], FromSource(source)) == [x1, x2]
    ensures Filter([x1, x2, x3], NotFromSource(source)) == [x3]
    ensures Removals([x1, x2]) == [x1.Removal(), x2.Removal()]
  {
    assert [x1, x2, x3][..2] == [x1, x2] && [x1, x2][..1] == [x1] && [x1][..0] == [];
    assert Filter([x1], FromSource(source)) == [x1];
    assert Filter([x1, x2], NotFromSource(source)) == [];
  }

  /** Three records under sources a, a and b; removing a's listeners leaves
      only b's record, and the calls issued are the three attachments
      followed by the detachment of a's two listeners in order. */
  method SourceRemovalScenario(a: Source, b: Source, t: EventTarget, h1: EventListener, h2: EventListener, h3: EventListener)
    returns (left: seq<Subscription>, ghost calls: seq<Call>)
    requires a != b
    ensures left == [Subscription(b, t, "click", h3, Omitted)]
    ensures calls == [AddEventListener(t, "click", h1, Omitted), AddEventListener(t, "keydown", h2, Capture(true)),
                      AddEventListener(t, "click", h3, Omitted),
                      RemoveEventListener(t, "click", h1, Omitted), RemoveEventListener(t, "keydown", h2, Capture(true))]
  {
    var x1, x2, x3 := Subscription(a, t, "click", h1, Omitted), Subscription(a, t, "keydown", h2, Capture(true)),
                      Subscription(b, t, "click", h3, Omitted);
    SplitThree(x1, x2, x3, a);
    var subscriber := new Subscriber();
    subscriber.On(a, t, "click", h1, Omitted);
    subscriber.On(a, t, "keydown", h2, Capture(true));
    subscriber.On(b, t, "click", h3, Omitted);
    assert subscriber.subscriptions == [x1, x2, x3];
    ghost var attached := subscriber.log;
    subscriber.RemoveSourceListeners(a);
    assert subscriber.log == attached + [x1.Removal(), x2.Removal()];
    left := subscriber.GetSubscriptions();
    calls := subscriber.log;
  }
}
