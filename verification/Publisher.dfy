/** The default publisher: one event, sent to each subscriber whose dialect and filter admit it. */
module Publisher {
  import opened Options
  import opened Subscribers
  import opened Stores
  import opened Requests

  /** How the server is built and configured, and whether its filter lets the event through to a subscriber. */
  datatype Setting = Setting(filtering: bool, filterModule: bool, judge: Record -> bool)

  predicate ByDialect(s: Record) {
    s.filterDialect == Some(SYNAPSE_DIALECT)
  }

  /** Whether the event is sent to a subscriber. */
  predicate Sends(p: Setting, s: Record) {
    p.filtering ==> ByDialect(s) || (p.filterModule && s.filter.Some? && p.judge(s))
  }

  /** A subscriber that the filter withholds is a success unless an error is on record, from the filter or from
      before. */
  predicate Succeeds(p: Setting, s: Record, errorSet: bool) {
    p.filtering ==> ByDialect(s) || (p.filterModule && s.filter.Some? && (p.judge(s) || !errorSet))
  }

  /** One event on its way to a subscriber; there may be no address to send it to. */
  datatype Delivery = Delivery(id: Option<string>, to: Option<string>)

  function DeliveryFor(s: Record): Delivery {
    Delivery(s.id, Address(s.notifyTo))
  }

  /** The records of a store list, without the NULL entries. */
  function Present(list: seq<Option<Record>>): seq<Record> {
    if list == [] then []
    else
      var last := list[|list| - 1];
      Present(list[..|list| - 1]) + (if last.Some? then [last.value] else [])
  }

  function Admitted(p: Setting, subscribers: seq<Record>): seq<Record> {
    if subscribers == [] then []
    else
      var last := subscribers[|subscribers| - 1];
      Admitted(p, subscribers[..|subscribers| - 1]) + (if Sends(p, last) then [last] else [])
  }

  function Deliveries(subscribers: seq<Record>): seq<Delivery> {
    seq(|subscribers|, i requires 0 <= i < |subscribers| => DeliveryFor(subscribers[i]))
  }

  class DefaultPublisher {
    const setting: Setting
    /** What has been sent, in order. */
    var sent: seq<Delivery>

    constructor (setting: Setting)
      ensures this.setting == setting && sent == []
    {
      this.setting, sent := setting, [];
    }

    method PublishToSubscriber(s: Record, errorSet: bool) returns (status: Status)
      modifies this
      ensures sent == if Sends(setting, s) then old(sent) + [DeliveryFor(s)] else old(sent)
      ensures status == Success <==> Succeeds(setting, s, errorSet)
    {
      var to: Option<string> := None;
      if s.notifyTo.Some? {
        to := s.notifyTo.value.address;
      }
      var apply := true;
      status := Success;
      if setting.filtering {
        if s.filterDialect == Some(SYNAPSE_DIALECT) {
        } else if setting.filterModule && s.filter.Some? {
          apply := setting.judge(s);
          if !apply && errorSet {
            return Failure;
          }
        } else {
          return Failure;
        }
      }
      if apply {
        sent := sent + [Delivery(s.id, to)];
      }
    }

    /** store is what the manager lists for the event's topic, errorSet whether an error is on record at each turn. */
    method Publish(store: seq<Option<Record>>, errorSet: nat -> bool)
      modifies this
      ensures sent == old(sent) + Deliveries(Admitted(setting, Present(store)))
    {
      ghost var start := sent;
      hide Sends, DeliveryFor;
      PublishedNone(setting, store);
      hide Published;
      var i := 0;
      while i < |store|
        invariant 0 <= i <= |store|
        invariant sent == start + Published(setting, store, i)
      {
        PublishedNext(setting, store, i);
        if store[i].Some? {
          var status := PublishToSubscriber(store[i].value, errorSet(i));
        }
        i := i + 1;
      }
    }
  }

  /** What is sent to the first n entries of a list. */
  function Published(p: Setting, store: seq<Option<Record>>, n: nat): seq<Delivery>
    requires n <= |store|
  {
    Deliveries(Admitted(p, Present(store[..n])))
  }

  lemma PublishedNone(p: Setting, store: seq<Option<Record>>)
    ensures Published(p, store, 0) == [] && Published(p, store, |store|) == Deliveries(Admitted(p, Present(store)))
  {
    assert store[..|store|] == store;
  }

  lemma PublishedNext(p: Setting, store: seq<Option<Record>>, i: nat)
    requires i < |store|
    ensures Published(p, store, i + 1) ==
            if store[i].Some? && Sends(p, store[i].value) then Published(p, store, i) + [DeliveryFor(store[i].value)]
                else Published(p, store, i)
  {
    PresentNext(store, i);
    if store[i].Some? {
      var before := Admitted(p, Present(store[..i]));
      AdmittedNext(p, Present(store[..i]), store[i].value);
      hide Sends, DeliveryFor, Admitted, Present;
      assert Deliveries(before + [store[i].value]) == Deliveries(before) + [DeliveryFor(store[i].value)];
    }
  }

  lemma PresentNext(list: seq<Option<Record>>, i: nat)
    requires i < |list|
    ensures Present(list[..i + 1]) == if list[i].Some? then Present(list[..i]) + [list[i].value] else Present(list[..i])
  {
    assert list[..i + 1][..i] == list[..i];
  }

  lemma AdmittedNext(p: Setting, subscribers: seq<Record>, s: Record)
    ensures Admitted(p, subscribers + [s]) == if Sends(p, s) then Admitted(p, subscribers) + [s]
        else Admitted(p, subscribers)
  {
    assert (subscribers + [s])[..|subscribers|] == subscribers;
  }

  lemma {:induction false} AdmittedAppends(p: Setting, a: seq<Record>, b: seq<Record>)
    ensures Admitted(p, a + b) == Admitted(p, a) + Admitted(p, b)
    decreases |b|
  {
    if b == [] {
      assert a + b == a;
    } else {
      var n := |b| - 1;
      assert a + b == (a + b[..n]) + [b[n]];
      AdmittedAppends(p, a, b[..n]);
      AdmittedNext(p, a + b[..n], b[n]);
    }
  }

  /** Whatever stands before and after a subscriber in the list, and whatever becomes of them: it is sent to exactly
      once if it is admitted, between what the ones before and the ones after get; otherwise not at all. */
  lemma OthersDoNotMatter(p: Setting, before: seq<Record>, s: Record, after: seq<Record>)
    ensures Deliveries(Admitted(p, before + [s] + after))
         == Deliveries(Admitted(p, before)) + (if Sends(p, s) then [DeliveryFor(s)] else [])
             + Deliveries(Admitted(p, after))
  {
    AdmittedAppends(p, before + [s], after);
    AdmittedNext(p, before, s);
    hide Sends, DeliveryFor, Admitted;
    var x, y := Admitted(p, before), Admitted(p, after);
    assert Deliveries(x + [s] + y) == Deliveries(x) + [DeliveryFor(s)] + Deliveries(y);
    assert Deliveries(x + y) == Deliveries(x) + Deliveries(y);
    assert Deliveries(x) + [] + Deliveries(y) == Deliveries(x) + Deliveries(y);
    assert x + [] + y == x + y;
  }

  /** Every event goes to an admitted subscriber: under its id, to the address of its NotifyTo. */
  lemma SentToNotifyTo(p: Setting, subscribers: seq<Record>)
    ensures var admitted := Admitted(p, subscribers);
            && |Deliveries(admitted)| == |admitted|
            && forall i :: 0 <= i < |admitted| ==>
                 && Deliveries(admitted)[i].id == admitted[i].id
                 && Deliveries(admitted)[i].to
                      == if admitted[i].notifyTo.Some? then admitted[i].notifyTo.value.address else None
  {
    hide Sends, Admitted;
  }

  /** What one listed subscriber gets. A server without filtering sends to everybody; one with filtering to the topic
      dialect, and to those with a filter that its filter module lets through. */
  lemma WhatOneGets(p: Setting, s: Record)
    ensures var wanted :=
              || !p.filtering || s.filterDialect == Some("http://synapse.apache.org/eventing/dialect/topicFilter")
              || (p.filterModule && s.filter.Some? && p.judge(s));
            Deliveries(Admitted(p, Present([Some(s)])))
              == if wanted then [Delivery(s.id, if s.notifyTo.Some? then s.notifyTo.value.address else None)] else []
    ensures Deliveries(Admitted(p, Present([None]))) == []
  {
    var one: seq<Option<Record>>, none: seq<Option<Record>> := [Some(s)], [None];
    PresentNext(one, 0);
    PresentNext(none, 0);
    assert one[..1] == one && none[..1] == none;
    AdmittedNext(p, [], s);
    assert [] + [s] == [s];
  }

  /** Whoever is sent to is a success; a subscriber that gets nothing is one exactly if it was left to the filter module
      and no error is on record. */
  lemma WithheldSubscribers(p: Setting, s: Record, errorSet: bool)
    ensures Admitted(p, [s]) == [s] ==> Succeeds(p, s, errorSet)
    ensures Admitted(p, [s]) != [s] ==> (Succeeds(p, s, errorSet) <==> p.filterModule && s.filter.Some? && !errorSet)
  {
    AdmittedNext(p, [], s);
    assert [] + [s] == [s];
  }

  lemma {:induction false} AdmittedAreMembers(p: Setting, subscribers: seq<Record>)
    ensures forall s :: s in Admitted(p, subscribers) <==> s in subscribers && Sends(p, s)
    decreases |subscribers|
  {
    if subscribers != [] {
      var n := |subscribers| - 1;
      AdmittedAreMembers(p, subscribers[..n]);
      assert subscribers == subscribers[..n] + [subscribers[n]];
    }
  }

  // ---- Behind a store ---------------------------------------------------------------------------------------

  /** With filtering: a subscriber kept by the registry is sent to as it would be when it subscribed. The SQLite table
      has lost the dialect, so a topic subscription, too, is left to the XPath filter module; and a subscription
      without a filter is never sent to from either store unless it names the topic dialect. */
  lemma PublishedFromStore(p: Setting, s: Record)
    requires p.filtering
    ensures Storable(Registry, s) && ByDialect(s) ==> Sends(p, Kept(Registry, s))
    ensures Sends(p, Kept(Sqlite, s)) <==> p.filterModule && s.filter.Some? && p.judge(Kept(Sqlite, s))
  {
  }
}
