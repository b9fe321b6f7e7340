/** What the requests of the WS-Eventing protocol ask for, and which subscriptions are accepted. */
module Requests {
  import opened Options
  import opened Subscribers
  import opened Stores
  import opened Xml
  import opened SubscriberXml

  const XPATH_DIALECT := "http://www.w3.org/TR/1999/REC-xpath-19991116"
  const SYNAPSE_DIALECT := "http://synapse.apache.org/eventing/dialect/topicFilter"
  const PUSH := "http://schemas.xmlsoap.org/ws/2004/08/eventing/DeliveryModes/Push"

  /** The expiry of every new subscription. */
  const FOREVER := "*"

  datatype FaultCode =
    | DeliveryModeUnavailable | FilteringNotSupported | FilterUnavailable
    | UnableToRenew | UnableToProcess

  predicate DialectAccepted(filtering: bool, dialect: Option<string>) {
    (filtering && dialect == Some(XPATH_DIALECT)) || dialect == Some(SYNAPSE_DIALECT)
  }

  /** The fault a new subscriber is refused with; filtering tells whether the server was built with XPath filtering. */
  function Refusal(filtering: bool, s: Record): (r: Option<FaultCode>)
    ensures r.None? <==>
        (s.deliveryMode.Some? ==> s.deliveryMode == Some(PUSH))
            && (s.filter.Some? ==> DialectAccepted(filtering, s.filterDialect))
  {
    if s.deliveryMode.Some? && s.deliveryMode.value != PUSH then Some(DeliveryModeUnavailable)
    else if s.filter.None? then None
    else if s.filterDialect == Some(XPATH_DIALECT) then (if filtering then None else Some(FilteringNotSupported))
    else if s.filterDialect == Some(SYNAPSE_DIALECT) then None
    else Some(FilterUnavailable)
  }

  /** Which fault a subscriber is refused with. The delivery mode is looked at first; an XPath filter is refused by a
      server built without filtering, and any other dialect but Synapse's, or none, by every server. */
  lemma RefusalExactly(filtering: bool, s: Record)
    ensures s.deliveryMode.Some? && s.deliveryMode != Some(PUSH) ==>
              Refusal(filtering, s) == Some(DeliveryModeUnavailable)
    ensures s.deliveryMode.None? || s.deliveryMode == Some(PUSH) ==>
              && (Refusal(filtering, s).None? <==>
                    || s.filter.None?
                    || s.filterDialect == Some("http://synapse.apache.org/eventing/dialect/topicFilter")
                    || (filtering && s.filterDialect == Some("http://www.w3.org/TR/1999/REC-xpath-19991116")))
              && (Refusal(filtering, s) == Some(FilteringNotSupported) <==>
                    !filtering && s.filter.Some?
                    && s.filterDialect == Some("http://www.w3.org/TR/1999/REC-xpath-19991116"))
              && (s.filter.Some? && s.filterDialect.None? ==> Refusal(filtering, s) == Some(FilterUnavailable))
  {
    assert |XPATH_DIALECT| == 44 && |SYNAPSE_DIALECT| == 54;
  }

  /** The subscriber that a Subscribe request asks for, under the id minted for it. Its Expires is ignored. */
  function NewSubscriber(id: string, subscribe: Option<Node>): Record {
    ReadSubscribe(subscribe, BLANK.(id := Some(id))).(expires := Some(FOREVER))
  }

  /** What is stored of a Subscribe request: its addresses, EndTo included, and its filter and dialect, under the minted
      id and until "*", whatever expiry and delivery mode the subscriber had. */
  lemma NewSubscriberSays(id: string, s: Record)
    ensures var pair := s.filter.Some? && s.filterDialect.Some?;
            var r := NewSubscriber(id, Some(SubscribeNode(s)));
            && r.id == Some(id) && r.expires == Some("*") && r.deliveryMode == None && !r.renewed
            && r.endTo == (if Address(s.endTo).Some? then Some(EndpointRef(Address(s.endTo))) else None)
            && r.notifyTo == (if Address(s.notifyTo).Some? then Some(EndpointRef(Address(s.notifyTo))) else None)
            && r.filter == (if pair then s.filter else None)
            && r.filterDialect == (if pair then s.filterDialect else None)
  {
    SubscribeRoundTrip(s, BLANK.(id := Some(id)));
    hide SubscribeNode, ReadSubscribe;
  }

  /** The Expires of a Renew request. */
  function RenewExpires(body: Option<Node>): Option<string> {
    Text(Child(Child(body, EVENTING, "Renew"), EVENTING, "Expires"))
  }

  /** A retrieved subscriber as Renew writes it back. */
  function Edited(r: Record, expires: Option<string>): Record {
    r.(expires := expires.OrElse(r.expires), renewed := true)
  }

  /** Whether an insert that nothing hinders succeeds: SQLite refuses an id that is there. */
  predicate Insertable(b: Backend, m: Store, id: string) {
    b.Registry? || id !in m
  }

  /** Whether an update that nothing hinders succeeds: SQLite updates no row without complaint, the registry finds no
      resource. */
  predicate Updatable(b: Backend, m: Store, id: string) {
    b.Sqlite? || id in m
  }

  // ---- What callers rely on of a subscription manager -------------------------------------------------------

  /** m and m' are the stores before and after a call that went as o says. */
  predicate InsertMeets(b: Backend, m: Store, m': Store, s: Record, o: Outcome, status: Status)
    requires s.id.Some?
  {
    && (status == Success <==> o != Fails && Insertable(b, m, s.id.value))
    && m' == if status == Success && o == Works then Insert(b, m, s) else m
  }

  predicate UpdateMeets(b: Backend, m: Store, m': Store, s: Record, o: Outcome, status: Status)
    requires s.id.Some?
  {
    && (status == Success <==> o != Fails && Updatable(b, m, s.id.value))
    && m' == if status == Success && o == Works then Update(b, m, s) else m
  }

  /** The only caller discards the status of a removal. */
  predicate RemoveMeets(m: Store, m': Store, id: string, o: Outcome) {
    m' == if o == Works then Remove(m, id) else m
  }

  predicate RetrieveMeets(m: Store, id: Option<string>, o: Outcome, answer: Option<Record>) {
    answer == if o == Works && id.Some? && id.value in m then Some(m[id.value]) else None
  }

  // ---- The store after the handler of a request that nobody interrupts --------------------------------------

  function AfterSubscribe(b: Backend, filtering: bool, m: Store, s: Record, inserted: Outcome): Store
    requires s.id.Some?
  {
    if Refusal(filtering, s).None? && inserted == Works && Insertable(b, m, s.id.value) then Insert(b, m, s) else m
  }

  function AfterRenew(b: Backend, m: Store, id: string, expires: Option<string>, read: Outcome,
      written: Outcome): Store {
    if read == Works && written == Works && id in m then m[id := Merged(b, m[id], Edited(m[id], expires))] else m
  }

  function AfterUnsubscribe(m: Store, id: string, read: Outcome, removed: Outcome): Store {
    if read == Works && removed == Works then Remove(m, id) else m
  }
}
