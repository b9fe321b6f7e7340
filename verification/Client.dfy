/** The client's side: subscribing, and the Identifier headers of the later requests. */
module Client {
  import opened Options
  import opened Subscribers
  import opened Xml
  import opened SubscriberXml
  import opened Requests
  import opened Server

  // ---- Reading a SubscribeResponse --------------------------------------------------------------------------

  function IdIn(response: Node): Option<string> {
    Text(Child(Child(Child(Some(response), EVENTING, "SubscriptionManager"), ADDRESSING, "ReferenceParameters"),
        EVENTING, "Identifier"))
  }

  function UrlIn(response: Node): Option<string> {
    Text(Child(Child(Some(response), EVENTING, "SubscriptionManager"), ADDRESSING, "Address"))
  }

  /** The client reads back the id that the server minted, and the address of the manager. */
  lemma SubscribeResponseRoundTrip(address: Option<string>, id: Option<string>, expires: Option<string>)
    ensures IdIn(SubscribeResponseNode(address, id, expires)) == id
    ensures UrlIn(SubscribeResponseNode(address, id, expires)) == address
  {
    var n := SubscribeResponseNode(address, id, expires);
    assert n.children[0].name == QName(Some(EVENTING), "SubscriptionManager");
    var manager := Child(Some(n), EVENTING, "SubscriptionManager").value;
    assert manager == n.children[0];
    var parameters := Element(ADDRESSING, "ReferenceParameters", None, [Element(EVENTING, "Identifier", id, [])]);
    assert manager.children == [Element(ADDRESSING, "Address", address, []), parameters];
    assert manager.children[1..] == [parameters];
    assert FirstChild(manager.children, ADDRESSING, "ReferenceParameters") == Some(parameters);
  }

  // ---- The client -------------------------------------------------------------------------------------------

  /** The keys of the options table that the client looks at. */
  datatype ClientOptions = ClientOptions(notify: Option<string>, filter: Option<string>,
      filterDialect: Option<string>, expires: Option<string>)

  function Asked(o: ClientOptions): Record {
    BLANK.(notifyTo := Some(EndpointRef(o.notify)), filter := o.filter, filterDialect := o.filterDialect,
        expires := o.expires)
  }

  function IdentifierHeader(id: Option<string>): Node {
    Element(EVENTING, "Identifier", id, [])
  }

  function RequestBody(local: string, expires: Option<string>): Node {
    Element(EVENTING, local, None, Optional("Expires", expires))
  }

  /** A request as it leaves: its action, the headers added so far, and its body. */
  datatype Outgoing = Outgoing(action: string, headers: seq<Node>, body: Node)

  /** The Axis2 service client; headers that were added stay. */
  class SvcClient {
    var action: string
    var headers: seq<Node>
    var sent: seq<Outgoing>

    constructor ()
      ensures action == "" && headers == [] && sent == []
    {
      action, headers, sent := "", [], [];
    }

    method SendReceive(body: Node)
      modifies this`sent
      ensures sent == old(sent) + [Outgoing(action, headers, body)]
    {
      sent := sent + [Outgoing(action, headers, body)];
    }
  }

  function Reported(reply: Option<Node>, local: string): Option<string> {
    if reply.Some? && reply.value.name.local == local then ExpiresIn(reply) else None
  }

  /** The body of a request is named after it, and gives the Expires that was asked for. */
  lemma RequestSays(local: string, expires: Option<string>)
    ensures RequestBody(local, expires).name == QName(Some(EVENTING), local)
    ensures ExpiresIn(Some(RequestBody(local, expires))) == expires
  {
    FindOptional("Expires", expires, [], "Expires");
    assert Optional("Expires", expires) + [] == Optional("Expires", expires);
  }

  /** A response of the expected name is reported with the expiry that it was built with, any other one not at all. */
  lemma ResponseIsReported(local: string, expected: string, expires: Option<string>)
    ensures Reported(Some(ExpiresResponseNode(local, expires)), expected) == if local == expected then expires else None
    ensures Reported(None, expected) == None
  {
    ExpiresArrives(local, None, None, expires);
  }

  lemma NotReported(reply: Option<Node>, expected: string)
    requires reply.Some? ==> reply.value.name.local != expected
    ensures Reported(reply, expected) == None
  {
  }

  /** Everything that the client was asked for leaves in its Subscribe request, but a filter and a dialect only
      together. The server ignores the expiry (Requests.NewSubscriber). */
  lemma WhatIsSent(o: ClientOptions)
    ensures var n := SubscribeNode(Asked(o));
            var pair := o.filter.Some? && o.filterDialect.Some?;
            && n.name == QName(Some(EVENTING), "Subscribe")
            && ExpiresIn(Some(n)) == o.expires && NotifyAddress(Some(n)) == o.notify
            && Child(Some(n), EVENTING, "EndTo") == None
            && Text(Child(Some(n), EVENTING, "Filter")) == (if pair then o.filter else None)
            && Attribute(Child(Some(n), EVENTING, "Filter"), "Dialect") == (if pair then o.filterDialect else None)
  {
    var s := Asked(o);
    FindInSubscribe(s, "EndTo");
    FindInSubscribe(s, "Delivery");
    FindInSubscribe(s, "Expires");
    FindInSubscribe(s, "Filter");
    AddressIsDelivered(o.notify);
  }

  /** What a client and its service client remember. */
  datatype Memory = Memory(subId: Option<string>, headers: seq<Node>)

  /** A successful subscription, or any later request. */
  datatype Action = Subscribes(id: Option<string>) | Requests

  function Remember(m: Memory, a: Action): Memory {
    match a
    case Subscribes(id) => m.(subId := id)
    case Requests => m.(headers := m.headers + [IdentifierHeader(m.subId)])
  }

  /** The memory that a client object and its service client hold. */
  ghost function Remembered(client: SavanClient, svc: SvcClient): Memory
    reads client, svc
  {
    Memory(client.subId, svc.headers)
  }

  class SavanClient {
    var subId: Option<string>
    var subUrl: Option<string>

    constructor ()
      ensures subId == None
    {
      subId, subUrl := None, None;
    }

    /** reply is the child of the response's body, if there is a response. */
    method Subscribe(svc: SvcClient, o: ClientOptions, reply: Option<Node>) returns (done: bool)
      modifies this, svc
      ensures svc.action == old(svc.action) && svc.headers == old(svc.headers)
      ensures svc.sent == old(svc.sent) + [Outgoing(ActionOf(Sub), svc.headers, SubscribeNode(Asked(o)))]
      ensures done <==> reply.Some? && reply.value.name.local == "SubscribeResponse"
      ensures subId == if done then IdIn(reply.value) else old(subId)
      ensures subUrl == if done then UrlIn(reply.value) else old(subUrl)
      ensures Remembered(this, svc) ==
          if done then Remember(old(Remembered(this, svc)), Subscribes(IdIn(reply.value)))
          else old(Remembered(this, svc))
    {
      hide ActionOf, SubscribeNode, IdIn, UrlIn;
      var before := svc.action;
      svc.action := ActionOf(Sub);
      var s := new Subscriber();
      s.notifyTo := Some(EndpointRef(o.notify));
      s.filter := o.filter;
      s.filterDialect := o.filterDialect;
      if o.expires.Some? {
        s.expires := o.expires;
      }
      assert s.Value() == Asked(o);
      var body := CreateSubscriberNode(s);
      svc.SendReceive(body.value);
      svc.action := before;
      if reply.None? || reply.value.name.local != "SubscribeResponse" {
        return false;
      }
      subId := IdIn(reply.value);
      subUrl := UrlIn(reply.value);
      done := true;
    }

    method AddSubIdToSoapHeader(svc: SvcClient)
      modifies svc`headers
      ensures svc.headers == old(svc.headers) + [IdentifierHeader(subId)]
    {
      svc.headers := svc.headers + [IdentifierHeader(subId)];
    }

    /** The new expiry that the server reports. */
    method Renew(svc: SvcClient, expires: Option<string>, reply: Option<Node>) returns (reported: Option<string>)
      modifies svc
      ensures svc.action == old(svc.action) && svc.headers == old(svc.headers) + [IdentifierHeader(subId)]
      ensures svc.sent == old(svc.sent)
          + [Outgoing(ActionOf(MessageType.Renew), svc.headers, RequestBody("Renew", expires))]
      ensures reported == Reported(reply, "RenewResponse")
      ensures Remembered(this, svc) == Remember(old(Remembered(this, svc)), Requests)
    {
      hide ActionOf, IdentifierHeader;
      var before := svc.action;
      svc.action := ActionOf(MessageType.Renew);
      var children := [];
      if expires.Some? {
        children := [Element(EVENTING, "Expires", expires, [])];
      }
      assert children == Optional("Expires", expires);
      AddSubIdToSoapHeader(svc);
      svc.SendReceive(Element(EVENTING, "Renew", None, children));
      svc.action := before;
      if reply.None? || reply.value.name.local != "RenewResponse" {
        return None;
      }
      var element := Child(reply, EVENTING, "Expires");
      reported := if element.None? then None else Text(element);
    }

    method Unsubscribe(svc: SvcClient, reply: Option<Node>) returns (done: bool)
      modifies svc
      ensures svc.action == old(svc.action) && svc.headers == old(svc.headers) + [IdentifierHeader(subId)]
      ensures svc.sent == old(svc.sent) + [Outgoing(ActionOf(Unsub), svc.headers, RequestBody("Unsubscribe", None))]
      ensures done <==> reply.Some?
      ensures Remembered(this, svc) == Remember(old(Remembered(this, svc)), Requests)
    {
      hide ActionOf, IdentifierHeader;
      var before := svc.action;
      svc.action := ActionOf(Unsub);
      AddSubIdToSoapHeader(svc);
      svc.SendReceive(Element(EVENTING, "Unsubscribe", None, []));
      svc.action := before;
      done := reply.Some?;
    }

    method GetStatus(svc: SvcClient, reply: Option<Node>) returns (reported: Option<string>)
      modifies svc
      ensures svc.action == old(svc.action) && svc.headers == old(svc.headers) + [IdentifierHeader(subId)]
      ensures svc.sent == old(svc.sent)
          + [Outgoing(ActionOf(MessageType.GetStatus), svc.headers, RequestBody("GetStatus", None))]
      ensures reported == Reported(reply, "GetStatusResponse")
      ensures Remembered(this, svc) == Remember(old(Remembered(this, svc)), Requests)
    {
      hide ActionOf, IdentifierHeader;
      var before := svc.action;
      svc.action := ActionOf(MessageType.GetStatus);
      AddSubIdToSoapHeader(svc);
      svc.SendReceive(Element(EVENTING, "GetStatus", None, []));
      svc.action := before;
      if reply.None? || reply.value.name.local != "GetStatusResponse" {
        return None;
      }
      var element := Child(reply, EVENTING, "Expires");
      reported := if element.None? then None else Text(element);
    }
  }

  // ---- Which subscription a request is for ------------------------------------------------------------------

  /** The id that the server reads from a request: the headers of the request are among the header's children, with
      others of other names around them. */
  function ResolvedIn(before: seq<Node>, headers: seq<Node>, after: seq<Node>): Option<string> {
    SubscriptionId(Some(Envelope(Some(Node(QName(None, "Header"), map[], None, before + headers + after)), None)))
  }

  predicate NoneNamed(nodes: seq<Node>) {
    forall i :: 0 <= i < |nodes| ==> nodes[i].name != QName(Some(EVENTING), "Identifier")
  }

  lemma {:induction false} NotFound(nodes: seq<Node>)
    requires NoneNamed(nodes)
    ensures FirstChild(nodes, EVENTING, "Identifier") == None
    decreases |nodes|
  {
    if nodes != [] {
      NotFound(nodes[1..]);
    }
  }

  /** Of the Identifier headers that have piled up, the server reads the oldest. */
  lemma OldestHeaderIsRead(before: seq<Node>, headers: seq<Node>, after: seq<Node>, id: Option<string>)
    requires NoneNamed(before) && headers != [] && headers[0] == IdentifierHeader(id)
    ensures ResolvedIn(before, headers, after) == id
  {
    NotFound(before);
    FirstChildAppends(before, headers + after, EVENTING, "Identifier");
    assert before + headers + after == before + (headers + after);
    assert (headers + after)[0] == headers[0];
  }

  function RememberAll(m: Memory, actions: seq<Action>): Memory
    decreases |actions|
  {
    if actions == [] then m else RememberAll(Remember(m, actions[0]), actions[1..])
  }

  const START := Memory(None, [])

  lemma {:induction false} HeadersGrow(m: Memory, actions: seq<Action>)
    ensures m.headers <= RememberAll(m, actions).headers
    decreases |actions|
  {
    if actions != [] {
      HeadersGrow(Remember(m, actions[0]), actions[1..]);
    }
  }

  /** The id of the last subscription among some actions, if there is one. */
  function LastSubscribed(actions: seq<Action>): Option<Option<string>> {
    if actions == [] then None
    else
      var last := actions[|actions| - 1];
      if last.Subscribes? then Some(last.id) else LastSubscribed(actions[..|actions| - 1])
  }

  lemma {:induction false} RememberLast(m: Memory, actions: seq<Action>, a: Action)
    ensures RememberAll(m, actions + [a]) == Remember(RememberAll(m, actions), a)
    decreases |actions|
  {
    if actions == [] {
      assert [] + [a] == [a] && [a][1..] == [];
    } else {
      assert (actions + [a])[0] == actions[0] && (actions + [a])[1..] == actions[1..] + [a];
      RememberLast(Remember(m, actions[0]), actions[1..], a);
    }
  }

  lemma {:induction false} CurrentIdIsLastSubscribed(m: Memory, actions: seq<Action>)
    ensures RememberAll(m, actions).subId == LastSubscribed(actions).GetOr(m.subId)
    decreases |actions|
  {
    if actions != [] {
      var init := actions[..|actions| - 1];
      assert actions == init + [actions[|actions| - 1]];
      RememberLast(m, init, actions[|actions| - 1]);
      CurrentIdIsLastSubscribed(m, init);
    }
  }

  /** Once a request was made, every later request on the same service client resolves to the id of that first one. So
      it is for the client's current subscription if and only if the client has not subscribed since, or was given that
      same id by its last subscription. */
  lemma FirstRequestDecides(early: seq<Action>, late: seq<Action>, before: seq<Node>, after: seq<Node>)
    requires NoneNamed(before) && RememberAll(START, early).headers == []
    ensures var first := RememberAll(START, early);
            var now := RememberAll(first, [Requests] + late);
            var resolved := ResolvedIn(before, Remember(now, Requests).headers, after);
            && resolved == first.subId
            && (resolved == now.subId <==> LastSubscribed(late).None? || LastSubscribed(late) == Some(first.subId))
  {
    var first := RememberAll(START, early);
    var next := Remember(first, Requests);
    assert ([Requests] + late)[1..] == late;
    var now := RememberAll(next, late);
    HeadersGrow(next, late);
    CurrentIdIsLastSubscribed(next, late);
    assert next.headers == [IdentifierHeader(first.subId)];
    var request := Remember(now, Requests);
    assert request.headers[0] == now.headers[0] == next.headers[0];
    OldestHeaderIsRead(before, request.headers, after, first.subId);
  }

  // ---- Many clients -----------------------------------------------------------------------------------------

  /** The clients, each with its own service client, and the id the server minted for each. */
  datatype Clients = Clients(memory: map<nat, Memory>, minted: map<nat, string>, resolved: seq<(nat, Option<string>)>)

  datatype ClientStep = SubscribeStep(c: nat, id: string, address: Option<string>, expires: Option<string>)
                      | RequestStep(c: nat, before: seq<Node>, after: seq<Node>)

  function MemoryOf(w: Clients, c: nat): Memory {
    if c in w.memory then w.memory[c] else START
  }

  /** A client subscribes once, under an id that is new, and sends requests only then. */
  predicate Enabled(w: Clients, step: ClientStep) {
    match step
    case SubscribeStep(c, id, _, _) => c !in w.minted && id !in w.minted.Values
    case RequestStep(c, before, _) => c in w.minted && NoneNamed(before)
  }

  function ClientDo(w: Clients, step: ClientStep): Clients {
    match step
    case SubscribeStep(c, id, address, expires) =>
      var m := Remember(MemoryOf(w, c), Subscribes(IdIn(SubscribeResponseNode(address, Some(id), expires))));
      w.(memory := w.memory[c := m], minted := w.minted[c := id])
    case RequestStep(c, before, after) =>
      var m := Remember(MemoryOf(w, c), Requests);
      w.(memory := w.memory[c := m], resolved := w.resolved + [(c, ResolvedIn(before, m.headers, after))])
  }

  ghost predicate EnabledRun(w: Clients, steps: seq<ClientStep>)
    decreases |steps|
  {
    steps == [] || (Enabled(w, steps[0]) && EnabledRun(ClientDo(w, steps[0]), steps[1..]))
  }

  function ClientRun(w: Clients, steps: seq<ClientStep>): Clients
    decreases |steps|
  {
    if steps == [] then w else ClientRun(ClientDo(w, steps[0]), steps[1..])
  }

  /** Nobody shares an id, and everybody's headers carry the own id only. */
  ghost predicate OwnIds(w: Clients) {
    && (forall c, d :: c in w.minted && d in w.minted && w.minted[c] == w.minted[d] ==> c == d)
    && (forall c :: c in w.minted ==> MemoryOf(w, c).subId == Some(w.minted[c]))
    && (forall c :: c !in w.minted ==> MemoryOf(w, c).headers == [])
    && (forall c, i :: 0 <= i < |MemoryOf(w, c).headers| ==>
          c in w.minted && MemoryOf(w, c).headers[i] == IdentifierHeader(Some(w.minted[c])))
    && (forall i :: 0 <= i < |w.resolved| ==>
          w.resolved[i].0 in w.minted && w.resolved[i].1 == Some(w.minted[w.resolved[i].0]))
  }

  lemma ClientStepKeeps(w: Clients, step: ClientStep)
    requires OwnIds(w) && Enabled(w, step)
    ensures OwnIds(ClientDo(w, step))
  {
    hide OwnIds, ClientDo, Enabled;
    if step.SubscribeStep? {
      SubscribeKeeps(w, step);
    } else {
      RequestKeeps(w, step);
    }
  }

  lemma SubscribeKeeps(w: Clients, step: ClientStep)
    requires OwnIds(w) && Enabled(w, step) && step.SubscribeStep?
    ensures OwnIds(ClientDo(w, step))
  {
    var w' := ClientDo(w, step);
    assert forall d :: d != step.c ==> MemoryOf(w', d) == MemoryOf(w, d);
    hide IdIn, IdentifierHeader, SubscribeResponseNode;
    SubscribeResponseRoundTrip(step.address, Some(step.id), step.expires);
  }

  lemma RequestKeeps(w: Clients, step: ClientStep)
    requires OwnIds(w) && Enabled(w, step) && step.RequestStep?
    ensures OwnIds(ClientDo(w, step))
  {
    var w' := ClientDo(w, step);
    assert forall d :: d != step.c ==> MemoryOf(w', d) == MemoryOf(w, d);
    hide ResolvedIn, IdentifierHeader, NoneNamed;
    OldestHeaderIsRead(step.before, MemoryOf(w', step.c).headers, step.after, Some(w.minted[step.c]));
  }

  /** In every run of any number of clients, every request of a client resolves to the id minted for that client. */
  lemma {:induction false} EveryRequestIsForItsOwn(w: Clients, steps: seq<ClientStep>)
    requires OwnIds(w) && EnabledRun(w, steps)
    ensures OwnIds(ClientRun(w, steps))
    decreases |steps|
  {
    hide OwnIds, ClientDo, Enabled;
    if steps != [] {
      ClientStepKeeps(w, steps[0]);
      EveryRequestIsForItsOwn(ClientDo(w, steps[0]), steps[1..]);
    }
  }

  const NO_CLIENTS := Clients(map[], map[], [])

  /** The same from the start, where nobody has subscribed; and no two clients share an id. */
  lemma EveryRequestOfEveryClient(steps: seq<ClientStep>)
    requires EnabledRun(NO_CLIENTS, steps)
    ensures var w := ClientRun(NO_CLIENTS, steps);
            && (forall c, d :: c in w.minted && d in w.minted && w.minted[c] == w.minted[d] ==> c == d)
            && (forall i :: 0 <= i < |w.resolved| ==>
                  w.resolved[i].0 in w.minted && w.resolved[i].1 == Some(w.minted[w.resolved[i].0]))
  {
    assert OwnIds(NO_CLIENTS);
    EveryRequestIsForItsOwn(NO_CLIENTS, steps);
  }

  // ---- What the server makes of a client's request ----------------------------------------------------------

  /** A client's Subscribe is refused exactly when it gives both a filter and a dialect, and the dialect is not
      accepted: a filter without a dialect is not sent, so the subscription is accepted without any filter. */
  lemma WhatIsSubscribed(id: string, o: ClientOptions, filtering: bool)
    ensures var s := NewSubscriber(id, Some(SubscribeNode(Asked(o))));
            && Address(s.notifyTo) == o.notify && s.expires == Some(FOREVER)
            && s.filter == PairOnly(Asked(o), o.filter) && s.filterDialect == PairOnly(Asked(o), o.filterDialect)
            && (Refusal(filtering, s).Some? <==>
                  o.filter.Some? && o.filterDialect.Some? && !DialectAccepted(filtering, o.filterDialect))
  {
    SubscribeRoundTrip(Asked(o), BLANK.(id := Some(id)));
    hide SubscribeNode, ReadSubscribe;
  }

  /** The Expires that a client asks for in a Renew is the one that the server reads. */
  lemma RenewIsRead(expires: Option<string>, name: QName)
    ensures RenewExpires(Some(Node(name, map[], None, [RequestBody("Renew", expires)]))) == expires
  {
    assert Optional("Expires", expires) + [] == Optional("Expires", expires);
    FindOptional("Expires", expires, [], "Expires");
  }
}
