/** The server's side of a request: the in-handler and the subscription processor change the store, then the message
    receiver re-reads it and builds the response. */
module Server {
  import opened Options
  import opened Subscribers
  import opened Stores
  import opened Xml
  import opened SubscriberXml
  import opened Requests

  // ---- Messages ---------------------------------------------------------------------------------------------

  datatype MessageType =
    | Unknown
    | Sub | SubResponse | Unsub | UnsubResponse | GetStatus | GetStatusResponse | Renew | RenewResponse

  /** What is appended to the eventing namespace to make the action of a message. */
  function Suffix(t: MessageType): string {
    match t
    case Unknown => ""
    case Sub => "/Subscribe"
    case SubResponse => "/SubscribeResponse"
    case Unsub => "/Unsubscribe"
    case UnsubResponse => "/UnsubscribeResponse"
    case GetStatus => "/GetStatus"
    case GetStatusResponse => "/GetStatusResponse"
    case Renew => "/Renew"
    case RenewResponse => "/RenewResponse"
  }

  function ActionOf(t: MessageType): string {
    EVENTING + Suffix(t)
  }

  /** savan_util_get_message_type, on the action of the message if it has one. */
  function GetMessageType(action: Option<string>): MessageType {
    if action.None? then Unknown
    else if action.value == ActionOf(Sub) then Sub
    else if action.value == ActionOf(SubResponse) then SubResponse
    else if action.value == ActionOf(Unsub) then Unsub
    else if action.value == ActionOf(UnsubResponse) then UnsubResponse
    else if action.value == ActionOf(GetStatus) then GetStatus
    else if action.value == ActionOf(GetStatusResponse) then GetStatusResponse
    else if action.value == ActionOf(Renew) then Renew
    else if action.value == ActionOf(RenewResponse) then RenewResponse
    else Unknown
  }

  lemma SuffixesDiffer(t: MessageType, u: MessageType)
    requires t != u
    ensures Suffix(t) != Suffix(u)
  {
    assert |Suffix(Sub)| == 10 && |Suffix(SubResponse)| == 18 && |Suffix(Unsub)| == 12 && |Suffix(UnsubResponse)| == 20;
    assert |Suffix(GetStatus)| == 10 && |Suffix(GetStatusResponse)| == 18 && |Suffix(Renew)| == 6
        && |Suffix(RenewResponse)| == 14;
    assert Suffix(Sub)[1] == Suffix(SubResponse)[1] == 'S'
        && Suffix(GetStatus)[1] == Suffix(GetStatusResponse)[1] == 'G';
  }

  lemma ActionsDiffer(t: MessageType, u: MessageType)
    requires t != u
    ensures ActionOf(t) != ActionOf(u)
  {
    SuffixesDiffer(t, u);
    hide Suffix;
    assert ActionOf(t)[|EVENTING|..] == Suffix(t) && ActionOf(u)[|EVENTING|..] == Suffix(u);
  }

  /** The action of every message type is recognised as that type, and only that action is. */
  lemma ActionsAreRecognised(action: Option<string>, t: MessageType)
    requires t != Unknown
    ensures GetMessageType(action) == t <==> action == Some(ActionOf(t))
  {
    hide ActionOf;
    forall u: MessageType | u != t ensures ActionOf(u) != ActionOf(t) {
      ActionsDiffer(u, t);
    }
  }

  /** The actions, as they are on the wire. */
  lemma ActionsOnTheWire()
    ensures GetMessageType(Some(EVENTING + "/Subscribe")) == Sub
    ensures GetMessageType(Some(EVENTING + "/SubscribeResponse")) == SubResponse
    ensures GetMessageType(Some(EVENTING + "/Unsubscribe")) == Unsub
    ensures GetMessageType(Some(EVENTING + "/UnsubscribeResponse")) == UnsubResponse
    ensures GetMessageType(Some(EVENTING + "/GetStatus")) == GetStatus
    ensures GetMessageType(Some(EVENTING + "/GetStatusResponse")) == GetStatusResponse
    ensures GetMessageType(Some(EVENTING + "/Renew")) == Renew
    ensures GetMessageType(Some(EVENTING + "/RenewResponse")) == RenewResponse
    ensures forall action: Option<string> :: action.None? ==> GetMessageType(action) == Unknown
  {
    forall t: MessageType | t != Unknown ensures GetMessageType(Some(EVENTING + Suffix(t))) == t {
      ActionsAreRecognised(Some(ActionOf(t)), t);
    }
    hide ActionOf;
    assert GetMessageType(Some(EVENTING + Suffix(Sub))) == Sub;
    assert GetMessageType(Some(EVENTING + Suffix(SubResponse))) == SubResponse;
    assert GetMessageType(Some(EVENTING + Suffix(Unsub))) == Unsub;
    assert GetMessageType(Some(EVENTING + Suffix(UnsubResponse))) == UnsubResponse;
    assert GetMessageType(Some(EVENTING + Suffix(GetStatus))) == GetStatus;
    assert GetMessageType(Some(EVENTING + Suffix(GetStatusResponse))) == GetStatusResponse;
    assert GetMessageType(Some(EVENTING + Suffix(Renew))) == Renew;
    assert GetMessageType(Some(EVENTING + Suffix(RenewResponse))) == RenewResponse;
    hide GetMessageType;
  }

  datatype Envelope = Envelope(header: Option<Node>, body: Option<Node>)

  function Header(e: Option<Envelope>): Option<Node> {
    if e.Some? then e.value.header else None
  }

  function Body(e: Option<Envelope>): Option<Node> {
    if e.Some? then e.value.body else None
  }

  /** savan_util_get_subscription_id_from_msg: the text of the first Identifier header. */
  function SubscriptionId(e: Option<Envelope>): Option<string> {
    Text(Child(Header(e), EVENTING, "Identifier"))
  }

  class MsgCtx {
    const action: Option<string>
    const envelope: Option<Envelope>
    /** The properties that the handler leaves for the receiver. */
    var subId: Option<string>
    var subscriber: Subscriber?
    var fault: Option<FaultCode>
    /** What is sent back: the action and the child of the body. */
    var replyAction: Option<string>
    var reply: Option<Node>

    constructor (action: Option<string>, envelope: Option<Envelope>)
      ensures this.action == action && this.envelope == envelope
      ensures subId == None && subscriber == null && fault == None && replyAction == None && reply == None
    {
      this.action, this.envelope := action, envelope;
      subId, subscriber, fault, replyAction, reply := None, null, None, None, None;
    }
  }

  // ---- The subscription manager -----------------------------------------------------------------------------

  /** The manager behind the operations table: what the two managers do to the store they implement. */
  class SubsMgr {
    const backend: Backend
    var store: Store

    constructor (backend: Backend)
      ensures this.backend == backend && store == map[]
    {
      this.backend, store := backend, map[];
    }

    method Insert(s: Subscriber, o: Outcome) returns (status: Status)
      requires s.id.Some?
      modifies this
      ensures InsertMeets(backend, old(store), store, s.Value(), o, status)
    {
      status := if o != Fails && Insertable(backend, store, s.id.value) then Success else Failure;
      if status == Success && o == Works {
        store := Stores.Insert(backend, store, s.Value());
      }
    }

    method Update(s: Subscriber, o: Outcome) returns (status: Status)
      requires s.id.Some?
      modifies this
      ensures UpdateMeets(backend, old(store), store, s.Value(), o, status)
    {
      status := if o != Fails && Updatable(backend, store, s.id.value) then Success else Failure;
      if status == Success && o == Works {
        store := Stores.Update(backend, store, s.Value());
      }
    }

    method RemoveSubscriber(id: string, o: Outcome)
      modifies this
      ensures RemoveMeets(old(store), store, id, o)
    {
      if o == Works {
        store := Remove(store, id);
      }
    }

    method Retrieve(id: Option<string>, o: Outcome) returns (s: Subscriber?)
      ensures RetrieveMeets(store, id, o, if s == null then None else Some(s.Value()))
      ensures s != null ==> fresh(s)
    {
      s := null;
      if o == Works && id.Some? && id.value in store {
        s := new Subscriber.Of(store[id.value]);
      }
    }
  }

  /** Every stored record carries its own id. */
  predicate Keyed(m: Store) {
    forall id :: id in m ==> m[id].id == Some(id)
  }

  lemma HandlersKeepKeyed(b: Backend, filtering: bool, m: Store, uuid: string, id: Option<string>, body: Option<Node>,
      first: Outcome, second: Outcome)
    requires Keyed(m)
    ensures var s := NewSubscriber("urn:uuid:" + uuid, Child(body, EVENTING, "Subscribe"));
            s.id.Some? && s.expires == Some(FOREVER) && Keyed(AfterSubscribe(b, filtering, m, s, first))
    ensures id.Some? ==>
              && Keyed(AfterRenew(b, m, id.value, RenewExpires(body), first, second))
              && Keyed(AfterUnsubscribe(m, id.value, first, second))
              && (!(first == Works && id.value in m) ==>
                    AfterRenew(b, m, id.value, RenewExpires(body), first, second)
                        == AfterUnsubscribe(m, id.value, first, second) == m)
  {
    var s := NewSubscriber("urn:uuid:" + uuid, Child(body, EVENTING, "Subscribe"));
    assert s.id == Some("urn:uuid:" + uuid) && s.expires == Some(FOREVER);
    hide Refusal, NewSubscriber, RenewExpires, Child;
  }

  class ConfCtx {
    var subsMgr: SubsMgr?

    constructor ()
      ensures subsMgr == null
    {
      subsMgr := null;
    }
  }

  /** The manager that a configuration has, or the one that creating it now would give. */
  function ManagerOf(conf: ConfCtx?, created: SubsMgr?): SubsMgr?
    reads conf
  {
    if conf != null && conf.subsMgr != null then conf.subsMgr else created
  }

  /** The manager is created once for a configuration and kept; created is what creation answers. */
  method GetSubsMgr(conf: ConfCtx?, created: SubsMgr?) returns (mgr: SubsMgr?)
    modifies conf
    ensures mgr == old(ManagerOf(conf, created))
    ensures conf != null ==> conf.subsMgr == mgr
  {
    mgr := null;
    if conf != null {
      mgr := conf.subsMgr;
    }
    if mgr == null {
      mgr := created;
      if mgr != null && conf != null {
        conf.subsMgr := mgr;
      }
    }
  }

  // ---- The subscription processor ---------------------------------------------------------------------------

  /** What the handler does to the store for a message of type t, and whether it succeeds. */
  ghost predicate Handled(filtering: bool, b: Backend, t: MessageType, id: Option<string>, body: Option<Node>,
      uuid: string, first: Outcome, second: Outcome, m: Store, m': Store, succeeded: bool)
  {
    var minted := "urn:uuid:" + uuid;
    var s := NewSubscriber(minted, Child(body, EVENTING, "Subscribe"));
    var found := first == Works && id.Some? && id.value in m;
    && (t == Sub ==>
          (succeeded <==> body.Some? && Refusal(filtering, s).None? && first != Fails && Insertable(b, m, minted)))
    && (t == Unsub ==> (succeeded <==> found))
    && (t == Renew ==> (succeeded <==> found && body.Some? && second != Fails))
    && (t != Sub && t != Unsub && t != Renew ==> succeeded)
    && m' == if t == Sub && body.Some? then AfterSubscribe(b, filtering, m, s, first)
             else if t == Unsub && id.Some? && id.value in m then AfterUnsubscribe(m, id.value, first, second)
             else if t == Renew && id.Some? && body.Some?
                 then AfterRenew(b, m, id.value, RenewExpires(body), first, second)
             else m
  }

  /** The fault that the handler sets: why a Subscribe is refused, or that a Renew found nothing to renew. */
  function HandlerFault(filtering: bool, t: MessageType, id: Option<string>, body: Option<Node>, uuid: string,
      first: Outcome, m: Store): Option<FaultCode>
  {
    if t == Sub && body.Some?
      then Refusal(filtering, NewSubscriber("urn:uuid:" + uuid, Child(body, EVENTING, "Subscribe")))
    else if t == Renew && !(first == Works && id.Some? && id.value in m && body.Some?) then Some(UnableToRenew)
    else None
  }

  lemma SubscribeIsHandled(filtering: bool, b: Backend, id: Option<string>, body: Option<Node>, uuid: string,
      first: Outcome, second: Outcome, m: Store, m': Store, succeeded: bool, fault: Option<FaultCode>)
    requires var minted := "urn:uuid:" + uuid;
             var s := NewSubscriber(minted, Child(body, EVENTING, "Subscribe"));
             if body.None? then !succeeded && m' == m else
               && m' == AfterSubscribe(b, filtering, m, s, first)
               && (succeeded <==> Refusal(filtering, s).None? && first != Fails && Insertable(b, m, minted))
    ensures Handled(filtering, b, Sub, id, body, uuid, first, second, m, m', succeeded)
    ensures HandlerFault(filtering, Sub, id, body, uuid, first, m).OrElse(fault)
         == if body.None? then fault
            else Refusal(filtering, NewSubscriber("urn:uuid:" + uuid, Child(body, EVENTING, "Subscribe"))).OrElse(fault)
  {
    hide NewSubscriber, Child, Refusal, AfterSubscribe, Insertable;
  }

  lemma RenewIsHandled(filtering: bool, b: Backend, id: Option<string>, body: Option<Node>, uuid: string,
      first: Outcome, second: Outcome, m: Store, m': Store, succeeded: bool, fault: Option<FaultCode>)
    requires var found := first == Works && id.Some? && id.value in m && body.Some?;
             && (succeeded <==> found && second != Fails)
             && m' == if found then AfterRenew(b, m, id.value, RenewExpires(body), first, second) else m
    ensures Handled(filtering, b, Renew, id, body, uuid, first, second, m, m', succeeded)
    ensures HandlerFault(filtering, Renew, id, body, uuid, first, m).OrElse(fault)
         == if first == Works && id.Some? && id.value in m && body.Some? then fault else Some(UnableToRenew)
  {
    hide NewSubscriber, Child, Refusal, Merged, Edited, RenewExpires;
  }

  lemma OthersAreHandled(filtering: bool, b: Backend, t: MessageType, id: Option<string>, body: Option<Node>,
      uuid: string, first: Outcome, second: Outcome, m: Store, m': Store, succeeded: bool)
    requires t == Unsub ==>
               && (succeeded <==> first == Works && id.Some? && id.value in m)
               && m' == if succeeded then AfterUnsubscribe(m, id.value, first, second) else m
    requires t != Sub && t != Renew && (t != Unsub ==> succeeded && m' == m)
    ensures Handled(filtering, b, t, id, body, uuid, first, second, m, m', succeeded)
    ensures HandlerFault(filtering, t, id, body, uuid, first, m) == None
  {
    hide NewSubscriber, Child, Refusal, AfterSubscribe, AfterRenew;
  }

  class SubProcessor {
    const mgr: SubsMgr
    const filtering: bool

    constructor (mgr: SubsMgr, filtering: bool)
      ensures this.mgr == mgr && this.filtering == filtering
    {
      this.mgr, this.filtering := mgr, filtering;
    }

    method ValidateDeliveryMode(s: Subscriber, ctx: MsgCtx) returns (status: Status)
      modifies ctx`fault
      ensures status == Success <==> s.deliveryMode.None? || s.deliveryMode == Some(PUSH)
      ensures ctx.fault == if status == Success then old(ctx.fault) else Some(DeliveryModeUnavailable)
    {
      if s.deliveryMode.None? {
        return Success;
      } else if s.deliveryMode == Some(PUSH) {
        return Success;
      }
      ctx.fault := Some(DeliveryModeUnavailable);
      status := Failure;
    }

    method ValidateFilter(s: Subscriber, ctx: MsgCtx) returns (status: Status)
      modifies ctx`fault
      ensures status == Success <==> (s.filter.Some? ==> DialectAccepted(filtering, s.filterDialect))
      ensures ctx.fault == if status == Success then old(ctx.fault)
                           else if s.filterDialect == Some(XPATH_DIALECT) then Some(FilteringNotSupported)
                               else Some(FilterUnavailable)
    {
      if s.filter.None? {
        return Success;
      } else if s.filterDialect == Some(XPATH_DIALECT) {
        if filtering {
          return Success;
        }
        ctx.fault := Some(FilteringNotSupported);
        return Failure;
      } else if s.filterDialect == Some(SYNAPSE_DIALECT) {
        return Success;
      }
      ctx.fault := Some(FilterUnavailable);
      status := Failure;
    }

    method ValidateSubscription(s: Subscriber, ctx: MsgCtx) returns (status: Status)
      modifies ctx`fault
      ensures status == Success <==> Refusal(filtering, s.Value()).None?
      ensures ctx.fault == Refusal(filtering, s.Value()).OrElse(old(ctx.fault))
      ensures s.deliveryMode.None? ==>
          (status == Success <==>
            || s.filter.None? || s.filterDialect == Some(SYNAPSE_DIALECT)
            || (filtering && s.filterDialect == Some(XPATH_DIALECT)))
      ensures s.deliveryMode.None? && status == Failure ==>
          ctx.fault == Some(if s.filterDialect == Some(XPATH_DIALECT) then FilteringNotSupported else FilterUnavailable)
    {
      RefusalExactly(filtering, s.Value());
      status := ValidateDeliveryMode(s, ctx);
      if status == Success {
        status := ValidateFilter(s, ctx);
      }
    }

    /** savan_sub_processor_create_subscriber_from_msg; the subscriber already has its id when the envelope turns out
        to be incomplete. */
    method CreateSubscriberFromMsg(ctx: MsgCtx, uuid: string) returns (s: Subscriber?)
      ensures s == null <==> Body(ctx.envelope).None?
      ensures s != null ==>
          fresh(s) && s.Value()
              == ReadSubscribe(Child(Body(ctx.envelope), EVENTING, "Subscribe"), BLANK.(id := Some("urn:uuid:" + uuid)))
    {
      var created := new Subscriber();
      created.id := Some("urn:uuid:" + uuid);
      if ctx.envelope.None? || ctx.envelope.value.body.None? {
        return null;
      }
      var subscribe := Child(ctx.envelope.value.body, EVENTING, "Subscribe");
      ProcessSubscriberNode(subscribe, created);
      s := created;
    }

    method Subscribe(ctx: MsgCtx, uuid: string, o: Outcome) returns (status: Status)
      modifies ctx, mgr
      ensures var id := "urn:uuid:" + uuid;
              var s := NewSubscriber(id, Child(Body(ctx.envelope), EVENTING, "Subscribe"));
              if Body(ctx.envelope).None? then
                status == Failure && mgr.store == old(mgr.store) && ctx.fault == old(ctx.fault)
                    && ctx.subId == old(ctx.subId)
              else
                && ctx.subId == Some(id)
                && mgr.store == AfterSubscribe(mgr.backend, filtering, old(mgr.store), s, o)
                && ctx.fault == Refusal(filtering, s).OrElse(old(ctx.fault))
                && (status == Success <==>
                      Refusal(filtering, s).None? && o != Fails && Insertable(mgr.backend, old(mgr.store), id))
                && (status == Success ==> ctx.subscriber != null && ctx.subscriber.Value() == s)
      ensures status == Failure ==> mgr.store == old(mgr.store) && ctx.subscriber == old(ctx.subscriber)
    {
      var s := CreateSubscriberFromMsg(ctx, uuid);
      if s == null {
        return Failure;
      }
      s.expires := Some(FOREVER);
      ghost var r := s.Value();
      assert r == NewSubscriber("urn:uuid:" + uuid, Child(Body(ctx.envelope), EVENTING, "Subscribe"));
      hide NewSubscriber, ReadSubscribe, Child, Refusal, Stores.Insert;
      ctx.subId := s.id;
      status := ValidateSubscription(s, ctx);
      if status != Success {
        return;
      }
      status := mgr.Insert(s, o);
      if status == Success {
        ctx.subscriber := s;
      }
    }

    method Unsubscribe(ctx: MsgCtx, read: Outcome, removed: Outcome) returns (status: Status)
      requires Keyed(mgr.store)
      modifies ctx, mgr
      ensures var id := SubscriptionId(ctx.envelope);
              && (status == Success <==> read == Works && id.Some? && id.value in old(mgr.store))
              && (status == Success ==>
                    ctx.subId == id && mgr.store == AfterUnsubscribe(old(mgr.store), id.value, read, removed))
              && (status == Failure ==> ctx.subId == old(ctx.subId) && mgr.store == old(mgr.store))
              && ctx.fault == old(ctx.fault)
    {
      var id := SubscriptionId(ctx.envelope);
      var s := mgr.Retrieve(id, read);
      if s == null {
        return Failure;
      }
      ctx.subId := s.id;
      mgr.RemoveSubscriber(s.id.value, removed);
      status := Success;
    }

    /** savan_subs_mgr_get_subscriber_from_renew_msg. */
    method GetSubscriberFromRenewMsg(ctx: MsgCtx, read: Outcome) returns (s: Subscriber?)
      requires Keyed(mgr.store)
      ensures var id := SubscriptionId(ctx.envelope);
              && (s != null <==> read == Works && id.Some? && id.value in mgr.store && Body(ctx.envelope).Some?)
              && (s != null ==> fresh(s) && s.Value() == Edited(mgr.store[id.value], RenewExpires(Body(ctx.envelope))))
    {
      var id := SubscriptionId(ctx.envelope);
      s := mgr.Retrieve(id, read);
      if s == null {
        return;
      }
      if ctx.envelope.value.body.None? {
        return null;
      }
      var renew := Child(ctx.envelope.value.body, EVENTING, "Renew");
      var expires := Child(renew, EVENTING, "Expires");
      if expires.Some? && Text(expires).Some? {
        s.expires := Text(expires);
      }
      s.renewed := true;
    }

    method RenewSubscription(ctx: MsgCtx, read: Outcome, written: Outcome) returns (status: Status)
      requires Keyed(mgr.store)
      modifies ctx, mgr
      ensures var id := SubscriptionId(ctx.envelope);
              var found := read == Works && id.Some? && id.value in old(mgr.store) && Body(ctx.envelope).Some?;
              && (status == Success <==> found && written != Fails)
              && (if found then ctx.subId == id && ctx.fault == old(ctx.fault)
                  else ctx.subId == old(ctx.subId) && ctx.fault == Some(UnableToRenew))
              && mgr.store == if found
                    then AfterRenew(mgr.backend, old(mgr.store), id.value, RenewExpires(Body(ctx.envelope)), read,
                        written)
                              else old(mgr.store)
    {
      var s := GetSubscriberFromRenewMsg(ctx, read);
      if s == null {
        ctx.fault := Some(UnableToRenew);
        return Failure;
      }
      ctx.subId := s.id;
      status := mgr.Update(s, written);
    }

    method GetStatus(ctx: MsgCtx) returns (status: Status)
      modifies ctx`subId
      ensures status == Success && ctx.subId == SubscriptionId(ctx.envelope)
    {
      ctx.subId := SubscriptionId(ctx.envelope);
      status := Success;
    }

    /** savan_in_handler_invoke: the first phase of a request. */
    method Handle(ctx: MsgCtx, uuid: string, first: Outcome, second: Outcome) returns (status: Status)
      requires Keyed(mgr.store)
      modifies ctx, mgr
      ensures Keyed(mgr.store)
      ensures Handled(filtering, mgr.backend, GetMessageType(ctx.action), SubscriptionId(ctx.envelope),
                      Body(ctx.envelope), uuid, first, second, old(mgr.store), mgr.store, status == Success)
      ensures GetMessageType(ctx.action) == Sub && status == Success ==>
          ctx.subId == Some("urn:uuid:" + uuid) && ctx.subscriber != null && ctx.subscriber.expires == Some(FOREVER)
      ensures ctx.fault == HandlerFault(filtering, GetMessageType(ctx.action), SubscriptionId(ctx.envelope),
                                        Body(ctx.envelope), uuid, first, old(mgr.store)).OrElse(old(ctx.fault))
    {
      hide ActionOf, GetMessageType, NewSubscriber, SubscriptionId, Body, Child, Refusal, RenewExpires, Edited,
          AfterSubscribe, AfterRenew, AfterUnsubscribe, Keyed, Insertable, Stores.Remove, Merged, Handled, HandlerFault;
      var t := GetMessageType(ctx.action);
      status := Success;
      ghost var m, f, id, body := mgr.store, ctx.fault, SubscriptionId(ctx.envelope), Body(ctx.envelope);
      HandlersKeepKeyed(mgr.backend, filtering, mgr.store, uuid, SubscriptionId(ctx.envelope), Body(ctx.envelope),
        first, second);
      match t {
        case Sub =>
          status := Subscribe(ctx, uuid, first);
          SubscribeIsHandled(filtering, mgr.backend, id, body, uuid, first, second, m, mgr.store, status == Success, f);
        case Unsub => status := Unsubscribe(ctx, first, second);
        case Renew =>
          status := RenewSubscription(ctx, first, second);
          RenewIsHandled(filtering, mgr.backend, id, body, uuid, first, second, m, mgr.store, status == Success, f);
        case GetStatus => status := GetStatus(ctx);
        case _ =>
      }
      if t != Sub && t != Renew {
        OthersAreHandled(filtering, mgr.backend, t, id, body, uuid, first, second, m, mgr.store, status == Success);
      }
    }
  }

  // ---- Responses --------------------------------------------------------------------------------------------

  function SubscribeResponseNode(address: Option<string>, id: Option<string>, expires: Option<string>): Node {
    var manager := Element(EVENTING, "SubscriptionManager", None,
                           [Element(ADDRESSING, "Address", address, []),
                            Element(ADDRESSING, "ReferenceParameters", None,
                                [Element(EVENTING, "Identifier", id, [])])]);
    Element(EVENTING, "SubscribeResponse", None, [manager] + Optional("Expires", expires))
  }

  function ExpiresResponseNode(local: string, expires: Option<string>): Node {
    Element(EVENTING, local, None, Optional("Expires", expires))
  }

  function ExpiresIn(response: Option<Node>): Option<string> {
    Text(Child(response, EVENTING, "Expires"))
  }

  /** A client that reads the Expires of a response reads the expiry that was put in. */
  lemma ExpiresArrives(local: string, address: Option<string>, id: Option<string>, expires: Option<string>)
    ensures ExpiresIn(Some(ExpiresResponseNode(local, expires))) == expires
    ensures ExpiresIn(Some(SubscribeResponseNode(address, id, expires))) == expires
  {
    FindOptional("Expires", expires, [], "Expires");
    assert Optional("Expires", expires) + [] == Optional("Expires", expires);
    var response := SubscribeResponseNode(address, id, expires);
    assert response.children[1..] == Optional("Expires", expires);
  }

  /** The message receiver: the second phase of a request, which runs after the handler succeeded. */
  class MsgReceiver {
    const mgr: SubsMgr
    /** The SubscriptionMgrURL parameter of the module. */
    const managerUrl: Option<string>

    constructor (mgr: SubsMgr, managerUrl: Option<string>)
      ensures this.mgr == mgr && this.managerUrl == managerUrl
    {
      this.mgr, this.managerUrl := mgr, managerUrl;
    }

    /** to is the address that the request was sent to. */
    method HandleSubRequest(ctx: MsgCtx, to: Option<string>, reply: MsgCtx) returns (status: Status)
      modifies reply
      ensures reply.replyAction == Some(ActionOf(SubResponse))
      ensures status == Success <==> ctx.subscriber != null
      ensures status == Success ==>
          reply.reply == Some(SubscribeResponseNode(managerUrl.OrElse(to), ctx.subId, ctx.subscriber.expires))
      ensures status == Failure ==> reply.reply == old(reply.reply)
    {
      hide ActionOf;
      reply.replyAction := Some(ActionOf(SubResponse));
      var address := if managerUrl.Some? then managerUrl else to;
      var managerNode := Element(EVENTING, "SubscriptionManager", None, [Element(ADDRESSING, "Address", address, [])]);
      var parameters := Element(ADDRESSING, "ReferenceParameters", None,
          [Element(EVENTING, "Identifier", ctx.subId, [])]);
      managerNode := managerNode.(children := managerNode.children + [parameters]);
      assert managerNode.children == [Element(ADDRESSING, "Address", address, []), parameters];
      if ctx.subscriber == null {
        return Failure;
      }
      var children := [managerNode];
      if ctx.subscriber.expires.Some? {
        children := children + [Element(EVENTING, "Expires", ctx.subscriber.expires, [])];
      }
      assert children == [managerNode] + Optional("Expires", ctx.subscriber.expires);
      reply.reply := Some(Element(EVENTING, "SubscribeResponse", None, children));
      status := Success;
    }

    /** Answered only if the subscription is not found: because it is gone, or because the re-read did not work. */
    method HandleUnsubRequest(ctx: MsgCtx, reply: MsgCtx, reread: Outcome) returns (status: Status)
      modifies reply
      ensures var id := SubscriptionId(ctx.envelope);
              status == Success <==> !(reread == Works && id.Some? && id.value in mgr.store)
      ensures if status == Success
              then reply.replyAction == Some(ActionOf(UnsubResponse))
                  && reply.reply == Some(Element(EVENTING, "UnsubscribeResponse", None, []))
              else reply.replyAction == old(reply.replyAction) && reply.reply == old(reply.reply)
    {
      hide ActionOf, SubscriptionId;
      var s := mgr.Retrieve(SubscriptionId(ctx.envelope), reread);
      if s != null {
        return Failure;
      }
      reply.replyAction := Some(ActionOf(UnsubResponse));
      reply.reply := Some(Element(EVENTING, "UnsubscribeResponse", None, []));
      status := Success;
    }

    method HandleRenewRequest(ctx: MsgCtx, reply: MsgCtx, reread: Outcome) returns (status: Status)
      modifies reply
      ensures var id := SubscriptionId(ctx.envelope);
              && (status == Success <==> reread == Works && id.Some? && id.value in mgr.store)
              && (if status == Success
                  then reply.replyAction == Some(ActionOf(RenewResponse))
                       && reply.reply == Some(ExpiresResponseNode("RenewResponse", mgr.store[id.value].expires))
                  else reply.replyAction == old(reply.replyAction) && reply.reply == old(reply.reply))
    {
      hide ActionOf, SubscriptionId;
      var s := mgr.Retrieve(SubscriptionId(ctx.envelope), reread);
      if s == null {
        return Failure;
      }
      reply.replyAction := Some(ActionOf(RenewResponse));
      var children := [];
      if s.expires.Some? {
        children := [Element(EVENTING, "Expires", s.expires, [])];
      }
      assert children == Optional("Expires", s.expires);
      reply.reply := Some(Element(EVENTING, "RenewResponse", None, children));
      status := Success;
    }

    /** The action of the reply is set before the subscription is looked for. */
    method HandleGetStatusRequest(ctx: MsgCtx, reply: MsgCtx, reread: Outcome) returns (status: Status)
      modifies reply
      ensures reply.replyAction == Some(ActionOf(GetStatusResponse))
      ensures var id := SubscriptionId(ctx.envelope);
              && (status == Success <==> reread == Works && id.Some? && id.value in mgr.store)
              && reply.reply == if status == Success
                                then Some(ExpiresResponseNode("GetStatusResponse", mgr.store[id.value].expires))
                                else old(reply.reply)
    {
      hide ActionOf, SubscriptionId;
      reply.replyAction := Some(ActionOf(GetStatusResponse));
      var s := mgr.Retrieve(SubscriptionId(ctx.envelope), reread);
      if s == null {
        return Failure;
      }
      var children := [];
      if s.expires.Some? {
        children := [Element(EVENTING, "Expires", s.expires, [])];
      }
      assert children == Optional("Expires", s.expires);
      reply.reply := Some(Element(EVENTING, "GetStatusResponse", None, children));
      status := Success;
    }

    /** savan_msg_recv_invoke_business_logic_sync; any other message is an event, which is published. */
    method Invoke(ctx: MsgCtx, to: Option<string>, reply: MsgCtx, reread: Outcome) returns (status: Status)
      requires ctx != reply
      modifies ctx`fault, reply
      ensures var t, id := GetMessageType(ctx.action), SubscriptionId(ctx.envelope);
              var stored := reread == Works && id.Some? && id.value in mgr.store;
              && (status == Success <==> if t == Sub then ctx.subscriber != null else if t == Unsub then !stored
                                         else t == Renew || t == GetStatus ==> stored)
              && (status == Success && t == Renew ==>
                    reply.reply == Some(ExpiresResponseNode("RenewResponse", mgr.store[id.value].expires)))
              && (status == Success && t == GetStatus ==>
                    reply.reply == Some(ExpiresResponseNode("GetStatusResponse", mgr.store[id.value].expires)))
              && (status == Success && t == Unsub ==>
                    reply.reply == Some(Element(EVENTING, "UnsubscribeResponse", None, [])))
              && (status == Success && t == Sub ==>
                    reply.reply == Some(SubscribeResponseNode(managerUrl.OrElse(to), ctx.subId,
                        ctx.subscriber.expires)))
      ensures ctx.fault == if status == Success then old(ctx.fault) else Some(UnableToProcess)
      ensures mgr.store == old(mgr.store)
    {
      hide ActionOf, SubscriptionId, ExpiresResponseNode, SubscribeResponseNode, ExpiresIn;
      var t := GetMessageType(ctx.action);
      status := Success;
      match t {
        case Sub =>
          status := HandleSubRequest(ctx, to, reply);
        case Unsub => status := HandleUnsubRequest(ctx, reply, reread);
        case Renew => status := HandleRenewRequest(ctx, reply, reread);
        case GetStatus => status := HandleGetStatusRequest(ctx, reply, reread);
        case _ =>
      }
      if status != Success {
        ctx.fault := Some(UnableToProcess);
      }
    }
  }
}
