/** A client's request from the client's call to what the client reports, through both phases of the server. */
module Session {
  import opened Options
  import opened Subscribers
  import opened Stores
  import opened Xml
  import opened SubscriberXml
  import opened Requests
  import opened Server
  import opened Service
  import C = Client
  import P = Protocol

  /** A request as the server gets it, with other headers around those of the client. */
  function Received(o: C.Outgoing, before: seq<Node>, after: seq<Node>): Envelope {
    Envelope(Some(Node(QName(None, "Header"), map[], None, before + o.headers + after)),
             Some(Node(QName(None, "Body"), map[], None, [o.body])))
  }

  lemma IdentifierArrives(o: C.Outgoing, before: seq<Node>, after: seq<Node>, id: Option<string>)
    requires C.NoneNamed(before) && o.headers != [] && o.headers[0] == C.IdentifierHeader(id)
    ensures SubscriptionId(Some(Received(o, before, after))) == id
  {
    C.OldestHeaderIsRead(before, o.headers, after, id);
    hide C.IdentifierHeader, C.NoneNamed, Child;
  }

  lemma SubscribeArrives(o: C.Outgoing, options: C.ClientOptions, before: seq<Node>, after: seq<Node>)
    requires o.body == SubscribeNode(C.Asked(options))
    ensures Child(Body(Some(Received(o, before, after))), EVENTING, "Subscribe") == Some(o.body)
  {
  }

  lemma TypesAreRecognised()
    ensures GetMessageType(Some(ActionOf(Sub))) == Sub && GetMessageType(Some(ActionOf(Renew))) == Renew
  {
    hide GetMessageType, ActionOf;
    ActionsAreRecognised(Some(ActionOf(Sub)), Sub);
    ActionsAreRecognised(Some(ActionOf(Renew)), Renew);
  }

  /** What a client that asks for a renewal is told. */
  function Told(m: Store, id: Option<string>, expires: Option<string>, first: Outcome, second: Outcome,
      reread: Outcome): Option<string>
  {
    if first == Works && second != Fails && reread == Works && id.Some? && id.value in m
    then (if second == Works then expires.OrElse(m[id.value].expires) else m[id.value].expires)
    else None
  }

  lemma ServedIsTold(cfg: Config, b: Backend, c: Course, expires: Option<string>, fault: Option<Node>, m: Store,
      m': Store, answered: bool, reply: Option<Node>)
    requires Served(cfg, b, Renew, c, "", None, m, m', answered, reply)
    requires c.body.Some? && RenewExpires(c.body) == expires
    requires fault.Some? ==> fault.value.name.local != "RenewResponse"
    ensures m' == if c.id.Some? then AfterRenew(b, m, c.id.value, expires, c.first, c.second) else m
    ensures C.Reported(if answered then reply else fault, "RenewResponse")
         == Told(m, c.id, expires, c.first, c.second, c.reread)
  {
    hide RenewExpires, AfterRenew;
    if answered {
      ExpiresArrives("RenewResponse", None, None, RenewedExpiry(c, m));
    }
  }

  /** The client's own id, however many requests it made before, is renewed; fault is what comes back if there is no
      answer. */
  method RenewAtServer(
    client: C.SavanClient, svc: C.SvcClient, expires: Option<string>, conf: ConfCtx, created: SubsMgr?,
    later: SubsMgr?, cfg: Config, before: seq<Node>, after: seq<Node>, fault: Option<Node>,
    first: Outcome, second: Outcome, reread: Outcome)
    returns (reported: Option<string>)
    requires C.NoneNamed(before) && (svc.headers != [] ==> svc.headers[0] == C.IdentifierHeader(client.subId))
    requires fault.Some? ==> fault.value.name.local != "RenewResponse"
    requires var mgr := ManagerOf(conf, created); mgr != null ==> Keyed(mgr.store)
    modifies svc, conf, ManagerOf(conf, created)
    ensures svc.action == old(svc.action) && svc.headers == old(svc.headers) + [C.IdentifierHeader(client.subId)]
    ensures conf.subsMgr == old(ManagerOf(conf, created))
    ensures if conf.subsMgr == null then reported == None else
              var m, id := old(ManagerOf(conf, created).store), client.subId;
              && Keyed(conf.subsMgr.store)
              && conf.subsMgr.store ==
                   (if id.Some? then AfterRenew(conf.subsMgr.backend, m, id.value, expires, first, second) else m)
              && reported == Told(m, id, expires, first, second, reread)
  {
    var request := C.Outgoing(ActionOf(Renew), svc.headers + [C.IdentifierHeader(client.subId)],
      C.RequestBody("Renew", expires));
    var envelope := Received(request, before, after);
    assert Body(Some(envelope)) == Some(Node(QName(None, "Body"), map[], None, [request.body]));
    hide ActionOf, GetMessageType, SubscriptionId, C.IdentifierHeader, C.RequestBody, RenewExpires, Received, Body,
        Keyed, AfterRenew, C.NoneNamed, Served, Told, C.Reported;
    TypesAreRecognised();
    IdentifierArrives(request, before, after, client.subId);
    C.RenewIsRead(expires, QName(None, "Body"));
    var ctx := new MsgCtx(Some(request.action), Some(envelope));
    var reply := new MsgCtx(None, None);
    var answered := Serve(conf, created, later, cfg, ctx, reply, "", None, first, second, reread);
    reported := client.Renew(svc, expires, if answered then reply.reply else fault);
    if conf.subsMgr == null {
      C.NotReported(fault, "RenewResponse");
    } else {
      ServedIsTold(cfg, conf.subsMgr.backend, CourseOf(ctx, first, second, reread), expires, fault,
        old(ManagerOf(conf, created).store), conf.subsMgr.store, answered, reply.reply);
    }
  }

  // ---- Asking and unsubscribing -----------------------------------------------------------------------------

  lemma OtherTypesAreRecognised()
    ensures GetMessageType(Some(ActionOf(GetStatus))) == GetStatus && GetMessageType(Some(ActionOf(Unsub))) == Unsub
  {
    hide GetMessageType, ActionOf;
    ActionsAreRecognised(Some(ActionOf(GetStatus)), GetStatus);
    ActionsAreRecognised(Some(ActionOf(Unsub)), Unsub);
  }

  lemma ServedIsShown(cfg: Config, b: Backend, c: Course, fault: Option<Node>, m: Store, m': Store, answered: bool,
      reply: Option<Node>)
    requires Served(cfg, b, GetStatus, c, "", None, m, m', answered, reply)
    requires fault.Some? ==> fault.value.name.local != "GetStatusResponse"
    ensures m' == m
    ensures C.Reported(if answered then reply else fault, "GetStatusResponse")
         == if c.reread == Works && c.id.Some? && c.id.value in m then m[c.id.value].expires else None
  {
    if answered {
      C.ResponseIsReported("GetStatusResponse", "GetStatusResponse", m[c.id.value].expires);
    }
    hide ExpiresResponseNode;
  }

  /** The client is told the stored expiry of its own id exactly if it is stored and the re-read works, and nothing
      changes. */
  method GetStatusAtServer(
    client: C.SavanClient, svc: C.SvcClient, conf: ConfCtx, created: SubsMgr?, later: SubsMgr?, cfg: Config,
    before: seq<Node>, after: seq<Node>, fault: Option<Node>, reread: Outcome)
    returns (reported: Option<string>)
    requires C.NoneNamed(before) && (svc.headers != [] ==> svc.headers[0] == C.IdentifierHeader(client.subId))
    requires fault.Some? ==> fault.value.name.local != "GetStatusResponse"
    requires var mgr := ManagerOf(conf, created); mgr != null ==> Keyed(mgr.store)
    modifies svc, conf, ManagerOf(conf, created)
    ensures svc.action == old(svc.action) && svc.headers == old(svc.headers) + [C.IdentifierHeader(client.subId)]
    ensures conf.subsMgr == old(ManagerOf(conf, created))
    ensures if conf.subsMgr == null then reported == None else
              var m, id := old(ManagerOf(conf, created).store), client.subId;
              && conf.subsMgr.store == m
              && reported == if reread == Works && id.Some? && id.value in m then m[id.value].expires else None
  {
    var request := C.Outgoing(ActionOf(GetStatus), svc.headers + [C.IdentifierHeader(client.subId)],
      C.RequestBody("GetStatus", None));
    var envelope := Received(request, before, after);
    hide ActionOf, GetMessageType, SubscriptionId, C.IdentifierHeader, C.RequestBody, Received, Body, Keyed,
        C.NoneNamed, Served, C.Reported;
    OtherTypesAreRecognised();
    IdentifierArrives(request, before, after, client.subId);
    var ctx := new MsgCtx(Some(request.action), Some(envelope));
    var reply := new MsgCtx(None, None);
    var answered := Serve(conf, created, later, cfg, ctx, reply, "", None, Works, Works, reread);
    reported := client.GetStatus(svc, if answered then reply.reply else fault);
    if conf.subsMgr == null {
      C.NotReported(fault, "GetStatusResponse");
    } else {
      ServedIsShown(cfg, conf.subsMgr.backend, CourseOf(ctx, Works, Works, reread), fault,
        old(ManagerOf(conf, created).store), conf.subsMgr.store, answered, reply.reply);
    }
  }

  lemma ServedIsGone(cfg: Config, b: Backend, c: Course, m: Store, m': Store, answered: bool, reply: Option<Node>)
    requires Served(cfg, b, Unsub, c, "", None, m, m', answered, reply)
    ensures answered <==> c.id.Some? && c.id.value in m && c.first == Works && (c.reread == Works ==> c.second == Works)
    ensures answered ==> reply.Some?
    ensures m' == if c.id.Some? && c.first == Works && c.second == Works then m - {c.id.value} else m
  {
  }

  /** The client is told that it unsubscribed if its own id was found and is then gone or cannot be re-read, and also if
      a fault comes back, as it takes any reply for a success. Exactly that id is gone if the removal worked. */
  method UnsubscribeAtServer(
    client: C.SavanClient, svc: C.SvcClient, conf: ConfCtx, created: SubsMgr?, later: SubsMgr?, cfg: Config,
    before: seq<Node>, after: seq<Node>, fault: Option<Node>, first: Outcome, second: Outcome, reread: Outcome)
    returns (done: bool)
    requires C.NoneNamed(before) && (svc.headers != [] ==> svc.headers[0] == C.IdentifierHeader(client.subId))
    requires var mgr := ManagerOf(conf, created); mgr != null ==> Keyed(mgr.store)
    modifies svc, conf, ManagerOf(conf, created)
    ensures svc.action == old(svc.action) && svc.headers == old(svc.headers) + [C.IdentifierHeader(client.subId)]
    ensures conf.subsMgr == old(ManagerOf(conf, created))
    ensures if conf.subsMgr == null then done <==> fault.Some? else
              var m, id := old(ManagerOf(conf, created).store), client.subId;
              && (done <==>
                    || fault.Some?
                    || (first == Works && id.Some? && id.value in m && (reread == Works ==> second == Works)))
              && conf.subsMgr.store ==
                   if id.Some? && first == Works && second == Works then m - {id.value} else m
  {
    var request := C.Outgoing(ActionOf(Unsub), svc.headers + [C.IdentifierHeader(client.subId)],
      C.RequestBody("Unsubscribe", None));
    var envelope := Received(request, before, after);
    hide ActionOf, GetMessageType, SubscriptionId, C.IdentifierHeader, C.RequestBody, Received, Body, Keyed,
        C.NoneNamed, Served;
    OtherTypesAreRecognised();
    IdentifierArrives(request, before, after, client.subId);
    var ctx := new MsgCtx(Some(request.action), Some(envelope));
    var reply := new MsgCtx(None, None);
    var answered := Serve(conf, created, later, cfg, ctx, reply, "", None, first, second, reread);
    if conf.subsMgr != null {
      ServedIsGone(cfg, conf.subsMgr.backend, CourseOf(ctx, first, second, reread),
        old(ManagerOf(conf, created).store), conf.subsMgr.store, answered, reply.reply);
    }
    done := client.Unsubscribe(svc, if answered then reply.reply else fault);
  }

  // ---- Subscribing ------------------------------------------------------------------------------------------

  /** The subscriber that the server makes of a client's options. */
  function AskedFor(uuid: string, o: C.ClientOptions): Record {
    NewSubscriber("urn:uuid:" + uuid, Some(SubscribeNode(C.Asked(o))))
  }

  /** Whether a client's Subscribe is accepted by the server. */
  predicate Accepted(filtering: bool, o: C.ClientOptions) {
    || o.filter.None? || o.filterDialect.None? || o.filterDialect == Some(SYNAPSE_DIALECT)
    || (filtering && o.filterDialect == Some(XPATH_DIALECT))
  }

  lemma ServedIsSubscribed(cfg: Config, b: Backend, c: Course, uuid: string, to: Option<string>, o: C.ClientOptions,
      m: Store, m': Store, answered: bool, reply: Option<Node>)
    requires Served(cfg, b, Sub, c, uuid, to, m, m', answered, reply)
    requires c.body.Some? && Child(c.body, EVENTING, "Subscribe") == Some(SubscribeNode(C.Asked(o)))
    ensures var id := "urn:uuid:" + uuid;
            && AskedFor(uuid, o).id.Some?
            && m' == AfterSubscribe(b, cfg.filtering, m, AskedFor(uuid, o), c.first)
            && (answered <==> Accepted(cfg.filtering, o) && c.first != Fails && Insertable(b, m, id))
            && (answered ==>
                  reply.Some? && reply.value.name.local == "SubscribeResponse" && C.IdIn(reply.value) == Some(id))
  {
    var id := "urn:uuid:" + uuid;
    C.WhatIsSubscribed(id, o, cfg.filtering);
    P.NewSubscriberIsLegal(id, Some(SubscribeNode(C.Asked(o))));
    C.SubscribeResponseRoundTrip(cfg.managerUrl.OrElse(to), Some(id), Some(FOREVER));
    assert SubscribeResponseNode(cfg.managerUrl.OrElse(to), Some(id), Some(FOREVER)).name.local == "SubscribeResponse";
    hide NewSubscriber, Child, Refusal, SubscribeNode, SubscribeResponseNode, AfterSubscribe, C.IdIn, C.Asked,
        Insertable;
  }

  /** A client is told that it subscribed exactly if it is accepted and its write is reported as a success; it then has
      the id under which it was stored. */
  method SubscribeAtServer(
    client: C.SavanClient, svc: C.SvcClient, o: C.ClientOptions, conf: ConfCtx, created: SubsMgr?, later: SubsMgr?,
    cfg: Config, uuid: string, to: Option<string>, before: seq<Node>, after: seq<Node>, fault: Option<Node>,
    first: Outcome)
    returns (done: bool)
    requires fault.Some? ==> fault.value.name.local != "SubscribeResponse"
    requires var mgr := ManagerOf(conf, created); mgr != null ==> Keyed(mgr.store)
    modifies client, svc, conf, ManagerOf(conf, created)
    ensures svc.action == old(svc.action) && svc.headers == old(svc.headers)
    ensures conf.subsMgr == old(ManagerOf(conf, created))
    ensures client.subId == if done then Some("urn:uuid:" + uuid) else old(client.subId)
    ensures AskedFor(uuid, o).id.Some?
    ensures if conf.subsMgr == null then !done else
              var m, b := old(ManagerOf(conf, created).store), conf.subsMgr.backend;
              && Keyed(conf.subsMgr.store)
              && conf.subsMgr.store == AfterSubscribe(b, cfg.filtering, m, AskedFor(uuid, o), first)
              && (done <==> Accepted(cfg.filtering, o) && first != Fails && Insertable(b, m, "urn:uuid:" + uuid))
  {
    var request := C.Outgoing(ActionOf(Sub), svc.headers, SubscribeNode(C.Asked(o)));
    var envelope := Received(request, before, after);
    assert Body(Some(envelope)).Some?;
    P.NewSubscriberIsLegal("urn:uuid:" + uuid, Some(SubscribeNode(C.Asked(o))));
    hide ActionOf, GetMessageType, SubscriptionId, SubscribeNode, Received, Body, Keyed, AfterSubscribe, Served,
        C.Asked, NewSubscriber, Child, Accepted, Insertable, C.IdIn, C.UrlIn;
    TypesAreRecognised();
    SubscribeArrives(request, o, before, after);
    var ctx := new MsgCtx(Some(request.action), Some(envelope));
    var reply := new MsgCtx(None, None);
    var answered := Serve(conf, created, later, cfg, ctx, reply, uuid, to, first, Works, Works);
    done := client.Subscribe(svc, o, if answered then reply.reply else fault);
    if conf.subsMgr != null {
      ServedIsSubscribed(cfg, conf.subsMgr.backend, CourseOf(ctx, first, Works, Works), uuid, to, o,
        old(ManagerOf(conf, created).store), conf.subsMgr.store, answered, reply.reply);
    }
  }

  // ---- Subscribing and renewing -----------------------------------------------------------------------------

  /** The store after a Subscribe and a Renew that nothing hinders. */
  lemma RenewAfterSubscribe(b: Backend, filtering: bool, m: Store, s: Record, id: string, expires: string)
    requires s.id == Some(id) && s.expires == Some(FOREVER) && !s.renewed && id !in m && Refusal(filtering, s).None?
    ensures var m1 := AfterSubscribe(b, filtering, m, s, Works);
            && Told(m1, Some(id), Some(expires), Works, Works, Works)
                 == (if Storable(b, s) then Some(expires) else None)
            && AfterRenew(b, m1, id, Some(expires), Works, Works)
                 == if Storable(b, s) then m[id := Kept(b, s).(expires := Some(expires), renewed := b.Sqlite?)] else m
  {
    P.InsertedIsCopy(b, s);
    P.WriteBack(b, Kept(b, s), Kept(b, s), s, Some(expires));
    hide Refusal, Kept, Merged, Edited;
    if Storable(b, s) {
      assert AfterSubscribe(b, filtering, m, s, Works) == m[id := Kept(b, s)];
    } else {
      assert m - {id} == m;
    }
  }

  /** A new client subscribes and then renews, and no store call is hindered. It is told the expiry that it asked for,
      and the server keeps its subscription with that expiry, exactly if its filter is accepted and what it asked for
      can be stored; the store keeps everything else as it was. */
  method SubscribeThenRenew(
    client: C.SavanClient, svc: C.SvcClient, o: C.ClientOptions, expires: string, conf: ConfCtx, created: SubsMgr?,
    later: SubsMgr?, cfg: Config, uuid: string, to: Option<string>, before: seq<Node>, after: seq<Node>,
    fault: Option<Node>)
    returns (reported: Option<string>)
    requires svc.headers == [] && C.NoneNamed(before)
    requires fault.Some? ==> fault.value.name.local != "SubscribeResponse" && fault.value.name.local != "RenewResponse"
    requires var mgr := ManagerOf(conf, created);
             mgr != null && Keyed(mgr.store) && "urn:uuid:" + uuid !in mgr.store
    modifies client, svc, conf, ManagerOf(conf, created)
    ensures conf.subsMgr == old(ManagerOf(conf, created)) != null
    ensures var m, m', b := old(ManagerOf(conf, created).store), conf.subsMgr.store, conf.subsMgr.backend;
            var id, s := "urn:uuid:" + uuid, AskedFor(uuid, o);
            if Accepted(cfg.filtering, o) && Storable(b, s)
            then reported == Some(expires)
                 && m' == m[id := Kept(b, s).(expires := Some(expires), renewed := b.Sqlite?)]
            else reported == None && m' == m
  {
    ghost var id, s := "urn:uuid:" + uuid, AskedFor(uuid, o);
    ghost var m := ManagerOf(conf, created).store;
    P.NewSubscriberIsLegal(id, Some(SubscribeNode(C.Asked(o))));
    C.WhatIsSubscribed(id, o, cfg.filtering);
    hide AskedFor, NewSubscriber, Kept, Keyed, C.NoneNamed, Storable, Refusal, AfterRenew, SubscribeNode, C.Asked;
    reported := None;
    var done := SubscribeAtServer(client, svc, o, conf, created, later, cfg, uuid, to, before, after, fault, Works);
    if done {
      RenewAfterSubscribe(conf.subsMgr.backend, cfg.filtering, m, s, id, expires);
      hide AfterSubscribe, Told;
      reported := RenewAtServer(client, svc, Some(expires), conf, created, later, cfg, before, after, fault, Works,
        Works, Works);
    }
  }
}
