/** A whole request: the handler changes the store, then, if it succeeded, the receiver re-reads it and answers; and
    why that is the request of the protocol. */
module Service {
  import opened Options
  import opened Subscribers
  import opened Stores
  import opened Xml
  import opened Requests
  import opened Server
  import P = Protocol
  import R = ProtocolRuns

  // ---- The two phases on the store --------------------------------------------------------------------------

  /** How a request goes: its id as the server reads it, its body, and the outcomes of its store calls. */
  datatype Course = Course(id: Option<string>, body: Option<Node>, first: Outcome, second: Outcome, reread: Outcome)

  /** An Unsubscribe is answered if its id was found, and is then absent or cannot be re-read. */
  predicate UnsubscribeAnswered(c: Course, m: Store) {
    c.first == Works && c.id.Some? && c.id.value in m && (c.reread == Works ==> c.second == Works)
  }

  predicate RenewAnswered(c: Course, m: Store) {
    c.first == Works && c.id.Some? && c.id.value in m && c.body.Some? && c.second != Fails && c.reread == Works
  }

  predicate StatusAnswered(c: Course, m: Store) {
    c.id.Some? && c.id.value in m && c.reread == Works
  }

  /** The expiry that a Renew reports: the new one, or the old one if there is no new one or the write was lost. */
  function RenewedExpiry(c: Course, m: Store): Option<string>
    requires RenewAnswered(c, m)
  {
    if c.second == Works then RenewExpires(c.body).OrElse(m[c.id.value].expires) else m[c.id.value].expires
  }

  /** How the module is built and configured. */
  datatype Config = Config(filtering: bool, managerUrl: Option<string>)

  /** What a request does to the store, whether it is answered, and the body of the answer; uuid is what a new id is
      made of, and to the address of the request. */
  ghost predicate Served(cfg: Config, b: Backend, t: MessageType, c: Course, uuid: string, to: Option<string>,
      m: Store, m': Store, answered: bool, reply: Option<Node>)
  {
    match t
    case Unsub =>
      && (answered <==> UnsubscribeAnswered(c, m))
      && m' == (if c.id.Some? && c.id.value in m then AfterUnsubscribe(m, c.id.value, c.first, c.second) else m)
      && (answered ==> reply == Some(Element(EVENTING, "UnsubscribeResponse", None, [])))
      && (answered && c.reread == Works ==> c.id.value !in m')
    case Renew =>
      && (answered <==> RenewAnswered(c, m))
      && m' == (if c.id.Some? && c.body.Some?
                then AfterRenew(b, m, c.id.value, RenewExpires(c.body), c.first, c.second) else m)
      && (answered ==> m'[c.id.value].expires == RenewedExpiry(c, m))
      && (answered ==> reply == Some(ExpiresResponseNode("RenewResponse", RenewedExpiry(c, m))))
    case GetStatus =>
      && (answered <==> StatusAnswered(c, m)) && m' == m
      && (answered ==> reply == Some(ExpiresResponseNode("GetStatusResponse", m[c.id.value].expires)))
    case Sub =>
      var minted := "urn:uuid:" + uuid;
      var s := NewSubscriber(minted, Child(c.body, EVENTING, "Subscribe"));
      && (answered <==>
            c.body.Some? && Refusal(cfg.filtering, s).None? && c.first != Fails && Insertable(b, m, minted))
      && m' == (if c.body.Some? then AfterSubscribe(b, cfg.filtering, m, s, c.first) else m)
      && (answered ==>
            reply == Some(SubscribeResponseNode(cfg.managerUrl.OrElse(to), Some(minted), Some(FOREVER))))
    case _ => answered && m' == m
  }

  /** What the receiver answers from the store it finds. */
  ghost predicate Answered(cfg: Config, t: MessageType, c: Course, uuid: string, to: Option<string>, m: Store,
      answered: bool, reply: Option<Node>)
  {
    var stored := c.reread == Works && c.id.Some? && c.id.value in m;
    match t
    case Unsub =>
      (answered <==> !stored) && (answered ==> reply == Some(Element(EVENTING, "UnsubscribeResponse", None, [])))
    case Renew =>
      && (answered <==> stored)
      && (answered ==> reply == Some(ExpiresResponseNode("RenewResponse", m[c.id.value].expires)))
    case GetStatus =>
      && (answered <==> stored)
      && (answered ==> reply == Some(ExpiresResponseNode("GetStatusResponse", m[c.id.value].expires)))
    case Sub =>
      answered && reply ==
          Some(SubscribeResponseNode(cfg.managerUrl.OrElse(to), Some("urn:uuid:" + uuid), Some(FOREVER)))
    case _ => answered
  }

  /** The receiver runs if the handler succeeded. */
  lemma BothPhases(cfg: Config, b: Backend, t: MessageType, c: Course, uuid: string, to: Option<string>, m: Store,
      m': Store, succeeded: bool, answered: bool, reply: Option<Node>)
    requires Handled(cfg.filtering, b, t, c.id, c.body, uuid, c.first, c.second, m, m', succeeded)
    requires if succeeded then Answered(cfg, t, c, uuid, to, m', answered, reply) else !answered
    ensures Served(cfg, b, t, c, uuid, to, m, m', answered, reply)
  {
    RenewalKeepsId(b, m, c.id, RenewExpires(c.body), c.first, c.second);
    hide RenewExpires, NewSubscriber, Child, Refusal, AfterSubscribe, AfterRenew, SubscribeResponseNode,
        ExpiresResponseNode;
  }

  function CourseOf(ctx: MsgCtx, first: Outcome, second: Outcome, reread: Outcome): Course {
    Course(SubscriptionId(ctx.envelope), Body(ctx.envelope), first, second, reread)
  }

  /** The handler asks for the manager, and fails if there is none. */
  method FirstPhase(conf: ConfCtx, created: SubsMgr?, cfg: Config, ctx: MsgCtx, uuid: string, first: Outcome,
      second: Outcome)
    returns (status: Status)
    requires var mgr := ManagerOf(conf, created); mgr != null ==> Keyed(mgr.store)
    modifies conf, ctx, ManagerOf(conf, created)
    ensures conf.subsMgr == old(ManagerOf(conf, created))
    ensures conf.subsMgr == null ==> status == Failure
    ensures conf.subsMgr != null ==>
              && Keyed(conf.subsMgr.store)
              && Handled(cfg.filtering, conf.subsMgr.backend, GetMessageType(ctx.action), SubscriptionId(ctx.envelope),
                   Body(ctx.envelope), uuid, first, second, old(ManagerOf(conf, created).store), conf.subsMgr.store,
                   status == Success)
    ensures GetMessageType(ctx.action) == Sub && status == Success ==>
              ctx.subId == Some("urn:uuid:" + uuid) && ctx.subscriber != null && ctx.subscriber.expires == Some(FOREVER)
  {
    var mgr := GetSubsMgr(conf, created);
    if mgr == null {
      return Failure;
    }
    hide GetMessageType, SubscriptionId, Body, Handled, Keyed;
    var processor := new SubProcessor(mgr, cfg.filtering);
    status := processor.Handle(ctx, uuid, first, second);
  }

  /** The receiver asks for the manager as well; later is what creating it would answer now. */
  method SecondPhase(conf: ConfCtx, later: SubsMgr?, cfg: Config, ctx: MsgCtx, to: Option<string>, reply: MsgCtx,
      ghost uuid: string, ghost first: Outcome, ghost second: Outcome, reread: Outcome)
    returns (answered: bool)
    requires ctx != reply && conf.subsMgr != null
    requires GetMessageType(ctx.action) == Sub ==>
        ctx.subId == Some("urn:uuid:" + uuid) && ctx.subscriber != null && ctx.subscriber.expires == Some(FOREVER)
    modifies conf, ctx`fault, reply
    ensures conf.subsMgr == old(conf.subsMgr)
    ensures conf.subsMgr.store == old(conf.subsMgr.store)
    ensures Answered(cfg, GetMessageType(ctx.action), CourseOf(ctx, first, second, reread), uuid, to,
                     conf.subsMgr.store, answered, reply.reply)
  {
    hide GetMessageType, SubscriptionId, Body, SubscribeResponseNode, ExpiresResponseNode;
    var mgr := GetSubsMgr(conf, later);
    var receiver := new MsgReceiver(mgr, cfg.managerUrl);
    var status := receiver.Invoke(ctx, to, reply, reread);
    answered := status == Success;
  }

  /** A whole request. No request is answered if there is no manager. */
  method Serve(
    conf: ConfCtx, created: SubsMgr?, later: SubsMgr?, cfg: Config, ctx: MsgCtx, reply: MsgCtx, uuid: string,
    to: Option<string>, first: Outcome, second: Outcome, reread: Outcome)
    returns (answered: bool)
    requires ctx != reply
    requires var mgr := ManagerOf(conf, created); mgr != null ==> Keyed(mgr.store)
    modifies conf, ctx, reply, ManagerOf(conf, created)
    ensures conf.subsMgr == old(ManagerOf(conf, created))
    ensures conf.subsMgr == null ==> !answered
    ensures conf.subsMgr != null ==>
              && Keyed(conf.subsMgr.store)
              && Served(cfg, conf.subsMgr.backend, GetMessageType(ctx.action), CourseOf(ctx, first, second, reread),
                   uuid, to, old(ManagerOf(conf, created).store), conf.subsMgr.store, answered, reply.reply)
  {
    hide GetMessageType, SubscriptionId, Body, Handled, Answered, Served, Keyed;
    answered := false;
    var status := FirstPhase(conf, created, cfg, ctx, uuid, first, second);
    if status == Success {
      answered := SecondPhase(conf, later, cfg, ctx, to, reply, uuid, first, second, reread);
    }
    ghost var mgr := conf.subsMgr;
    if mgr != null {
      BothPhases(cfg, mgr.backend, GetMessageType(ctx.action), CourseOf(ctx, first, second, reread), uuid, to,
        old(ManagerOf(conf, created).store), mgr.store, status == Success, answered, reply.reply);
    }
  }

  lemma RenewalKeepsId(b: Backend, m: Store, id: Option<string>, expires: Option<string>, first: Outcome,
      second: Outcome)
    ensures id.Some? ==>
              var m' := AfterRenew(b, m, id.value, expires, first, second);
              && (id.value in m' <==> id.value in m)
              && (id.value in m && first == Works && second == Works ==>
                    m'[id.value].expires == expires.OrElse(m[id.value].expires))
              && (id.value in m && !(first == Works && second == Works) ==> m' == m)
  {
  }

  /** What Serve stores for a Subscribe whose insert works under a new id: the subscriber that was asked for, exactly if
      its filter is absent, or in the Synapse dialect, or in XPath on a server with filtering; otherwise nothing. */
  lemma OnlyTheseAreStored(cfg: Config, b: Backend, c: Course, uuid: string, to: Option<string>, m: Store, m': Store,
      answered: bool, reply: Option<Node>)
    requires Served(cfg, b, Sub, c, uuid, to, m, m', answered, reply)
    requires c.body.Some? && c.first == Works && "urn:uuid:" + uuid !in m
    ensures var s := NewSubscriber("urn:uuid:" + uuid, Child(c.body, EVENTING, "Subscribe"));
            var accepted :=
              || s.filter.None? || s.filterDialect == Some(SYNAPSE_DIALECT)
              || (cfg.filtering && s.filterDialect == Some(XPATH_DIALECT));
            s.id.Some? && (answered <==> accepted) && m' == if accepted then Stores.Insert(b, m, s) else m
  {
    var element := Child(c.body, EVENTING, "Subscribe");
    var s := NewSubscriber("urn:uuid:" + uuid, element);
    P.NewSubscriberIsLegal("urn:uuid:" + uuid, element);
    NoDeliveryMode("urn:uuid:" + uuid, element);
    RefusalExactly(cfg.filtering, s);
    hide Refusal, NewSubscriber, Child, Stores.Insert, SubscribeResponseNode;
  }

  /** The reader does not look at the delivery mode. */
  lemma NoDeliveryMode(id: string, element: Option<Node>)
    ensures NewSubscriber(id, element).deliveryMode == None
  {
  }

  // ---- The same as a run of the protocol --------------------------------------------------------------------

  function StepsOf(t: nat, request: P.Request, c: Course): seq<P.Step> {
    [P.Begin(t, request), P.Go(t, c.first), P.Go(t, c.second)] + [P.Go(t, c.reread)]
  }

  function LastEvent(w: P.World, w': P.World): Option<P.Event> {
    if |w'.log| > |w.log| then Some(w'.log[|w'.log| - 1].event) else None
  }

  lemma RunSteps(w: P.World, t: nat, request: P.Request, c: Course)
    ensures P.Run(w, StepsOf(t, request, c)) ==
            P.Do(P.Do(P.Do(P.Do(w, P.Begin(t, request)), P.Go(t, c.first)), P.Go(t, c.second)), P.Go(t, c.reread))
  {
    var head := [P.Begin(t, request), P.Go(t, c.first), P.Go(t, c.second)];
    hide P.Do;
    R.RunThree(w, head[0], head[1], head[2]);
    R.RunAppends(w, head, [P.Go(t, c.reread)]);
    assert [P.Go(t, c.reread)][1..] == [];
  }

  /** A Renew that is served on its own is the Renew of the protocol: same store, same answer, same expiry. */
  lemma RenewIsProtocol(w: P.World, t: nat, c: Course)
    requires P.At(w, t) == P.Idle && c.id.Some? && c.body.Some?
    ensures var w' := P.Run(w, StepsOf(t, P.Renew(c.id.value, RenewExpires(c.body)), c));
            && w'.store == AfterRenew(w.backend, w.store, c.id.value, RenewExpires(c.body), c.first, c.second)
            && (RenewAnswered(c, w.store) <==> LastEvent(w, w').Some? && LastEvent(w, w').value.RenewResponse?)
            && (RenewAnswered(c, w.store) ==>
                  LastEvent(w, w') == Some(P.RenewResponse(c.id.value, RenewedExpiry(c, w.store))))
  {
    var id, expires := c.id.value, RenewExpires(c.body);
    RunSteps(w, t, P.Renew(id, expires), c);
    RenewalKeepsId(w.backend, w.store, c.id, expires, c.first, c.second);
    RenewHandled(w, t, id, expires, c.first, c.second);
    hide RenewExpires, P.Run, P.Do, AfterRenew;
    var w3 := P.Do(P.Do(P.Do(w, P.Begin(t, P.Renew(id, expires))), P.Go(t, c.first)), P.Go(t, c.second));
    RenewReread(w3, t, id, c.reread);
  }

  lemma RenewHandled(w: P.World, t: nat, id: string, expires: Option<string>, first: Outcome, second: Outcome)
    requires P.At(w, t) == P.Idle
    ensures var w' := P.Do(P.Do(P.Do(w, P.Begin(t, P.Renew(id, expires))), P.Go(t, first)), P.Go(t, second));
            var renewed := first == Works && id in w.store && second != Fails;
            && P.At(w', t) == (if renewed then P.RenewRereading(id) else P.Idle)
            && w'.store == AfterRenew(w.backend, w.store, id, expires, first, second)
            && (!renewed ==> LastEvent(w, w') == Some(P.Fault(id)))
            && |w'.log| > |w.log|
  {
    hide Merged, Edited;
  }

  lemma RenewReread(w: P.World, t: nat, id: string, reread: Outcome)
    ensures var w' := P.Do(w, P.Go(t, reread));
            && (P.At(w, t) == P.Idle ==> w'.store == w.store && w'.log == w.log)
            && (P.At(w, t) == P.RenewRereading(id) ==>
                  && w'.store == w.store && |w'.log| == |w.log| + 1
                  && w'.log[|w.log|].event ==
                       if reread == Works && id in w.store then P.RenewResponse(id, w.store[id].expires)
                           else P.Fault(id))
  {
  }

  /** The same for Unsubscribe. */
  lemma UnsubscribeIsProtocol(w: P.World, t: nat, c: Course)
    requires P.At(w, t) == P.Idle && c.id.Some?
    ensures var w' := P.Run(w, StepsOf(t, P.Unsubscribe(c.id.value), c));
            && w'.store == AfterUnsubscribe(w.store, c.id.value, if c.id.value in w.store then c.first
                  else Fails, c.second)
            && (UnsubscribeAnswered(c, w.store) <==>
                  LastEvent(w, w') == Some(P.UnsubscribeResponse(c.id.value, c.reread == Works)))
  {
    RunSteps(w, t, P.Unsubscribe(c.id.value), c);
    UnsubscribeHandled(w, t, c.id.value, c.first, c.second);
    hide P.Run, P.Do;
    var w3 := P.Do(P.Do(P.Do(w, P.Begin(t, P.Unsubscribe(c.id.value))), P.Go(t, c.first)), P.Go(t, c.second));
    UnsubscribeReread(w3, t, c.id.value, c.reread);
  }

  lemma UnsubscribeHandled(w: P.World, t: nat, id: string, first: Outcome, second: Outcome)
    requires P.At(w, t) == P.Idle
    ensures var w' := P.Do(P.Do(P.Do(w, P.Begin(t, P.Unsubscribe(id))), P.Go(t, first)), P.Go(t, second));
            var found := first == Works && id in w.store;
            && P.At(w', t) == (if found then P.UnsubscribeRereading(id) else P.Idle)
            && w'.store == (if found && second == Works then Remove(w.store, id) else w.store)
            && (!found ==> LastEvent(w, w') == Some(P.Fault(id)))
            && |w'.log| > |w.log|
  {
  }

  lemma UnsubscribeReread(w: P.World, t: nat, id: string, reread: Outcome)
    ensures var w' := P.Do(w, P.Go(t, reread));
            && (P.At(w, t) == P.Idle ==> w'.store == w.store && w'.log == w.log)
            && (P.At(w, t) == P.UnsubscribeRereading(id) ==>
                  && w'.store == w.store && |w'.log| == |w.log| + 1
                  && w'.log[|w.log|].event ==
                       if reread == Works && id in w.store then P.Fault(id)
                           else P.UnsubscribeResponse(id, reread == Works))
  {
  }

  /** The same for Subscribe, which has no re-read: with a new id it is answered in the same cases, with the same
      store. */
  lemma SubscribeIsProtocol(w: P.World, t: nat, c: Course, id: string)
    requires P.At(w, t) == P.Idle && id !in w.minted && c.body.Some?
    ensures var element := Child(c.body, EVENTING, "Subscribe");
            var s := NewSubscriber(id, element);
            var w' := P.Run(w, [P.Begin(t, P.Subscribe(id, element)), P.Go(t, c.first)]);
            && w'.store == AfterSubscribe(w.backend, w.filtering, w.store, s, c.first)
            && LastEvent(w, w') ==
                 Some(if Refusal(w.filtering, s).None? && c.first != Fails && Insertable(w.backend, w.store, id)
                      then P.Subscribed(id, s, c.first == Works) else P.Fault(id))
  {
    var element := Child(c.body, EVENTING, "Subscribe");
    R.RunTwo(w, P.Begin(t, P.Subscribe(id, element)), P.Go(t, c.first));
    R.SubscribeAlone(w, t, id, element, c.first);
    P.NewSubscriberIsLegal(id, element);
    hide NewSubscriber, Refusal, P.Run, Kept, Stores.Insert, Insertable, Child;
  }

  /** The same for GetStatus, which has a re-read only. */
  lemma StatusIsProtocol(w: P.World, t: nat, c: Course)
    requires P.At(w, t) == P.Idle && c.id.Some?
    ensures var w' := P.Run(w, [P.Begin(t, P.GetStatus(c.id.value)), P.Go(t, c.reread)]);
            && w'.store == w.store
            && (StatusAnswered(c, w.store) <==> LastEvent(w, w').Some? && LastEvent(w, w').value.StatusResponse?)
            && (StatusAnswered(c, w.store) ==>
                  LastEvent(w, w') == Some(P.StatusResponse(c.id.value, w.store[c.id.value].expires)))
  {
    R.RunTwo(w, P.Begin(t, P.GetStatus(c.id.value)), P.Go(t, c.reread));
    hide P.Run;
  }
}
