/** Events to stored subscribers: who is sent to, and where, whatever requests came before. */
module Events {
  import opened Options
  import opened Subscribers
  import opened Stores
  import opened Requests
  import opened Publisher
  import C = Client
  import P = Protocol
  import S = Session
  import RI = RegistryInterleaving
  import RR = RegistryRaces

  /** What the publisher sends for one subscriber of a store. */
  function SentFor(p: Setting, r: Record): seq<Delivery> {
    Deliveries(Admitted(p, Present([Some(r)])))
  }

  /** In every run of requests, over either store: a stored subscription is sent to under its id at the NotifyTo address
      it was subscribed with, exactly if the server is without filtering, or it has the topic dialect and the store
      keeps dialects, or its filter lets the event through. */
  lemma PublishedInEveryRun(b: Backend, filtering: bool, steps: seq<P.Step>, id: string, p: Setting)
    requires id in P.Run(P.Initial(b, filtering), steps).store
    ensures var w := P.Run(P.Initial(b, filtering), steps);
            && id in w.inserted
            && var r, s := w.store[id], w.inserted[id];
               var wanted :=
                 || !p.filtering
                 || (b.Registry? && s.filterDialect == Some(SYNAPSE_DIALECT))
                 || (p.filterModule && s.filter.Some? && p.judge(r));
               SentFor(p, r) == if wanted then [Delivery(Some(id), Address(s.notifyTo))] else []
  {
    P.InitialOk(b, filtering);
    P.RunKeeps(P.Initial(b, filtering), steps);
    var w := P.Run(P.Initial(b, filtering), steps);
    assert w.backend == b;
    hide P.Run, P.LogOk;
    assert P.Copy(b, w.inserted, id, w.store[id]) && P.Legal(w.filtering, id, w.inserted[id]);
    WhatOneGets(p, w.store[id]);
    hide Refusal, Deliveries, Admitted, Publisher.Present;
  }

  /** So a client that subscribed is sent to at the address it gave. */
  lemma ClientIsSentTo(b: Backend, filtering: bool, steps: seq<P.Step>, uuid: string, o: C.ClientOptions, p: Setting)
    requires var w := P.Run(P.Initial(b, filtering), steps);
             var id := "urn:uuid:" + uuid;
             id in w.store && id in w.inserted && w.inserted[id] == S.AskedFor(uuid, o)
    ensures var sent := SentFor(p, P.Run(P.Initial(b, filtering), steps).store["urn:uuid:" + uuid]);
            (!p.filtering ==> sent != []) && (sent != [] ==> sent == [Delivery(Some("urn:uuid:" + uuid), o.notify)])
  {
    PublishedInEveryRun(b, filtering, steps, "urn:uuid:" + uuid, p);
    C.WhatIsSubscribed("urn:uuid:" + uuid, o, filtering);
    hide P.Run, SentFor, NewSubscriber, Refusal, SubscriberXml.SubscribeNode;
  }

  /** In every interleaving of single registry calls: whatever a retrieve, a scan or a listing answers for an id is sent
      to, if at all, at the address that was inserted with it. */
  lemma AnsweredAreSentTo(steps: seq<RI.Step>, i: nat, id: string, p: Setting)
    requires i < |RI.Run(RI.INITIAL, steps).log| && RR.ReturnOf(RI.Run(RI.INITIAL, steps).log[i], id)
    ensures var w := RI.Run(RI.INITIAL, steps);
            var sent := SentFor(p, RR.Answer(w.log[i])[id].r);
            && id in w.inserted && (!p.filtering ==> sent != [])
            && (sent != [] ==> |sent| == 1 && sent[0].to == Address(w.inserted[id].notifyTo))
  {
    RR.EveryRun(steps);
    var w := RI.Run(RI.INITIAL, steps);
    hide RI.Run, RR.DeletesAreFinal, Kept;
    assert RI.OwnRecord(w, id, RR.Answer(w.log[i])[id].r);
    WhatOneGets(p, RR.Answer(w.log[i])[id].r);
    hide Deliveries, Admitted, Publisher.Present;
  }
}
