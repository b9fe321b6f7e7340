/** The request protocol over a store: every request runs in two phases, the handler's and the message receiver's, and
    any number of requests run interleaved, one store call at a time. */
module Protocol {
  import opened Options
  import opened Subscribers
  import opened Stores
  import opened Xml
  import opened Requests

  datatype Request =
    | Subscribe(id: string, element: Option<Node>)
    | Renew(id: string, expires: Option<string>)
    | GetStatus(id: string)
    | Unsubscribe(id: string)

  /** The store call a request makes next. */
  datatype Process =
    | Idle
    | Inserting(id: string, s: Record)
    | RenewReading(id: string, expires: Option<string>)
    | RenewWriting(id: string, expires: Option<string>, base: Record)
    | RenewRereading(id: string)
    | UnsubscribeReading(id: string)
    | UnsubscribeRemoving(id: string)
    | UnsubscribeRereading(id: string)
    | StatusRereading(id: string)

  /** A handler that succeeded is logged as Subscribed, Found or Renewed, whether or not its write took effect. */
  datatype Event =
    | Fault(id: string)
    | Subscribed(id: string, s: Record, took: bool)
    | Found(id: string)
    | Removed(id: string)
    | Renewed(id: string, expires: Option<string>, took: bool)
    | RenewResponse(id: string, expires: Option<string>)
    | StatusResponse(id: string, expires: Option<string>)
    | UnsubscribeResponse(id: string, reread: bool)

  /** What happened, and the store right then. */
  datatype Entry = Entry(event: Event, store: Store)

  datatype World = World(
    backend: Backend,
    filtering: bool,
    store: Store,
    processes: map<nat, Process>,
    /** The ids handed out so far. */
    minted: set<string>,
    /** What was inserted under each id. */
    inserted: map<string, Record>,
    log: seq<Entry>)

  datatype Step = Begin(t: nat, request: Request) | Go(t: nat, o: Outcome)

  function At(w: World, t: nat): Process {
    if t in w.processes then w.processes[t] else Idle
  }

  function Become(w: World, t: nat, p: Process): World {
    w.(processes := w.processes[t := p])
  }

  function Log(w: World, e: Event): World {
    w.(log := w.log + [Entry(e, w.store)])
  }

  function Start(w: World, t: nat, request: Request): World {
    match request
    case Subscribe(id, element) =>
      if id in w.minted then w
      else
        var s := NewSubscriber(id, element);
        var w1 := w.(minted := w.minted + {id});
        if Refusal(w.filtering, s).Some? then Log(w1, Fault(id)) else Become(w1, t, Inserting(id, s))
    case Renew(id, expires) => Become(w, t, RenewReading(id, expires))
    case GetStatus(id) => Become(w, t, StatusRereading(id))
    case Unsubscribe(id) => Become(w, t, UnsubscribeReading(id))
  }

  /** What a store call leads to. */
  datatype Effect = Effect(store: Store, inserted: map<string, Record>, next: Process, event: Option<Event>)

  function Then(w: World, next: Process, event: Option<Event>): Effect {
    Effect(w.store, w.inserted, next, event)
  }

  function EffectOf(w: World, p: Process, o: Outcome): Effect {
    match p
    case Idle => Then(w, Idle, None)
    case Inserting(id, s) =>
      if o == Fails || !Insertable(w.backend, w.store, id) || s.id != Some(id) then Then(w, Idle, Some(Fault(id)))
      else if o == Lost then Then(w, Idle, Some(Subscribed(id, s, false)))
      else Effect(Insert(w.backend, w.store, s), w.inserted[id := s], Idle, Some(Subscribed(id, s, true)))
    case RenewReading(id, expires) =>
      if o == Works && id in w.store then Then(w, RenewWriting(id, expires, w.store[id]), None)
          else Then(w, Idle, Some(Fault(id)))
    case RenewWriting(id, expires, base) =>
      if o == Fails || !Updatable(w.backend, w.store, id) then Then(w, Idle, Some(Fault(id)))
      else if id !in w.store || o == Lost then Then(w, RenewRereading(id), Some(Renewed(id, expires, false)))
      else Effect(w.store[id := Merged(w.backend, w.store[id], Edited(base, expires))], w.inserted,
          RenewRereading(id), Some(Renewed(id, expires, true)))
    case RenewRereading(id) =>
      Then(w, Idle, Some(if o == Works && id in w.store then RenewResponse(id, w.store[id].expires) else Fault(id)))
    case UnsubscribeReading(id) =>
      if o == Works && id in w.store then Then(w, UnsubscribeRemoving(id), Some(Found(id)))
          else Then(w, Idle, Some(Fault(id)))
    case UnsubscribeRemoving(id) =>
      if o == Works then Effect(Remove(w.store, id), w.inserted, UnsubscribeRereading(id), Some(Removed(id)))
      else Then(w, UnsubscribeRereading(id), None)
    case UnsubscribeRereading(id) =>
      Then(w, Idle, Some(if o == Works && id in w.store then Fault(id) else UnsubscribeResponse(id, o == Works)))
    case StatusRereading(id) =>
      Then(w, Idle, Some(if o == Works && id in w.store then StatusResponse(id, w.store[id].expires) else Fault(id)))
  }

  function Apply(w: World, t: nat, e: Effect): World {
    w.(store := e.store, inserted := e.inserted, processes := w.processes[t := e.next],
       log := w.log + (if e.event.Some? then [Entry(e.event.value, e.store)] else []))
  }

  function Advance(w: World, t: nat, o: Outcome): World {
    Apply(w, t, EffectOf(w, At(w, t), o))
  }

  function Do(w: World, step: Step): World {
    match step
    case Begin(t, request) => if At(w, t) == Idle then Start(w, t, request) else w
    case Go(t, o) => Advance(w, t, o)
  }

  function Run(w: World, steps: seq<Step>): World
    decreases |steps|
  {
    if steps == [] then w else Run(Do(w, steps[0]), steps[1..])
  }

  function Initial(b: Backend, filtering: bool): World {
    World(b, filtering, map[], map[], {}, map[], [])
  }

  // ---- The invariant ----------------------------------------------------------------------------------------

  /** r is what the store keeps of the inserted subscriber, but for the expiry and the renewed flag. */
  predicate SameButExpiry(b: Backend, r: Record, s: Record) {
    r == Kept(b, s).(expires := r.expires, renewed := r.renewed)
  }

  predicate Legal(filtering: bool, id: string, s: Record) {
    s.id == Some(id) && s.expires == Some(FOREVER) && !s.renewed && Refusal(filtering, s).None?
  }

  predicate Copy(b: Backend, inserted: map<string, Record>, id: string, r: Record) {
    id in inserted && SameButExpiry(b, r, inserted[id]) && r.expires.Some? && (b.Registry? ==> !r.renewed)
  }

  predicate FoundBefore(log: seq<Entry>, id: string) {
    exists i :: 0 <= i < |log| && log[i].event == Found(id)
  }

  predicate ProcessOk(w: World, p: Process) {
    match p
    case Inserting(id, s) => id in w.minted && id !in w.inserted && Legal(w.filtering, id, s)
    case RenewWriting(id, _, base) => Copy(w.backend, w.inserted, id, base)
    case UnsubscribeRemoving(id) => FoundBefore(w.log, id)
    case UnsubscribeRereading(id) => FoundBefore(w.log, id)
    case _ => true
  }

  /** A response says what the store said when it was built. After an answered Subscribe the id is stored if and only
      if the subscriber can be stored and the write was not lost. */
  predicate Truthful(b: Backend, log: seq<Entry>, i: nat)
    requires i < |log|
  {
    var m := log[i].store;
    match log[i].event
    case Subscribed(id, s, took) =>
      && (id in m <==> took && Storable(b, s))
      && (id in m ==> m[id] == Kept(b, s))
    case RenewResponse(id, e) => id in m && e == m[id].expires
    case StatusResponse(id, e) => id in m && e == m[id].expires
    case UnsubscribeResponse(id, reread) => (reread ==> id !in m) && exists j :: 0 <= j < i && log[j].event == Found(id)
    case Found(id) => id in m
    case Removed(id) => id !in m && exists j :: 0 <= j < i && log[j].event == Found(id)
    case Renewed(id, e, took) => took ==> id in m && (e.Some? ==> m[id].expires == e)
    case _ => true
  }

  /** An id that was seen in the store and is seen absent later is absent from then on. */
  ghost predicate GoneStaysGone(w: World) {
    forall i, j, id :: 0 <= i < j < |w.log| && id in w.log[i].store && id !in w.log[j].store ==>
                         id !in w.store && forall k :: j < k < |w.log| ==> id !in w.log[k].store
  }

  ghost predicate StoreOk(w: World) {
    && (forall id :: id in w.inserted ==> id in w.minted && Legal(w.filtering, id, w.inserted[id]))
    && (forall id :: id in w.store ==> Copy(w.backend, w.inserted, id, w.store[id]))
  }

  ghost predicate ProcessesOk(w: World) {
    forall t :: ProcessOk(w, At(w, t))
  }

  predicate SameInsert(p: Process, q: Process) {
    p.Inserting? && q.Inserting? && p.id == q.id
  }

  /** An id is minted for one request only. */
  ghost predicate MintedOnce(w: World) {
    forall t, u :: SameInsert(At(w, t), At(w, u)) ==> t == u
  }

  ghost predicate Inv(w: World) {
    StoreOk(w) && ProcessesOk(w) && MintedOnce(w)
  }

  ghost predicate LogOk(w: World) {
    && (forall i :: 0 <= i < |w.log| ==> Truthful(w.backend, w.log, i))
    && (forall i :: 0 <= i < |w.log| && w.log[i].event.Renewed? ==> w.log[i].event.id in w.inserted)
    && (forall i, id :: 0 <= i < |w.log| && id in w.log[i].store ==> id in w.inserted)
    && GoneStaysGone(w)
  }

  /** What Renew writes back changes the expiry, and marks the subscriber as renewed where the store keeps that. */
  lemma WriteBack(b: Backend, r: Record, base: Record, s: Record, expires: Option<string>)
    requires SameButExpiry(b, r, s) && SameButExpiry(b, base, s) && base.expires.Some?
    ensures Merged(b, r, Edited(base, expires))
         == r.(expires := expires.OrElse(base.expires), renewed := if b.Sqlite? then true else r.renewed)
  {
  }

  lemma InsertedIsCopy(b: Backend, s: Record)
    requires s.expires == Some(FOREVER) && !s.renewed
    ensures SameButExpiry(b, Kept(b, s), s) && Kept(b, s).expires == Some(FOREVER) && !Kept(b, s).renewed
  {
  }

  lemma InitialOk(b: Backend, filtering: bool)
    ensures Inv(Initial(b, filtering)) && LogOk(Initial(b, filtering))
  {
  }

  /** What a process needs does not go away. */
  lemma ProcessStaysOk(w: World, w': World, p: Process)
    requires ProcessOk(w, p) && Grows(w, w')
    requires p.Inserting? ==> p.id !in w'.inserted
    ensures ProcessOk(w', p)
  {
    hide Refusal, Kept;
    if p.UnsubscribeRemoving? || p.UnsubscribeRereading? {
      var i :| 0 <= i < |w.log| && w.log[i].event == Found(p.id);
      assert w'.log[i] == w.log[i];
    }
  }

  predicate Grows(w: World, w': World) {
    && w'.backend == w.backend && w'.filtering == w.filtering
    && w.minted <= w'.minted
    && (forall id :: id in w.inserted ==> id in w'.inserted && w'.inserted[id] == w.inserted[id])
    && w.log <= w'.log
  }

  lemma ProcessesStay(w: World, w': World, t: nat)
    requires ProcessesOk(w) && MintedOnce(w) && Grows(w, w') && ProcessOk(w', At(w', t))
    requires forall u :: u != t ==> At(w', u) == At(w, u)
    requires forall u :: u != t && At(w, u).Inserting? ==>
        At(w, u).id !in w'.inserted && !SameInsert(At(w', t), At(w, u))
    ensures ProcessesOk(w') && MintedOnce(w')
  {
    forall u | u != t ensures ProcessOk(w', At(w', u)) {
      assert ProcessOk(w, At(w, u));
      hide ProcessOk;
      ProcessStaysOk(w, w', At(w, u));
    }
    hide ProcessOk, At, Grows;
    forall u, v | SameInsert(At(w', u), At(w', v)) ensures u == v {
      assert u != t && v != t ==> SameInsert(At(w, u), At(w, v));
    }
  }

  lemma NewSubscriberIsLegal(id: string, element: Option<Node>)
    ensures var s := NewSubscriber(id, element); s.id == Some(id) && s.expires == Some(FOREVER) && !s.renewed
  {
  }

  lemma StartKeeps(w: World, t: nat, request: Request)
    requires Inv(w) && At(w, t) == Idle
    ensures Inv(Start(w, t, request)) && Grows(w, Start(w, t, request))
  {
    var w' := Start(w, t, request);
    StartKeepsProcess(w, t, request);
    StartKeepsStore(w, t, request);
    hide Kept, NewSubscriber, Legal, Copy, Refusal, FoundBefore, StoreOk, Grows;
    assert forall u :: u != t ==> At(w', u) == At(w, u);
    forall u | u != t && At(w, u).Inserting? ensures At(w, u).id !in w'.inserted && !SameInsert(At(w', t), At(w, u)) {
      assert ProcessOk(w, At(w, u));
    }
    ProcessesStay(w, w', t);
  }

  lemma StartKeepsStore(w: World, t: nat, request: Request)
    requires StoreOk(w)
    ensures StoreOk(Start(w, t, request)) && Grows(w, Start(w, t, request))
  {
    hide Kept, NewSubscriber, Legal, Copy, Refusal;
  }

  lemma StartKeepsProcess(w: World, t: nat, request: Request)
    requires Inv(w) && At(w, t) == Idle
    ensures ProcessOk(Start(w, t, request), At(Start(w, t, request), t))
  {
    if request.Subscribe? {
      NewSubscriberIsLegal(request.id, request.element);
      assert request.id in w.minted || request.id !in w.inserted;
    }
    hide NewSubscriber, Refusal, Copy;
  }

  lemma EffectKeepsInserted(w: World, p: Process, o: Outcome)
    requires StoreOk(w) && ProcessOk(w, p)
    ensures var e := EffectOf(w, p, o);
            && (forall id :: id in e.inserted ==> id in w.minted && Legal(w.filtering, id, e.inserted[id]))
            && (forall id :: id in w.inserted ==> id in e.inserted && e.inserted[id] == w.inserted[id])
            && (forall id :: id in e.inserted ==> id in w.inserted || (p.Inserting? && id == p.id))
  {
    hide Insert, Merged, Edited, Legal, Copy, FoundBefore;
  }

  lemma EffectKeepsStore(w: World, p: Process, o: Outcome)
    requires StoreOk(w) && ProcessOk(w, p)
    ensures var e := EffectOf(w, p, o);
            forall id :: id in e.store ==> Copy(w.backend, e.inserted, id, e.store[id])
  {
    var e := EffectOf(w, p, o);
    if p.Inserting? {
      InsertedIsCopy(w.backend, p.s);
    }
    if p.RenewWriting? && p.id in w.store {
      WriteBack(w.backend, w.store[p.id], p.base, w.inserted[p.id], p.expires);
    }
    hide Kept, Edited, Merged, Refusal, FoundBefore, SameButExpiry;
    forall id | id in e.store ensures Copy(w.backend, e.inserted, id, e.store[id]) {
      assert id in w.store ==> Copy(w.backend, w.inserted, id, w.store[id]);
    }
  }

  lemma EffectKeepsProcess(w: World, t: nat, o: Outcome)
    requires StoreOk(w) && ProcessOk(w, At(w, t))
    ensures var e := EffectOf(w, At(w, t), o); ProcessOk(Apply(w, t, e), e.next) && !e.next.Inserting?
  {
    var p := At(w, t);
    var w' := Apply(w, t, EffectOf(w, p, o));
    hide Insert, Kept, Edited, Merged, Legal, SameButExpiry;
    if p.UnsubscribeReading? && o == Works && p.id in w.store {
      assert w'.log[|w.log|].event == Found(p.id);
    }
    if p.UnsubscribeRemoving? {
      var i :| 0 <= i < |w.log| && w.log[i].event == Found(p.id);
      assert w'.log[i] == w.log[i];
    }
  }

  lemma AdvanceKeeps(w: World, t: nat, o: Outcome)
    requires Inv(w)
    ensures Inv(Advance(w, t, o)) && Grows(w, Advance(w, t, o))
  {
    var w' := Advance(w, t, o);
    assert ProcessOk(w, At(w, t));
    EffectKeepsInserted(w, At(w, t), o);
    EffectKeepsStore(w, At(w, t), o);
    EffectKeepsProcess(w, t, o);
    hide EffectOf, Legal, Copy;
    assert forall u :: u != t ==> At(w', u) == At(w, u);
    assert StoreOk(w') && Grows(w, w');
    forall u | u != t && At(w, u).Inserting? ensures At(w, u).id !in w'.inserted && !SameInsert(At(w', t), At(w, u)) {
      assert ProcessOk(w, At(w, u));
      assert At(w, t).Inserting? ==> !SameInsert(At(w, t), At(w, u));
    }
    ProcessesStay(w, w', t);
  }

  lemma StepKeeps(w: World, step: Step)
    requires Inv(w)
    ensures Inv(Do(w, step)) && Grows(w, Do(w, step))
  {
    hide Inv, Grows, Start, Advance, At;
    match step
    case Begin(t, request) =>
      if At(w, t) == Idle {
        StartKeeps(w, t, request);
      } else {
        GrowsNot(w);
      }
    case Go(t, o) =>
      AdvanceKeeps(w, t, o);
  }

  lemma GrowsNot(w: World)
    ensures Grows(w, w)
  {
  }

  // ---- The log ----------------------------------------------------------------------------------------------

  /** Only an insert brings an id into the store, and only one that was never inserted before. */
  lemma EffectBringsNewIdsOnly(w: World, p: Process, o: Outcome)
    requires ProcessOk(w, p)
    ensures var e := EffectOf(w, p, o);
            && (forall id :: id in e.store ==> id in w.store || id !in w.inserted)
            && (forall id :: id in e.store ==> id in w.store || id in e.inserted)
            && (e.event.None? ==> e.store == w.store)
  {
    hide Kept, Edited, Merged, Legal, Copy, FoundBefore;
  }

  lemma EffectIsTruthful(w: World, p: Process, o: Outcome, log: seq<Entry>)
    requires StoreOk(w) && ProcessOk(w, p) && EffectOf(w, p, o).event.Some?
    requires var e := EffectOf(w, p, o); log == w.log + [Entry(e.event.value, e.store)]
    ensures Truthful(w.backend, log, |w.log|)
    ensures EffectOf(w, p, o).event.value.Renewed? ==> EffectOf(w, p, o).event.value.id in w.inserted
  {
    var e := EffectOf(w, p, o);
    if p.RenewWriting? && p.id in w.store {
      WriteBack(w.backend, w.store[p.id], p.base, w.inserted[p.id], p.expires);
    }
    hide Kept, Edited, Merged, Refusal, SameButExpiry;
    assert log[|w.log|] == Entry(e.event.value, e.store);
    if p.UnsubscribeRereading? || p.UnsubscribeRemoving? {
      var j :| 0 <= j < |w.log| && w.log[j].event == Found(p.id);
      assert log[j] == w.log[j];
    }
  }

  lemma TruthStays(b: Backend, log: seq<Entry>, more: seq<Entry>, i: nat)
    requires i < |log| && Truthful(b, log, i) && log <= more
    ensures Truthful(b, more, i)
  {
    assert more[i] == log[i];
    if log[i].event.UnsubscribeResponse? || log[i].event.Removed? {
      var j :| 0 <= j < i && log[j].event == Found(log[i].event.id);
      assert more[j] == log[j];
    }
  }

  lemma GoneStays(w: World, w': World, e: Option<Event>)
    requires LogOk(w)
    requires forall id :: id in w'.store ==> id in w.store || id !in w.inserted
    requires w'.log == w.log + (if e.Some? then [Entry(e.value, w'.store)] else [])
    ensures GoneStaysGone(w')
  {
    hide Truthful;
    var n := |w.log|;
    forall i, j, id | 0 <= i < j < |w'.log| && id in w'.log[i].store && id !in w'.log[j].store
      ensures id !in w'.store && forall k :: j < k < |w'.log| ==> id !in w'.log[k].store
    {
      assert w'.log[i] == w.log[i];
      if j < n {
        assert w'.log[j] == w.log[j];
        assert id in w.inserted && id !in w.store;
        forall k | j < k < |w'.log| ensures id !in w'.log[k].store {
          if k < n {
            assert w'.log[k] == w.log[k];
          }
        }
      }
    }
  }

  lemma LogStaysOk(w: World, w': World, e: Option<Event>)
    requires LogOk(w) && Grows(w, w')
    requires forall id :: id in w'.store ==> (id in w.store || id !in w.inserted) && id in w'.inserted
    requires w'.log == w.log + (if e.Some? then [Entry(e.value, w'.store)] else [])
    requires e.Some? ==> Truthful(w.backend, w'.log, |w.log|) && (e.value.Renewed? ==> e.value.id in w.inserted)
    ensures LogOk(w')
  {
    GoneStays(w, w', e);
    forall i | 0 <= i < |w.log| ensures Truthful(w.backend, w'.log, i) {
      TruthStays(w.backend, w.log, w'.log, i);
    }
    hide Truthful, GoneStaysGone;
    assert forall i :: 0 <= i < |w.log| ==> w'.log[i] == w.log[i];
  }

  lemma StepKeepsLog(w: World, step: Step)
    requires Inv(w) && LogOk(w)
    ensures LogOk(Do(w, step))
  {
    var w' := Do(w, step);
    StepKeeps(w, step);
    if step.Go? {
      var p := At(w, step.t);
      var e := EffectOf(w, p, step.o);
      assert ProcessOk(w, p);
      assert w' == Apply(w, step.t, e);
      EffectBringsNewIdsOnly(w, p, step.o);
      if e.event.Some? {
        EffectIsTruthful(w, p, step.o, w'.log);
      }
      assert forall id :: id in w'.store ==> id in w'.inserted;
      hide EffectOf, Truthful, LogOk, Grows, Inv;
      LogStaysOk(w, w', e.event);
    } else {
      StartLogs(w, step);
    }
  }

  lemma StartLogs(w: World, step: Step)
    requires Inv(w) && LogOk(w) && step.Begin? && Grows(w, Do(w, step))
    ensures LogOk(Do(w, step))
  {
    var w' := Do(w, step);
    hide Truthful, Legal, Copy, Refusal, NewSubscriber;
    assert w'.store == w.store && w'.inserted == w.inserted;
    var e: Option<Event> := if w'.log == w.log then None else Some(Fault(step.request.id));
    if e.Some? {
      assert w'.log[|w.log|] == Entry(Fault(step.request.id), w.store);
      FaultIsTruthful(w.backend, w'.log, |w.log|);
    }
    hide LogOk, Grows, Inv, Do;
    assert forall id :: id in w'.store ==> id in w'.inserted by { StoredWasInserted(w); }
    LogStaysOk(w, w', e);
  }

  lemma FaultIsTruthful(b: Backend, log: seq<Entry>, i: nat)
    requires i < |log| && log[i].event.Fault?
    ensures Truthful(b, log, i)
  {
  }

  lemma StoredWasInserted(w: World)
    requires Inv(w)
    ensures forall id :: id in w.store ==> id in w.inserted
  {
    hide Legal;
  }

  lemma {:induction false} RunKeeps(w: World, steps: seq<Step>)
    requires Inv(w) && LogOk(w)
    ensures Inv(Run(w, steps)) && LogOk(Run(w, steps)) && Grows(w, Run(w, steps))
    decreases |steps|
  {
    hide Inv, LogOk, Do;
    if steps != [] {
      StepKeeps(w, steps[0]);
      StepKeepsLog(w, steps[0]);
      RunKeeps(Do(w, steps[0]), steps[1..]);
    }
  }

  // ---- What holds in every run ------------------------------------------------------------------------------

  /** An id that was inserted and is not in the store is not in the store later either. */
  lemma {:induction false} GoneForever(w: World, steps: seq<Step>, id: string)
    requires w.backend.Sqlite? && Inv(w) && id in w.inserted && id !in w.store
    ensures id !in Run(w, steps).store
    decreases |steps|
  {
    if steps != [] {
      var w' := Do(w, steps[0]);
      StepKeeps(w, steps[0]);
      if steps[0].Go? {
        var p := At(w, steps[0].t);
        assert ProcessOk(w, p);
        EffectBringsNewIdsOnly(w, p, steps[0].o);
      }
      hide EffectOf, ProcessOk, Copy, Legal, Refusal, NewSubscriber, MintedOnce, ProcessesOk;
      GoneForever(w', steps[1..], id);
    }
  }

  /** In every run: a Subscribe is answered with the subscriber stored, unless it cannot be stored or its write was
      lost; a RenewResponse or GetStatusResponse is built only from a subscription that is stored when the
      receiver re-reads, with its expiry; an UnsubscribeResponse only for an id that the handler found, and that is
      absent if the re-read worked. */
  lemma ResponsesAreTruthful(b: Backend, filtering: bool, steps: seq<Step>)
    ensures var w := Run(Initial(b, filtering), steps);
            forall i :: 0 <= i < |w.log| ==> Truthful(b, w.log, i)
  {
    InitialOk(b, filtering);
    RunKeeps(Initial(b, filtering), steps);
    hide Truthful, Initial, GoneStaysGone;
  }

  /** The events that end a subscription. */
  predicate Ends(e: Event, id: string) {
    e == Removed(id) || e == UnsubscribeResponse(id, true)
  }

  predicate Shows(e: Event, id: string) {
    e == Found(id) || (e.RenewResponse? && e.id == id) || (e.StatusResponse? && e.id == id)
  }

  lemma ShownIsStored(b: Backend, log: seq<Entry>, k: nat, id: string)
    requires k < |log| && Truthful(b, log, k)
    ensures Shows(log[k].event, id) ==> id in log[k].store
  {
  }

  /** After a removal that took effect, or an UnsubscribeResponse whose re-read worked, the id is never seen again:
      not in the store, and in no answer to anybody. */
  lemma EndIsFinal(b: Backend, filtering: bool, steps: seq<Step>, i: nat, id: string)
    requires b.Sqlite?
    requires var log := Run(Initial(b, filtering), steps).log; i < |log| && Ends(log[i].event, id)
    ensures var w := Run(Initial(b, filtering), steps);
            && id !in w.store
            && forall k :: i < k < |w.log| ==> id !in w.log[k].store && !Shows(w.log[k].event, id)
  {
    InitialOk(b, filtering);
    RunKeeps(Initial(b, filtering), steps);
    hide Initial, Run;
    var w := Run(Initial(b, filtering), steps);
    assert Truthful(b, w.log, i);
    var j :| 0 <= j < i && w.log[j].event == Found(id);
    assert Truthful(b, w.log, j);
    assert id in w.log[j].store && id !in w.log[i].store;
    assert id !in w.store && forall k :: i < k < |w.log| ==> id !in w.log[k].store;
    hide GoneStaysGone;
    forall k | i < k < |w.log| ensures !Shows(w.log[k].event, id) {
      assert Truthful(b, w.log, k);
      ShownIsStored(b, w.log, k, id);
    }
  }

  // ---- Expiries ---------------------------------------------------------------------------------------------

  /** A Renew that carried an Expires, and took effect; or, where reports count, one that was reported as a success. */
  predicate Renewal(e: Event, id: string, reported: bool) {
    e.Renewed? && e.id == id && e.expires.Some? && (e.took || reported)
  }

  /** The Expires of the last such Renew. */
  function LastRenewal(log: seq<Entry>, id: string, reported: bool): Option<string> {
    if log == [] then None
    else
      var e := log[|log| - 1].event;
      if Renewal(e, id, reported) then e.expires else LastRenewal(log[..|log| - 1], id, reported)
  }

  predicate WasRenewed(log: seq<Entry>, id: string) {
    exists i :: 0 <= i < |log| && log[i].event.Renewed? && log[i].event.took && log[i].event.id == id
  }

  predicate ExpiryRight(w: World, id: string, reported: bool)
    requires id in w.store
  {
    w.store[id].expires == LastRenewal(w.log, id, reported).OrElse(Some(FOREVER))
  }

  predicate ExpiriesRight(w: World, reported: bool) {
    forall id :: id in w.store ==> ExpiryRight(w, id, reported)
  }

  /** The step is the write of a Renew of a stored id. */
  predicate Writes(w: World, step: Step) {
    step.Go? && At(w, step.t).RenewWriting? && At(w, step.t).id in w.store
  }

  /** A Renew without Expires writes back the expiry that it read, although somebody changed it since. */
  predicate TakesBack(w: World, step: Step) {
    && Writes(w, step) && step.o == Works
    && At(w, step.t).expires.None? && At(w, step.t).base.expires != w.store[At(w, step.t).id].expires
  }

  /** The write of an Expires that is not the stored one is lost. */
  predicate LosesExpiry(w: World, step: Step) {
    && Writes(w, step) && step.o == Lost
    && At(w, step.t).expires.Some? && At(w, step.t).expires != w.store[At(w, step.t).id].expires
  }

  predicate Harmless(w: World, step: Step, reported: bool) {
    !TakesBack(w, step) && (reported ==> !LosesExpiry(w, step))
  }

  lemma LastRenewalOfNext(log: seq<Entry>, e: Entry, id: string, reported: bool)
    ensures LastRenewal(log + [e], id, reported)
         == if Renewal(e.event, id, reported) then e.event.expires else LastRenewal(log, id, reported)
  {
    assert (log + [e])[..|log|] == log;
  }

  lemma {:induction false} NotRenewedYet(log: seq<Entry>, inserted: map<string, Record>, id: string, reported: bool)
    requires forall i :: 0 <= i < |log| && log[i].event.Renewed? ==> log[i].event.id in inserted
    requires id !in inserted
    ensures LastRenewal(log, id, reported) == None
    decreases |log|
  {
    if log != [] {
      NotRenewedYet(log[..|log| - 1], inserted, id, reported);
    }
  }

  /** How a store call changes the expiry of one subscription. */
  lemma EffectOnExpiryField(w: World, p: Process, o: Outcome, id: string)
    requires StoreOk(w) && ProcessOk(w, p) && id in EffectOf(w, p, o).store
    ensures EffectOf(w, p, o).store[id].expires ==
            if id !in w.store then Some(FOREVER)
            else if p.RenewWriting? && p.id == id && o == Works then p.expires.OrElse(p.base.expires)
                else w.store[id].expires
  {
    if p.Inserting? {
      InsertedIsCopy(w.backend, p.s);
    }
    if p.RenewWriting? && p.id in w.store {
      WriteBack(w.backend, w.store[p.id], p.base, w.inserted[p.id], p.expires);
    }
    hide Kept, Merged, Edited, SameButExpiry, Refusal;
  }

  /** How a store call changes the last renewal of an id. */
  lemma EffectOnLastRenewal(w: World, t: nat, o: Outcome, id: string, reported: bool)
    requires id in w.store
    ensures LastRenewal(Advance(w, t, o).log, id, reported) ==
            var p := At(w, t);
            if p.RenewWriting? && p.id == id && p.expires.Some?
                && (o == Works || (o == Lost && reported)) then p.expires
                else LastRenewal(w.log, id, reported)
  {
    var e := EffectOf(w, At(w, t), o);
    if e.event.Some? {
      LastRenewalOfNext(w.log, Entry(e.event.value, e.store), id, reported);
    } else {
      assert w.log + [] == w.log;
    }
    hide LastRenewal, Merged, Edited, Insert;
  }

  /** A store call keeps the expiry of an id right unless it is a write of that id that is not harmless. */
  lemma EffectOnExpiry(w: World, t: nat, o: Outcome, id: string, reported: bool)
    requires Inv(w) && LogOk(w) && id in Advance(w, t, o).store
    requires id in w.store ==> ExpiryRight(w, id, reported)
    ensures var p := At(w, t);
            ExpiryRight(Advance(w, t, o), id, reported) <==>
                (p.RenewWriting? && p.id == id ==> Harmless(w, Go(t, o), reported))
  {
    var p := At(w, t);
    assert ProcessOk(w, p);
    EffectOnExpiryField(w, p, o, id);
    if id in w.store {
      EffectOnLastRenewal(w, t, o, id, reported);
    } else {
      EffectBringsNewIdsOnly(w, p, o);
      NotWrittenYet(w, p, o, id);
      EffectLogsInsert(w, t, o);
      NotRenewedYet(w.log, w.inserted, id, reported);
      LastRenewalOfNext(w.log, Advance(w, t, o).log[|w.log|], id, reported);
    }
    hide EffectOf, LastRenewal, LogOk, Inv, ProcessOk;
  }

  lemma EffectLogsInsert(w: World, t: nat, o: Outcome)
    requires At(w, t).Inserting?
    ensures var log := Advance(w, t, o).log;
            |log| == |w.log| + 1 && !log[|w.log|].event.Renewed? && log == w.log + [log[|w.log|]]
  {
    hide Insert;
  }

  lemma NotWrittenYet(w: World, p: Process, o: Outcome, id: string)
    requires ProcessOk(w, p) && id !in w.store && id in EffectOf(w, p, o).store
    ensures p.Inserting? && p.id == id
  {
    hide Kept, Merged, Edited, Legal, Copy;
  }

  /** From a state where every expiry is the last renewal's, a step leads to such a state exactly when it is
      harmless. */
  lemma StepKeepsExpiries(w: World, step: Step, reported: bool)
    requires Inv(w) && LogOk(w) && ExpiriesRight(w, reported)
    ensures ExpiriesRight(Do(w, step), reported) <==> Harmless(w, step, reported)
  {
    var w' := Do(w, step);
    hide Truthful, Legal, Copy, LastRenewal, NewSubscriber, Refusal, Inv, LogOk, EffectOf;
    if step.Go? {
      forall id | id in w'.store
        ensures ExpiryRight(w', id, reported) <==>
            (At(w, step.t).RenewWriting? && At(w, step.t).id == id ==> Harmless(w, step, reported))
      {
        EffectOnExpiry(w, step.t, step.o, id, reported);
      }
      hide ExpiryRight;
      if !Harmless(w, step, reported) {
        WrittenIsStored(w, step.t, step.o, reported);
      }
    } else {
      forall id | id in w'.store ensures ExpiryRight(w', id, reported) {
        if w'.log != w.log {
          LastRenewalOfNext(w.log, Entry(Fault(step.request.id), w.store), id, reported);
        }
      }
    }
  }

  lemma WrittenIsStored(w: World, t: nat, o: Outcome, reported: bool)
    requires !Harmless(w, Go(t, o), reported)
    ensures At(w, t).id in Advance(w, t, o).store
  {
  }

  /** In a run, whatever the interleaving: every expiry is always that of the last Renew that carried one and took
      effect, or "*", exactly when no Renew without Expires takes back an expiry. It is always that of the last one that
      was reported as a success exactly when, besides, no write of an Expires other than the stored one is lost. */
  lemma {:induction false} ExpiriesRightIff(w: World, steps: seq<Step>, reported: bool)
    requires Inv(w) && LogOk(w) && ExpiriesRight(w, reported)
    ensures (forall k :: 0 <= k <= |steps| ==> ExpiriesRight(Run(w, steps[..k]), reported))
            <==> (forall k :: 0 <= k < |steps| ==> Harmless(Run(w, steps[..k]), steps[k], reported))
    decreases |steps|
  {
    hide ExpiriesRight, Harmless, Inv, LogOk, Do;
    if steps != [] {
      var w', rest := Do(w, steps[0]), steps[1..];
      assert steps[..0] == [];
      StepKeeps(w, steps[0]);
      StepKeepsLog(w, steps[0]);
      StepKeepsExpiries(w, steps[0], reported);
      RunOfPrefixes(w, steps);
      assert Run(w, steps[..1]) == w' by { assert rest[..0] == []; }
      forall k | 0 <= k <= |rest| ensures Run(w', rest[..k]) == Run(w, steps[..k + 1]) {
      }
      hide Run;
      if ExpiriesRight(w', reported) {
        ExpiriesRightIff(w', rest, reported);
        if forall k :: 0 <= k <= |rest| ==> ExpiriesRight(Run(w', rest[..k]), reported) {
          forall k | 0 <= k <= |steps| ensures ExpiriesRight(Run(w, steps[..k]), reported) {
            assert k > 0 ==> ExpiriesRight(Run(w', rest[..k - 1]), reported);
          }
          forall k | 0 <= k < |steps| ensures Harmless(Run(w, steps[..k]), steps[k], reported) {
            assert k > 0 ==> Harmless(Run(w', rest[..k - 1]), rest[k - 1], reported);
          }
        } else {
          var k :| 0 <= k <= |rest| && !ExpiriesRight(Run(w', rest[..k]), reported);
          assert !ExpiriesRight(Run(w, steps[..k + 1]), reported);
          var j :| 0 <= j < |rest| && !Harmless(Run(w', rest[..j]), rest[j], reported);
          assert !Harmless(Run(w, steps[..j + 1]), steps[j + 1], reported);
        }
      } else {
        assert !ExpiriesRight(Run(w, steps[..1]), reported) && !Harmless(Run(w, steps[..0]), steps[0], reported);
      }
    }
  }

  lemma RunOfPrefixes(w: World, steps: seq<Step>)
    requires steps != []
    ensures Run(w, []) == w
    ensures forall k :: 0 < k <= |steps| ==> Run(w, steps[..k]) == Run(Do(w, steps[0]), steps[1..][..k - 1])
  {
    forall k | 0 < k <= |steps| ensures Run(w, steps[..k]) == Run(Do(w, steps[0]), steps[1..][..k - 1]) {
      assert steps[..k][0] == steps[0] && steps[..k][1..] == steps[1..][..k - 1];
    }
  }
}
