/** Any number of registry operations at once, interleaved at the level of single registry calls. Nothing locks the
    index, so each operation works on the copy of it that it read. */
module RegistryInterleaving {
  import opened Options
  import opened Subscribers
  import opened Stores
  import opened RegistryPaths
  import opened RegistryStore
  import Runs = RegistryRuns

  datatype Call =
    | CallInsert(s: Record) | CallUpdate(s: Record) | CallRemove(id: string)
    | CallRetrieve(id: string) | CallScan | CallList(filter: Option<string>)

  /** A subscriber that was read, and how long the log was then. */
  datatype Found = Found(r: Record, at: nat)

  /** Where a call is: the registry call it makes next, with what it has read so far. */
  datatype Process =
    | Idle
    | InsertPut(s: Record)
    | InsertRead(s: Record)
    | InsertWrite(s: Record, snapshot: map<string, string>)
    | UpdateRead(s: Record)
    | UpdateGet(s: Record, collection: string)
    | UpdatePut(s: Record, collection: string, held: Resource)
    | RemoveRead(id: string)
    | RemoveDelete(id: string, collection: string)
    | RemoveReread(id: string)
    | RemoveWrite(id: string, snapshot: map<string, string>)
    | RetrieveRead(id: string)
    | RetrieveGet(id: string, collection: string)
    | ScanRead
    | Scanning(snapshot: map<string, string>, left: set<string>, found: map<string, Found>)
    | Listing(filter: Option<string>)

  /** What an observer sees: a delete that succeeded; what a retrieve or a scan answers when it ends; and what listing
      the collection of a filter answers, where the key is the last segment of the path, as the records have no id. */
  datatype Event =
    | Deleted(id: string)
    | Returned(found: map<string, Found>)
    | Listed(found: map<string, Found>)

  /** The history variables record which subscriber was inserted under each id and which ids were ever updated. */
  datatype World = World(
    reg: Resources,
    processes: map<nat, Process>,
    log: seq<Event>,
    inserted: map<string, Record>,
    updated: set<string>)

  /** Go makes the next registry call of a thread, Pick the call of a scan for one entry; with Fail that call fails. */
  datatype Step = Begin(t: nat, call: Call) | Go(t: nat) | Pick(t: nat, id: string) | Fail(t: nat, id: string)

  function At(w: World, t: nat): Process {
    if t in w.processes then w.processes[t] else Idle
  }

  function Become(w: World, t: nat, p: Process): World {
    w.(processes := w.processes[t := p])
  }

  function Log(w: World, e: Event): World {
    w.(log := w.log + [e])
  }

  /** What reading the resource of an id finds. */
  function ReadFor(w: World, id: string, collection: string): map<string, Found> {
    var path := LookupPath(collection, id);
    if path in w.reg && ExtractSubscriber(w.reg[path]).Some?
    then map[id := Found(ExtractSubscriber(w.reg[path]).value.(id := Some(id)), |w.log|)] else map[]
  }

  /** What listing the collection of a filter finds, in one call and without the index. */
  function ReadAll(w: World, filter: Option<string>): map<string, Found> {
    var listing := Runs.Listing(w.reg, Collection(filter));
    map id | id in listing && listing[id].Some? :: Found(listing[id].value, |w.log|)
  }

  /** Ids of new subscribers are minted: slash-free and never used before. */
  function Start(w: World, t: nat, call: Call): World {
    match call
    case CallInsert(s) =>
      if s.id.Some? && SlashFree(s.id.value) && s.id.value !in w.inserted
      then Become(w, t, InsertPut(s)).(inserted := w.inserted[s.id.value := s])
      else w
    case CallUpdate(s) =>
      if s.id.Some? then Become(w, t, UpdateRead(s)).(updated := w.updated + {s.id.value}) else w
    case CallRemove(id) => Become(w, t, RemoveRead(id))
    case CallRetrieve(id) => Become(w, t, RetrieveRead(id))
    case CallScan => Become(w, t, ScanRead)
    case CallList(filter) => Become(w, t, Listing(filter))
  }

  /** What a registry call leads to. */
  datatype Effect = Effect(reg: Resources, next: Process, event: Option<Event>)

  function Then(w: World, next: Process): Effect {
    Effect(w.reg, next, None)
  }

  function EffectOf(w: World, p: Process): Effect {
    match p
    case Idle => Then(w, Idle)
    case InsertPut(s) => if s.id.Some? then Effect(PutSubscription(w.reg, s), InsertRead(s), None) else Then(w, Idle)
    case InsertRead(s) => Then(w, if TOPIC_INDEX in w.reg then InsertWrite(s, Index(w.reg)) else Idle)
    case InsertWrite(s, snapshot) =>
      if s.id.Some? then Effect(WriteIndex(w.reg, WithEntry(snapshot, s)), Idle, None) else Then(w, Idle)
    case UpdateRead(s) =>
      Then(w, if s.id.Some? && s.id.value in Index(w.reg) then UpdateGet(s, Index(w.reg)[s.id.value]) else Idle)
    case UpdateGet(s, c) =>
      var found := s.id.Some? && LookupPath(c, s.id.value) in w.reg;
      Then(w, if found then UpdatePut(s, c, w.reg[LookupPath(c, s.id.value)]) else Idle)
    case UpdatePut(s, c, held) =>
      if s.id.Some? then Effect(w.reg[LookupPath(c, s.id.value) := UpdatedResource(held, s)], Idle, None)
          else Then(w, Idle)
    case RemoveRead(id) => Then(w, if id in Index(w.reg) then RemoveDelete(id, Index(w.reg)[id]) else Idle)
    case RemoveDelete(id, c) =>
      if LookupPath(c, id) in w.reg
      then Effect(w.reg - {LookupPath(c, id)}, RemoveReread(id), Some(Deleted(id))) else Then(w, Idle)
    case RemoveReread(id) => Then(w, if TOPIC_INDEX in w.reg then RemoveWrite(id, Index(w.reg)) else Idle)
    case RemoveWrite(id, snapshot) => Effect(WriteIndex(w.reg, snapshot - {id}), Idle, None)
    case RetrieveRead(id) =>
      if id in Index(w.reg) then Then(w, RetrieveGet(id, Index(w.reg)[id]))
      else Effect(w.reg, Idle, Some(Returned(map[])))
    case RetrieveGet(id, c) => Effect(w.reg, Idle, Some(Returned(ReadFor(w, id, c))))
    case ScanRead => Then(w, Scanning(Index(w.reg), Index(w.reg).Keys, map[]))
    case Scanning(_, left, found) => if left == {} then Effect(w.reg, Idle, Some(Returned(found))) else Then(w, p)
    case Listing(filter) => Effect(w.reg, Idle, Some(Listed(ReadAll(w, filter))))
  }

  function Advance(w: World, t: nat): World {
    var e := EffectOf(w, At(w, t));
    w.(reg := e.reg, processes := w.processes[t := e.next],
       log := if e.event.Some? then w.log + [e.event.value] else w.log)
  }

  /** Where a call goes on when a registry call fails: the status of a put is ignored, any other failure ends the call;
      a scan passes over the entry. */
  function Failed(p: Process, id: string): Process {
    match p
    case InsertPut(s) => InsertRead(s)
    case Scanning(snapshot, left, found) => Scanning(snapshot, left - {id}, found)
    case _ => Idle
  }

  /** A step that is not possible leaves the world as it is. A scan reads the entries of its copy in any order. */
  function Do(w: World, step: Step): World {
    match step
    case Begin(t, call) => if At(w, t) == Idle then Start(w, t, call) else w
    case Go(t) => Advance(w, t)
    case Pick(t, id) =>
      var p := At(w, t);
      if p.Scanning? && id in p.left && id in p.snapshot
      then Become(w, t, Scanning(p.snapshot, p.left - {id}, p.found + ReadFor(w, id, p.snapshot[id])))
      else w
    case Fail(t, id) => Become(w, t, Failed(At(w, t), id))
  }

  function Run(w: World, steps: seq<Step>): World
    decreases |steps|
  {
    if steps == [] then w else Run(Do(w, steps[0]), steps[1..])
  }

  const INITIAL := World(map[TOPIC_INDEX := Resource(None, map[])], map[], [], map[], {})

  // ---- The invariant ----------------------------------------------------------------------------------------

  /** Every entry, in the index or in a copy of it, names the collection its id was inserted under. */
  predicate NamesOwn(entries: map<string, string>, inserted: map<string, Record>) {
    forall id :: id in entries ==> id in inserted && entries[id] == Collection(inserted[id].filter)
  }

  /** The resource of an id describes the subscriber inserted with it: its endpoint always, all of it until an
      update of that id begins. */
  predicate OwnResource(w: World, id: string, res: Resource) {
    && id in w.inserted
    && res.content == Some(SerializeEndpoint(w.inserted[id]))
    && (id !in w.updated ==> res == NewResource(w.inserted[id]))
  }

  predicate IdOf(s: Record, inserted: map<string, Record>) {
    s.id.Some? && s.id.value in inserted && inserted[s.id.value] == s
  }

  predicate ProcessOk(w: World, p: Process) {
    match p
    case InsertPut(s) => IdOf(s, w.inserted)
    case InsertRead(s) => IdOf(s, w.inserted)
    case InsertWrite(s, snapshot) => IdOf(s, w.inserted) && NamesOwn(snapshot, w.inserted)
    case UpdateRead(s) => s.id.Some? && s.id.value in w.updated
    case UpdateGet(s, c) => s.id.Some? && s.id.value in w.updated && NamesOwn(map[s.id.value := c], w.inserted)
    case UpdatePut(s, c, held) =>
      s.id.Some? && s.id.value in w.updated && NamesOwn(map[s.id.value := c], w.inserted)
      && w.inserted[s.id.value].filter.Some? && OwnResource(w, s.id.value, held)
    case RemoveDelete(id, c) => NamesOwn(map[id := c], w.inserted)
    case RemoveWrite(id, snapshot) => NamesOwn(snapshot, w.inserted)
    case RetrieveGet(id, c) => NamesOwn(map[id := c], w.inserted)
    case Scanning(snapshot, left, found) => NamesOwn(snapshot, w.inserted) && AllOwn(w, found) && WithIds(found)
    case _ => true
  }

  /** The record that may be answered for an id, with or without the id. */
  predicate OwnRecord(w: World, id: string, r: Record) {
    && id in w.inserted
    && r.notifyTo == w.inserted[id].notifyTo
    && (id !in w.updated ==> r.(id := Some(id)) == Kept(Registry, w.inserted[id]))
  }

  predicate AllOwn(w: World, found: map<string, Found>) {
    forall id :: id in found ==> OwnRecord(w, id, found[id].r)
  }

  predicate WithIds(found: map<string, Found>) {
    forall id :: id in found ==> found[id].r.id == Some(id)
  }

  predicate EventOk(w: World, e: Event) {
    match e
    case Deleted(_) => true
    case Returned(found) => AllOwn(w, found) && WithIds(found)
    case Listed(found) => AllOwn(w, found)
  }

  predicate Inserting(p: Process, id: string) {
    p.InsertPut? && p.s.id == Some(id)
  }

  /** An update that is about to write back the resource it read for the id. */
  predicate Holding(p: Process, id: string) {
    p.UpdatePut? && p.s.id == Some(id)
  }

  function PathFor(w: World, id: string): string
    requires id in w.inserted
  {
    LookupPath(Collection(w.inserted[id].filter), id)
  }

  /** What is stored at the lookup path of (f, id). */
  predicate PathOk(w: World, f: Option<string>, id: string) {
    var path := LookupPath(Collection(f), id);
    path in w.reg ==> f.Some? && id in w.inserted && w.inserted[id].filter == f && OwnResource(w, id, w.reg[path])
  }

  ghost predicate Inv(w: World) {
    && TOPIC_INDEX in w.reg
    && NamesOwn(Index(w.reg), w.inserted)
    && (forall id :: id in w.inserted ==> w.inserted[id].id == Some(id) && SlashFree(id))
    && (forall f, id :: SlashFree(id) ==> PathOk(w, f, id))
    && (forall t :: ProcessOk(w, At(w, t)))
    && (forall t, id :: Inserting(At(w, t), id) ==> id in w.inserted && PathFor(w, id) !in w.reg)
    && (forall t, u, id :: Inserting(At(w, t), id) && Inserting(At(w, u), id) ==> t == u)
    && (forall t, u, id :: Inserting(At(w, t), id) ==> !Holding(At(w, u), id))
    && (forall i :: 0 <= i < |w.log| ==> EventOk(w, w.log[i]))
  }

  lemma InitialInv()
    ensures Inv(INITIAL)
  {
    forall f, id | SlashFree(id) ensures PathOk(INITIAL, f, id) {
      NeverTheIndex(f, id);
    }
  }

  /** A resource that belongs to an id reads as the subscriber inserted with it. */
  lemma OwnResourceReads(w: World, id: string, res: Resource)
    requires OwnResource(w, id, res) && w.inserted[id].id == Some(id)
    ensures var r := ExtractSubscriber(res);
            (r.Some? <==> Address(w.inserted[id].notifyTo).Some?)
                && (r.Some? ==> OwnRecord(w, id, r.value))
  {
    var s := w.inserted[id];
    ExtractNew(s);
    assert ExtractSubscriber(res).Some? ==>
        ExtractSubscriber(res).value.notifyTo == Some(EndpointRef(Address(s.notifyTo)));
  }

  // ---- Every step keeps the invariant -----------------------------------------------------------------------

  lemma BecomeKeeps(w: World, t: nat, p: Process)
    requires Inv(w) && ProcessOk(w, p) && !p.InsertPut?
    requires p.UpdatePut? ==> forall u :: !Inserting(At(w, u), p.s.id.value)
    ensures Inv(Become(w, t, p))
  {
    hide Collection, LookupPath, NewResource, SerializeEndpoint, Kept;
    var w' := Become(w, t, p);
    assert forall u :: u != t ==> At(w', u) == At(w, u);
    assert forall u :: ProcessOk(w, At(w', u)) ==> ProcessOk(w', At(w', u));
    assert forall f, id :: PathOk(w, f, id) ==> PathOk(w', f, id);
    assert forall e :: EventOk(w, e) ==> EventOk(w', e);
  }

  /** What is read at the path of an id is its own. */
  lemma ReadIsOwn(w: World, id: string)
    requires Inv(w) && id in w.inserted
    ensures var path := PathFor(w, id);
            path in w.reg && ExtractSubscriber(w.reg[path]).Some? ==>
                OwnRecord(w, id, ExtractSubscriber(w.reg[path]).value)
  {
    hide Collection, LookupPath, ExtractSubscriber;
    assert PathOk(w, w.inserted[id].filter, id);
    if PathFor(w, id) in w.reg {
      OwnResourceReads(w, id, w.reg[PathFor(w, id)]);
    }
  }

  lemma ReadForIsOwn(w: World, id: string, c: string)
    requires Inv(w) && NamesOwn(map[id := c], w.inserted)
    ensures AllOwn(w, ReadFor(w, id, c)) && WithIds(ReadFor(w, id, c))
  {
    assert id in map[id := c] && c == Collection(w.inserted[id].filter);
    hide Inv, Collection, LookupPath, ExtractSubscriber, Kept;
    ReadIsOwn(w, id);
  }

  /** A listing has an id exactly if there is a resource for it in the collection. */
  lemma ListingReads(reg: Resources, c: string, id: string)
    ensures id in Runs.Listing(reg, c) <==> SlashFree(id) && LookupPath(c, id) in reg
    ensures id in Runs.Listing(reg, c) ==> Runs.Listing(reg, c)[id] == ExtractSubscriber(reg[LookupPath(c, id)])
  {
    var path := LookupPath(c, id);
    if SlashFree(id) && path in reg {
      SegmentSplits(c, path, id);
      assert ChildOf(c, path) && Segment(c, path) == id;
      assert id in Runs.Children(reg, c);
    }
    if id in Runs.Children(reg, c) {
      var p :| p in reg && ChildOf(c, p) && Segment(c, p) == id;
      SegmentSplits(c, p, id);
    }
    hide ExtractSubscriber;
  }

  lemma ReadAllIsOwn(w: World, filter: Option<string>)
    requires Inv(w)
    ensures AllOwn(w, ReadAll(w, filter))
  {
    var found := ReadAll(w, filter);
    forall id | id in found ensures OwnRecord(w, id, found[id].r) {
      ListingReads(w.reg, Collection(filter), id);
      assert PathOk(w, filter, id);
      hide Collection, LookupPath, ExtractSubscriber, Kept;
      ReadIsOwn(w, id);
    }
  }

  /** Only the log grows, by one event. */
  lemma LogKeeps(w: World, e: Event)
    requires Inv(w) && EventOk(w, e)
    ensures Inv(Log(w, e))
  {
    hide Collection, LookupPath, NewResource, SerializeEndpoint, Kept;
    var w' := Log(w, e);
    assert forall u :: At(w', u) == At(w, u);
    assert forall u :: ProcessOk(w, At(w', u)) ==> ProcessOk(w', At(w', u));
    assert forall f, id :: PathOk(w, f, id) ==> PathOk(w', f, id);
    assert forall e :: EventOk(w, e) ==> EventOk(w', e);
  }

  lemma WriteIndexKeeps(w: World, entries: map<string, string>)
    requires Inv(w) && NamesOwn(entries, w.inserted)
    ensures Inv(w.(reg := WriteIndex(w.reg, entries)))
  {
    hide Collection, LookupPath, NewResource, SerializeEndpoint, Kept;
    var w' := w.(reg := WriteIndex(w.reg, entries));
    assert forall u :: At(w', u) == At(w, u);
    assert forall u :: ProcessOk(w, At(w', u)) ==> ProcessOk(w', At(w', u));
    assert forall e :: EventOk(w, e) ==> EventOk(w', e);
    forall f, id | SlashFree(id) ensures PathOk(w', f, id) {
      assert PathOk(w, f, id);
      NeverTheIndex(f, id);
    }
    forall id | id in w.inserted ensures PathFor(w', id) != TOPIC_INDEX {
      NeverTheIndex(w.inserted[id].filter, id);
    }
  }

  /** Changing the resource of one id to one that belongs to it, or taking it away. */
  lemma OneResourceKeeps(w: World, id: string, reg: Resources)
    requires Inv(w) && id in w.inserted
    requires forall t :: !Inserting(At(w, t), id)
    requires var path := PathFor(w, id);
             && (forall p :: p != path ==> (p in reg <==> p in w.reg) && (p in reg ==> reg[p] == w.reg[p]))
             && (path in reg ==> w.inserted[id].filter.Some? && OwnResource(w, id, reg[path]))
    ensures Inv(w.(reg := reg))
  {
    hide Collection, LookupPath, NewResource, SerializeEndpoint, Kept;
    var w' := w.(reg := reg);
    var g := w.inserted[id].filter;
    assert IsCollection(Collection(g));
    NeverTheIndex(g, id);
    assert forall u :: At(w', u) == At(w, u);
    assert forall u :: ProcessOk(w, At(w', u)) ==> ProcessOk(w', At(w', u));
    assert forall e :: EventOk(w, e) ==> EventOk(w', e);
    forall f, other | SlashFree(other) ensures PathOk(w', f, other) {
      assert PathOk(w, f, other);
      Apart(Collection(g), id, Collection(f), other);
      if Collection(f) == Collection(g) {
        CollectionInjective(f, g);
      }
    }
    forall other | other in w.inserted && other != id ensures PathFor(w, other) != PathFor(w, id) {
      Apart(Collection(g), id, Collection(w.inserted[other].filter), other);
    }
  }

  /** The first write of an insert. With a NULL filter it writes "/", which belongs to no subscriber. */
  lemma PutKeeps(w: World, t: nat)
    requires Inv(w) && At(w, t).InsertPut?
    ensures Inv(Advance(w, t))
  {
    hide Collection, LookupPath, InsertPath, NewResource, SerializeEndpoint, Kept;
    var s := At(w, t).s;
    assert ProcessOk(w, At(w, t)) && Inserting(At(w, t), s.id.value);
    var id := s.id.value;
    var w1 := Become(w, t, InsertRead(s));
    BecomeKeeps(w, t, InsertRead(s));
    forall u ensures !Inserting(At(w1, u), id) {
      assert u != t ==> At(w1, u) == At(w, u);
    }
    var reg := PutSubscription(w.reg, s);
    assert IsCollection(Collection(s.filter));
    InsertPathIsOwn(s.filter, id, Collection(s.filter), id);
    assert NewResource(s).content == Some(SerializeEndpoint(s)) by {
      NewResourceContent(s);
    }
    if s.filter.Some? {
      OneResourceKeeps(w1, id, reg);
    } else {
      PutAtRootKeeps(w1, s);
    }
  }

  lemma NewResourceContent(s: Record)
    ensures NewResource(s).content == Some(SerializeEndpoint(s))
  {
  }

  lemma PutAtRootKeeps(w: World, s: Record)
    requires Inv(w) && s.id.Some? && SlashFree(s.id.value) && s.filter.None?
    ensures Inv(w.(reg := PutSubscription(w.reg, s)))
  {
    hide Collection, LookupPath, InsertPath, NewResource, SerializeEndpoint, Kept;
    var w' := w.(reg := PutSubscription(w.reg, s));
    NeverTheIndex(None, s.id.value);
    assert forall u :: At(w', u) == At(w, u);
    assert forall u :: ProcessOk(w, At(w', u)) ==> ProcessOk(w', At(w', u));
    assert forall e :: EventOk(w, e) ==> EventOk(w', e);
    forall f, id | SlashFree(id)
        ensures PathOk(w', f, id) && LookupPath(Collection(f), id) != InsertPath(None, s.id.value) {
      assert PathOk(w, f, id);
      assert IsCollection(Collection(f));
      InsertPathIsOwn(None, s.id.value, Collection(f), id);
    }
  }

  lemma BeginKeeps(w: World, t: nat, call: Call)
    requires Inv(w) && At(w, t) == Idle
    ensures Inv(Start(w, t, call))
  {
    hide Collection, LookupPath, NewResource, SerializeEndpoint, Kept;
    if call.CallUpdate? && call.s.id.Some? {
      var w1 := w.(updated := w.updated + {call.s.id.value});
      assert forall u :: At(w1, u) == At(w, u);
      assert forall u :: ProcessOk(w, At(w1, u)) ==> ProcessOk(w1, At(w1, u));
      assert forall f, id :: PathOk(w, f, id) ==> PathOk(w1, f, id);
      assert forall e :: EventOk(w, e) ==> EventOk(w1, e);
      assert Inv(w1);
      BecomeKeeps(w1, t, UpdateRead(call.s));
    } else if call.CallInsert? {
      BeginInsertKeeps(w, t, call.s);
    } else if call.CallRemove? {
      BecomeKeeps(w, t, RemoveRead(call.id));
    } else if call.CallRetrieve? {
      BecomeKeeps(w, t, RetrieveRead(call.id));
    } else if call.CallScan? {
      BecomeKeeps(w, t, ScanRead);
    } else if call.CallList? {
      BecomeKeeps(w, t, Listing(call.filter));
    }
  }

  lemma BeginInsertKeeps(w: World, t: nat, s: Record)
    requires Inv(w) && At(w, t) == Idle
    ensures Inv(Start(w, t, CallInsert(s)))
  {
    hide Collection, LookupPath, NewResource, SerializeEndpoint, Kept;
    var w' := Start(w, t, CallInsert(s));
    if w' != w {
      BeginInsertKeepsProcesses(w, t, s);
      BeginInsertKeepsPaths(w, t, s);
      assert forall e :: EventOk(w, e) ==> EventOk(w', e);
      hide PathOk, EventOk, ProcessOk, SlashFree, PathFor;
    }
  }

  lemma BeginInsertKeepsPaths(w: World, t: nat, s: Record)
    requires Inv(w) && At(w, t) == Idle && Start(w, t, CallInsert(s)) != w
    ensures var w' := Start(w, t, CallInsert(s));
            && (forall f, id :: SlashFree(id) ==> PathOk(w', f, id))
            && (forall id :: id in w.inserted ==> PathFor(w', id) == PathFor(w, id))
            && PathFor(w', s.id.value) !in w'.reg
  {
    hide Collection, LookupPath, NewResource, SerializeEndpoint, Kept, ProcessOk, EventOk;
    var w' := Start(w, t, CallInsert(s));
    var id := s.id.value;
    forall f, other | SlashFree(other)
        ensures PathOk(w', f, other) && (other == id ==> LookupPath(Collection(f), other) !in w.reg) {
      assert PathOk(w, f, other);
    }
  }

  lemma BeginInsertKeepsProcesses(w: World, t: nat, s: Record)
    requires Inv(w) && At(w, t) == Idle && Start(w, t, CallInsert(s)) != w
    ensures var w' := Start(w, t, CallInsert(s));
            && (forall u :: u != t ==>
                  At(w', u) == At(w, u) && !Inserting(At(w, u), s.id.value) && !Holding(At(w, u), s.id.value))
            && forall u :: ProcessOk(w', At(w', u))
  {
    hide Collection, LookupPath, NewResource, SerializeEndpoint, Kept, PathOk, EventOk;
    var w' := Start(w, t, CallInsert(s));
    forall u | u != t
      ensures At(w', u) == At(w, u) && ProcessOk(w', At(w', u)) && !Inserting(At(w, u), s.id.value)
          && !Holding(At(w, u), s.id.value)
    {
      assert ProcessOk(w, At(w, u));
    }
  }

  lemma InsertKeeps(w: World, t: nat)
    requires Inv(w) && (At(w, t).InsertRead? || At(w, t).InsertWrite?)
    ensures Inv(Advance(w, t))
  {
    var p := At(w, t);
    assert ProcessOk(w, p) && NamesOwn(Index(w.reg), w.inserted);
    hide Collection, LookupPath, InsertPath, NewResource, SerializeEndpoint, Kept, Inv, Index;
    BecomeKeeps(w, t, Idle);
    if p.InsertWrite? {
      assert NamesOwn(WithEntry(p.snapshot, p.s), w.inserted);
      WriteIndexKeeps(Become(w, t, Idle), WithEntry(p.snapshot, p.s));
    } else {
      BecomeKeeps(w, t, InsertWrite(p.s, Index(w.reg)));
    }
  }

  lemma UpdateKeeps(w: World, t: nat)
    requires Inv(w) && (At(w, t).UpdateRead? || At(w, t).UpdateGet?)
    ensures Inv(Advance(w, t))
  {
    hide Collection, LookupPath, InsertPath, NewResource, SerializeEndpoint, Kept;
    var p := At(w, t);
    assert ProcessOk(w, p);
    var id := p.s.id.value;
    BecomeKeeps(w, t, Idle);
    if p.UpdateRead? && id in Index(w.reg) {
      BecomeKeeps(w, t, UpdateGet(p.s, Index(w.reg)[id]));
    }
    if p.UpdateGet? && LookupPath(p.collection, id) in w.reg {
      assert id in map[id := p.collection] && PathOk(w, w.inserted[id].filter, id);
      BecomeKeeps(w, t, UpdatePut(p.s, p.collection, w.reg[LookupPath(p.collection, id)]));
    }
  }

  lemma RemoveKeeps(w: World, t: nat)
    requires Inv(w) && (At(w, t).RemoveRead? || At(w, t).RemoveReread? || At(w, t).RemoveWrite?)
    ensures Inv(Advance(w, t))
  {
    var p := At(w, t);
    assert ProcessOk(w, p) && NamesOwn(Index(w.reg), w.inserted);
    hide Collection, LookupPath, InsertPath, NewResource, SerializeEndpoint, Kept, Inv, Index;
    BecomeKeeps(w, t, Idle);
    if p.RemoveRead? && p.id in Index(w.reg) {
      BecomeKeeps(w, t, RemoveDelete(p.id, Index(w.reg)[p.id]));
    }
    if p.RemoveReread? {
      BecomeKeeps(w, t, RemoveWrite(p.id, Index(w.reg)));
    }
    if p.RemoveWrite? {
      WriteIndexKeeps(Become(w, t, Idle), p.snapshot - {p.id});
    }
  }

  lemma ReadKeeps(w: World, t: nat)
    requires Inv(w)
    requires At(w, t).RetrieveRead? || At(w, t).RetrieveGet? || At(w, t).ScanRead? || At(w, t).Scanning?
        || At(w, t).Listing?
    ensures Inv(Advance(w, t))
  {
    var p := At(w, t);
    assert ProcessOk(w, p) && NamesOwn(Index(w.reg), w.inserted) && EventOk(w, Returned(map[]));
    hide Collection, LookupPath, ReadFor, ReadAll, Kept, Inv, Index;
    BecomeKeeps(w, t, Idle);
    var w1 := Become(w, t, Idle);
    if p.RetrieveRead? && p.id in Index(w.reg) {
      BecomeKeeps(w, t, RetrieveGet(p.id, Index(w.reg)[p.id]));
    } else if p.RetrieveRead? {
      LogKeeps(w1, Returned(map[]));
    }
    if p.RetrieveGet? {
      ReadForIsOwn(w, p.id, p.collection);
      OwnOverBecome(w, t, Returned(ReadFor(w, p.id, p.collection)));
      LogKeeps(w1, Returned(ReadFor(w, p.id, p.collection)));
    }
    if p.ScanRead? {
      BecomeKeeps(w, t, Scanning(Index(w.reg), Index(w.reg).Keys, map[]));
    }
    if p.Scanning? {
      BecomeKeeps(w, t, p);
      OwnOverBecome(w, t, Returned(p.found));
      LogKeeps(w1, Returned(p.found));
    }
    if p.Listing? {
      ReadAllIsOwn(w, p.filter);
      OwnOverBecome(w, t, Listed(ReadAll(w, p.filter)));
      LogKeeps(w1, Listed(ReadAll(w, p.filter)));
    }
  }

  lemma OwnOverBecome(w: World, t: nat, e: Event)
    requires EventOk(w, e)
    ensures EventOk(Become(w, t, Idle), e)
  {
    hide Kept;
  }

  lemma AdvanceKeeps(w: World, t: nat)
    requires Inv(w)
    ensures Inv(Advance(w, t))
  {
    hide Inv;
    var p := At(w, t);
    if p.Idle? {
      BecomeKeeps(w, t, Idle);
    }
    hide Advance;
    if p.InsertPut? {
      PutKeeps(w, t);
    } else if p.InsertRead? || p.InsertWrite? {
      InsertKeeps(w, t);
    } else if p.UpdateRead? || p.UpdateGet? {
      UpdateKeeps(w, t);
    } else if p.UpdatePut? {
      UpdatePutKeeps(w, t);
    } else if p.RemoveDelete? {
      DeleteKeeps(w, t);
    } else if p.RemoveRead? || p.RemoveReread? || p.RemoveWrite? {
      RemoveKeeps(w, t);
    } else if !p.Idle? {
      ReadKeeps(w, t);
    }
  }

  lemma FailKeeps(w: World, t: nat, id: string)
    requires Inv(w)
    ensures Inv(Do(w, Fail(t, id)))
  {
    assert ProcessOk(w, At(w, t));
    hide Inv;
    BecomeKeeps(w, t, Failed(At(w, t), id));
  }

  lemma UpdatePutKeeps(w: World, t: nat)
    requires Inv(w) && At(w, t).UpdatePut?
    ensures Inv(Advance(w, t))
  {
    hide Collection, LookupPath, NewResource, SerializeEndpoint, Kept, PathOk;
    var p := At(w, t);
    assert ProcessOk(w, p);
    var id := p.s.id.value;
    assert id in map[id := p.collection] && p.collection == Collection(w.inserted[id].filter);
    assert Holding(p, id);
    BecomeKeeps(w, t, Idle);
    forall u ensures !Inserting(At(Become(w, t, Idle), u), id) {
      assert u != t ==> At(Become(w, t, Idle), u) == At(w, u);
    }
    OneResourceKeeps(Become(w, t, Idle), id, w.reg[LookupPath(p.collection, id) := UpdatedResource(p.held, p.s)]);
  }

  lemma DeleteKeeps(w: World, t: nat)
    requires Inv(w) && At(w, t).RemoveDelete?
    ensures Inv(Advance(w, t))
  {
    hide Collection, LookupPath, NewResource, SerializeEndpoint, Kept, PathOk;
    var p := At(w, t);
    assert ProcessOk(w, p);
    var path := LookupPath(p.collection, p.id);
    assert p.id in map[p.id := p.collection] && p.collection == Collection(w.inserted[p.id].filter);
    BecomeKeeps(w, t, Idle);
    if path in w.reg {
      BecomeKeeps(w, t, RemoveReread(p.id));
      var w1 := Become(w, t, RemoveReread(p.id));
      OneResourceKeeps(w1, p.id, w.reg - {path});
      var w2 := w1.(reg := w.reg - {path});
      LogKeeps(w2, Deleted(p.id));
    }
  }

  lemma StepKeeps(w: World, step: Step)
    requires Inv(w)
    ensures Inv(Do(w, step))
  {
    hide Inv, Start, Advance, Failed;
    match step
    case Begin(t, call) => if At(w, t) == Idle { BeginKeeps(w, t, call); }
    case Go(t) => AdvanceKeeps(w, t);
    case Pick(t, id) => PickKeeps(w, t, id);
    case Fail(t, id) => FailKeeps(w, t, id);
  }

  lemma PickKeeps(w: World, t: nat, id: string)
    requires Inv(w)
    ensures Inv(Do(w, Pick(t, id)))
  {
    hide Inv, Collection, LookupPath, ReadFor;
    var p := At(w, t);
    if p.Scanning? && id in p.left && id in p.snapshot {
      assert ProcessOk(w, p) by { ProcessIsOk(w, t); }
      ReadForIsOwn(w, id, p.snapshot[id]);
      BecomeKeeps(w, t, Scanning(p.snapshot, p.left - {id}, p.found + ReadFor(w, id, p.snapshot[id])));
    }
  }

  lemma ProcessIsOk(w: World, t: nat)
    requires Inv(w)
    ensures ProcessOk(w, At(w, t))
  {
  }

  /** In every interleaving: whatever is returned for an id is the subscriber inserted with that id, and every entry
      in the index and in every copy of it names that subscriber's own collection. */
  lemma {:induction false} RunKeeps(w: World, steps: seq<Step>)
    requires Inv(w)
    ensures Inv(Run(w, steps))
    decreases |steps|
  {
    if steps != [] {
      StepKeeps(w, steps[0]);
      RunKeeps(Do(w, steps[0]), steps[1..]);
    }
  }
}
