/** What each call of the registry manager does to the registry, and the store those calls implement. */
module RegistryStore {
  import opened Options
  import opened Subscribers
  import opened Xml
  import opened Stores
  import opened RegistryPaths

  /** Description, media type and author are constants of the manager and are left out. */
  datatype Resource = Resource(content: Option<Node>, properties: map<string, string>)

  type Resources = map<string, Resource>

  // ---- Resources --------------------------------------------------------------------------------------------

  /** axutil_hash_set: a NULL value takes the key out. */
  function HashSet(m: map<string, string>, key: string, value: Option<string>): map<string, string> {
    if value.Some? then m[key := value.value] else m - {key}
  }

  function Property(m: map<string, string>, key: string): Option<string> {
    if key in m then Some(m[key]) else None
  }

  function SerializeEndpoint(s: Record): Node {
    var address := Node(QName(Some(SYNAPSE), "address"), map["uri" := Address(s.notifyTo)], None, []);
    var endpoint := Element(SYNAPSE, "endpoint", None, [address]);
    Node(QName(None, "subscription"), map[], None, [endpoint])
  }

  /** The part of the properties that insert and update set alike. */
  function CommonProperties(m: map<string, string>, s: Record): map<string, string> {
    var m1 := HashSet(HashSet(m, "staticFlag", Some("false")), "filterValue", s.filter);
    var m2 := if Address(s.endTo).Some? then HashSet(m1, "subManagerURI", Address(s.endTo)) else m1;
    if s.filterDialect.Some? then HashSet(m2, "filterDialect", s.filterDialect) else m2
  }

  function NewResource(s: Record): Resource {
    Resource(Some(SerializeEndpoint(s)), CommonProperties(map["expires" := s.expires.GetOr("*")], s))
  }

  function UpdatedResource(res: Resource, s: Record): Resource {
    var m := if s.expires.Some? then HashSet(res.properties, "expires", s.expires) else res.properties;
    res.(properties := CommonProperties(m, s))
  }

  /** The subscriber described by a resource; its id is not part of the resource. */
  function ExtractSubscriber(res: Resource): Option<Record> {
    var endpoint := Child(res.content, SYNAPSE, "endpoint");
    var address := Attribute(Child(endpoint, SYNAPSE, "address"), "uri");
    if address.None? then None
    else
      Some(BLANK.(notifyTo := Some(EndpointRef(address)),
           expires := Property(res.properties, "expires"),
           filter := Property(res.properties, "filterValue"),
           filterDialect := Property(res.properties, "filterDialect")))
  }

  lemma ExtractNew(s: Record)
    ensures ExtractSubscriber(NewResource(s)) ==
            if Address(s.notifyTo).Some? then Some(Kept(Registry, s).(id := None)) else None
  {
    assert Child(Some(SerializeEndpoint(s)), SYNAPSE, "endpoint") == Some(SerializeEndpoint(s).children[0]);
    assert s.notifyTo.Some? && Address(s.notifyTo).Some? ==> Reference(s.notifyTo) == s.notifyTo;
  }

  /** A resource with the document of some subscriber is read whatever its properties are, exactly if there is an
      address; each of the three fields comes from its own property, and may be missing. */
  lemma AnyPropertiesAreRead(s: Record, m: map<string, string>)
    ensures var r := ExtractSubscriber(Resource(Some(SerializeEndpoint(s)), m));
            && (r.Some? <==> Address(s.notifyTo).Some?)
            && (r.Some? ==>
                  && r.value.expires == (if "expires" in m then Some(m["expires"]) else None)
                  && r.value.filter == (if "filterValue" in m then Some(m["filterValue"]) else None)
                  && r.value.filterDialect == (if "filterDialect" in m then Some(m["filterDialect"]) else None)
                  && r.value.endTo == None)
  {
  }

  /** The document of a resource holds the address where the reader looks for it. */
  lemma EndpointDocument(s: Record)
    ensures var endpoint := Child(Some(SerializeEndpoint(s)), SYNAPSE, "endpoint");
            Attribute(Child(endpoint, SYNAPSE, "address"), "uri")
              == if s.notifyTo.Some? then s.notifyTo.value.address else None
  {
  }

  lemma ExtractUpdated(res: Resource, s: Record)
    ensures ExtractSubscriber(UpdatedResource(res, s)).Some? <==> ExtractSubscriber(res).Some?
    ensures ExtractSubscriber(res).Some? ==>
              ExtractSubscriber(UpdatedResource(res, s)).value == Merged(Registry, ExtractSubscriber(res).value, s)
  {
  }

  /** The properties of a new resource, one by one; nothing else is in the table. */
  lemma NewProperties(s: Record)
    ensures var m := NewResource(s).properties;
            && Property(m, "expires") == Some(s.expires.GetOr("*")) && Property(m, "staticFlag") == Some("false")
            && Property(m, "filterValue") == s.filter && Property(m, "filterDialect") == s.filterDialect
            && Property(m, "subManagerURI") == (if s.endTo.Some? then s.endTo.value.address else None)
            && m.Keys <= {"expires", "staticFlag", "filterValue", "filterDialect", "subManagerURI"}
  {
  }

  /** An update leaves the content, sets the filter, and of the other properties those that it gives. */
  lemma UpdatedProperties(res: Resource, s: Record)
    ensures var res' := UpdatedResource(res, s);
            && res'.content == res.content
            && Property(res'.properties, "expires") == s.expires.OrElse(Property(res.properties, "expires"))
            && Property(res'.properties, "staticFlag") == Some("false")
            && Property(res'.properties, "filterValue") == s.filter
            && Property(res'.properties, "filterDialect")
                 == s.filterDialect.OrElse(Property(res.properties, "filterDialect"))
            && Property(res'.properties, "subManagerURI")
                 == Address(s.endTo).OrElse(Property(res.properties, "subManagerURI"))
            && forall key :: key !in {"expires", "staticFlag", "filterValue", "filterDialect", "subManagerURI"} ==>
                 Property(res'.properties, key) == Property(res.properties, key)
  {
  }

  // ---- Single registry calls --------------------------------------------------------------------------------

  function Index(reg: Resources): map<string, string> {
    if TOPIC_INDEX in reg then reg[TOPIC_INDEX].properties else map[]
  }

  function WriteIndex(reg: Resources, entries: map<string, string>): Resources {
    reg[TOPIC_INDEX := Resource(None, entries)]
  }

  function PutSubscription(reg: Resources, s: Record): Resources
    requires s.id.Some?
  {
    reg[InsertPath(s.filter, s.id.value) := NewResource(s)]
  }

  function WithEntry(entries: map<string, string>, s: Record): map<string, string>
    requires s.id.Some?
  {
    entries[s.id.value := Collection(s.filter)]
  }

  /** The path an id is looked up at, through the index. */
  function PathOf(reg: Resources, id: string): Option<string> {
    if id in Index(reg) then Some(LookupPath(Index(reg)[id], id)) else None
  }

  /** Whether the index leads from the id to a resource. */
  predicate Present(reg: Resources, id: string) {
    PathOf(reg, id).Some? && PathOf(reg, id).value in reg
  }

  function Located(reg: Resources, id: string): Option<Record> {
    if !Present(reg, id) then None
    else
      var r := ExtractSubscriber(reg[PathOf(reg, id).value]);
      if r.Some? then Some(r.value.(id := Some(id))) else None
  }

  // ---- Operations, as sequences of writes -------------------------------------------------------------------

  datatype Op = InsertOp(s: Record) | UpdateOp(s: Record) | RemoveOp(id: string)

  predicate HasId(op: Op) {
    !op.RemoveOp? ==> op.s.id.Some?
  }

  /** The ids of inserted and updated subscribers are single path segments, as minted ids are. */
  predicate WellFormed(op: Op) {
    HasId(op) && (!op.RemoveOp? ==> SlashFree(op.s.id.value))
  }

  /** The registry after the first `writes` writes of an operation; two writes complete any operation. */
  function After(reg: Resources, op: Op, writes: nat): Resources
    requires HasId(op)
  {
    if writes == 0 then reg else
    match op
    case InsertOp(s) =>
      var reg1 := PutSubscription(reg, s);
      if TOPIC_INDEX !in reg1 || writes == 1 then reg1 else WriteIndex(reg1, WithEntry(Index(reg1), s))
    case UpdateOp(s) =>
      if Present(reg, s.id.value) then
        var path := PathOf(reg, s.id.value).value;
        reg[path := UpdatedResource(reg[path], s)]
      else reg
    case RemoveOp(id) =>
      if !Present(reg, id) then reg else
      var reg1 := reg - {PathOf(reg, id).value};
      if TOPIC_INDEX !in reg1 || writes == 1 then reg1 else WriteIndex(reg1, Index(reg1) - {id})
  }

  function Done(reg: Resources, op: Op): Resources
    requires HasId(op)
  {
    After(reg, op, 2)
  }

  /** The status a completed operation returns. */
  function StatusOf(reg: Resources, op: Op): Status
    requires HasId(op)
  {
    match op
    case InsertOp(s) => if TOPIC_INDEX in PutSubscription(reg, s) then Success else Failure
    case UpdateOp(s) => if Present(reg, s.id.value) then Success else Failure
    case RemoveOp(id) => if Present(reg, id) && TOPIC_INDEX in reg - {PathOf(reg, id).value} then Success else Failure
  }

  /** The registry after an operation whose writes may fail. The first write of a remove is its delete, whose failure
      ends the operation; the status of a put is ignored. */
  function Landed(reg: Resources, op: Op, first: bool, second: bool): Resources
    requires HasId(op)
  {
    match op
    case InsertOp(s) =>
      var reg1 := if first then PutSubscription(reg, s) else reg;
      if TOPIC_INDEX !in reg1 || !second then reg1 else WriteIndex(reg1, WithEntry(Index(reg1), s))
    case UpdateOp(_) => if first then Done(reg, op) else reg
    case RemoveOp(_) => if !first then reg else After(reg, op, if second then 2 else 1)
  }

  /** The status that is reported then: whether a put worked does not matter. */
  function Reported(reg: Resources, op: Op, first: bool): Status
    requires HasId(op)
  {
    match op
    case InsertOp(s) => if TOPIC_INDEX in (if first then PutSubscription(reg, s) else reg) then Success else Failure
    case UpdateOp(s) => StatusOf(reg, op)
    case RemoveOp(id) => if first then StatusOf(reg, op) else Failure
  }

  /** The operation on the store that is implemented. */
  function OnStore(m: Store, op: Op): Store
    requires HasId(op)
  {
    match op
    case InsertOp(s) => Insert(Registry, m, s)
    case UpdateOp(s) => Update(Registry, m, s)
    case RemoveOp(id) => Remove(m, id)
  }

  // ---- The store a registry represents ----------------------------------------------------------------------

  function StoreOf(reg: Resources): Store {
    map id | id in Index(reg) && Located(reg, id).Some? :: Located(reg, id).value
  }

  ghost predicate IsCollection(c: string) {
    exists f :: c == Collection(f)
  }

  /** Index entries name collections, and nothing else has been put directly below "//". */
  ghost predicate Valid(reg: Resources) {
    && TOPIC_INDEX in reg
    && (forall id :: id in Index(reg) ==> SlashFree(id) && IsCollection(Index(reg)[id]))
    && (forall id :: SlashFree(id) ==> LookupPath(SEP, id) !in reg)
  }

  lemma EmptyIsValid()
    ensures Valid(map[TOPIC_INDEX := Resource(None, map[])])
    ensures StoreOf(map[TOPIC_INDEX := Resource(None, map[])]) == map[]
  {
    forall id | SlashFree(id) ensures LookupPath(SEP, id) != TOPIC_INDEX {
      NeverTheIndex(None, id);
    }
  }

  /** Lookup paths of different ids never meet, nor do they meet the index. */
  lemma Apart(c: string, id: string, d: string, other: string)
    requires SlashFree(id) && SlashFree(other) && IsCollection(c)
    ensures LookupPath(c, id) != TOPIC_INDEX
    ensures LookupPath(c, id) == LookupPath(d, other) ==> c == d && id == other
  {
    var f :| c == Collection(f);
    NeverTheIndex(f, id);
    if LookupPath(c, id) == LookupPath(d, other) {
      SplitsOnce(c, id, d, other);
    }
  }

  /** The path an insert writes is its own lookup path, or "/", which is nobody's lookup path. */
  lemma InsertPathIsOwn(filter: Option<string>, id: string, c: string, other: string)
    requires SlashFree(id) && SlashFree(other) && IsCollection(c)
    ensures IsCollection(Collection(filter)) && InsertPath(filter, id) != TOPIC_INDEX
    ensures filter.Some? ==> InsertPath(filter, id) == LookupPath(Collection(filter), id)
    ensures LookupPath(c, other) == InsertPath(filter, id) ==> filter.Some? && other == id && c == Collection(filter)
  {
    var f :| c == Collection(f);
    NeverTheIndex(filter, id);
    assert |LookupPath(c, other)| > 1;
    if filter.Some? {
      Apart(c, other, Collection(filter), id);
    }
  }

  /** Nothing is put below "//", which is where a subscription with a NULL filter is looked up. */
  lemma NothingBelowRoot(id: string, filter: Option<string>, other: string)
    requires SlashFree(id) && SlashFree(other)
    ensures LookupPath(Collection(None), id) != InsertPath(filter, other)
    ensures LookupPath(SEP, id) == LookupPath(Collection(None), id)
  {
    if filter.Some? && LookupPath(SEP, id) == InsertPath(filter, other) {
      SplitsOnce(SEP, id, Collection(filter), other);
    }
  }

  lemma PutKeepsValid(reg: Resources, s: Record)
    requires Valid(reg) && s.id.Some? && SlashFree(s.id.value)
    ensures Valid(PutSubscription(reg, s)) && Index(PutSubscription(reg, s)) == Index(reg)
    ensures forall id :: id in Index(reg) && id != s.id.value ==>
        Located(PutSubscription(reg, s), id) == Located(reg, id)
  {
    hide Collection, InsertPath, LookupPath, ExtractSubscriber, NewResource, UpdatedResource;
    forall id | SlashFree(id) ensures LookupPath(SEP, id) !in PutSubscription(reg, s) {
      NothingBelowRoot(id, s.filter, s.id.value);
    }
    assert IsCollection(Collection(s.filter));
    InsertPathIsOwn(s.filter, s.id.value, Collection(s.filter), s.id.value);
    forall id | id in Index(reg) && id != s.id.value
      ensures Located(PutSubscription(reg, s), id) == Located(reg, id)
    {
      InsertPathIsOwn(s.filter, s.id.value, Index(reg)[id], id);
    }
  }

  lemma WriteKeepsValid(reg: Resources, entries: map<string, string>)
    requires Valid(reg)
    requires forall id :: id in entries ==> SlashFree(id) && IsCollection(entries[id])
    ensures Valid(WriteIndex(reg, entries)) && Index(WriteIndex(reg, entries)) == entries
    ensures forall id :: id in entries && id in Index(reg) && entries[id] == Index(reg)[id] ==>
                           Located(WriteIndex(reg, entries), id) == Located(reg, id)
  {
    hide Collection, InsertPath, LookupPath, ExtractSubscriber, NewResource, UpdatedResource;
    forall id | id in entries
      ensures LookupPath(entries[id], id) != TOPIC_INDEX
    {
      Apart(entries[id], id, entries[id], id);
    }
  }

  lemma LocatedAfterInsert(reg: Resources, s: Record)
    requires Valid(reg) && WellFormed(InsertOp(s))
    ensures Located(Done(reg, InsertOp(s)), s.id.value) == if Storable(Registry, s) then Some(Kept(Registry, s))
        else None
  {
    hide Collection, InsertPath, LookupPath, ExtractSubscriber, NewResource;
    var reg2 := Done(reg, InsertOp(s));
    var path := LookupPath(Collection(s.filter), s.id.value);
    assert IsCollection(Collection(s.filter));
    InsertPathIsOwn(s.filter, s.id.value, Collection(s.filter), s.id.value);
    Apart(Collection(s.filter), s.id.value, Collection(s.filter), s.id.value);
    NothingBelowRoot(s.id.value, s.filter, s.id.value);
    ExtractNew(s);
    assert s.filter.None? ==> path !in reg2;
    assert s.filter.Some? ==> reg2[path] == NewResource(s);
  }

  /** A completed insert is the store's insert: the subscriber reads back exactly when it has a filter and an
      address, and no other id is touched. */
  lemma InsertRefines(reg: Resources, s: Record)
    requires Valid(reg) && WellFormed(InsertOp(s))
    ensures Valid(Done(reg, InsertOp(s)))
    ensures StoreOf(Done(reg, InsertOp(s))) == Insert(Registry, StoreOf(reg), s)
    ensures Located(Done(reg, InsertOp(s)), s.id.value) == if Storable(Registry, s) then Some(Kept(Registry, s))
        else None
  {
    hide Collection, InsertPath, LookupPath, ExtractSubscriber, NewResource, UpdatedResource;
    var id := s.id.value;
    var reg1 := PutSubscription(reg, s);
    var entries := WithEntry(Index(reg1), s);
    var reg2 := WriteIndex(reg1, entries);
    assert IsCollection(Collection(s.filter));
    PutKeepsValid(reg, s);
    WriteKeepsValid(reg1, entries);
    LocatedAfterInsert(reg, s);
    assert reg2 == Done(reg, InsertOp(s));
    hide Collection, After, Located, WriteIndex, PutSubscription, Kept, Storable, Valid;
    StoreWithOneMore(reg, reg2, s);
  }

  lemma StoreWithOneMore(reg: Resources, reg2: Resources, s: Record)
    requires s.id.Some? && Index(reg2) == Index(reg)[s.id.value := Collection(s.filter)]
    requires forall id :: id in Index(reg) && id != s.id.value ==> Located(reg2, id) == Located(reg, id)
    requires Located(reg2, s.id.value) == if Storable(Registry, s) then Some(Kept(Registry, s)) else None
    ensures StoreOf(reg2) == Insert(Registry, StoreOf(reg), s)
  {
    hide Collection, Located, Index, Kept, Storable;
  }

  lemma UpdateRefines(reg: Resources, s: Record)
    requires Valid(reg) && WellFormed(UpdateOp(s))
    ensures Valid(Done(reg, UpdateOp(s))) && Index(Done(reg, UpdateOp(s))) == Index(reg)
    ensures StoreOf(Done(reg, UpdateOp(s))) == Update(Registry, StoreOf(reg), s)
  {
    hide Collection, InsertPath, LookupPath, ExtractSubscriber, NewResource, UpdatedResource;
    var id := s.id.value;
    if Present(reg, id) {
      var reg1 := Done(reg, UpdateOp(s));
      var c := Index(reg)[id];
      Apart(c, id, c, id);
      ExtractUpdated(reg[LookupPath(c, id)], s);
      var f :| c == Collection(f);
      forall other | other in Index(reg) && other != id
        ensures Located(reg1, other) == Located(reg, other)
      {
        Apart(Index(reg)[other], other, c, id);
      }
      assert StoreOf(reg1) == Update(Registry, StoreOf(reg), s);
    }
  }

  lemma RemoveRefines(reg: Resources, id: string)
    requires Valid(reg)
    ensures Valid(Done(reg, RemoveOp(id))) && Valid(After(reg, RemoveOp(id), 1))
    ensures StoreOf(Done(reg, RemoveOp(id))) == Remove(StoreOf(reg), id)
    ensures StoreOf(After(reg, RemoveOp(id), 1)) == Remove(StoreOf(reg), id)
    ensures Present(reg, id) ==> Index(After(reg, RemoveOp(id), 1)) == Index(reg)
                                 && Index(Done(reg, RemoveOp(id))) == Index(reg) - {id}
  {
    hide Collection, InsertPath, LookupPath, ExtractSubscriber, NewResource, UpdatedResource;
    if Present(reg, id) {
      var c := Index(reg)[id];
      var path := LookupPath(c, id);
      Apart(c, id, c, id);
      var reg1 := reg - {path};
      forall other | other in Index(reg)
        ensures Located(reg1, other) == if other == id then None else Located(reg, other)
      {
        Apart(Index(reg)[other], other, c, id);
      }
      assert StoreOf(reg1) == Remove(StoreOf(reg), id);
      WriteKeepsValid(reg1, Index(reg1) - {id});
      assert StoreOf(Done(reg, RemoveOp(id))) == Remove(StoreOf(reg), id);
    }
  }

  /** Every completed operation does to the represented store what the store's own operation does. */
  lemma OperationRefines(reg: Resources, op: Op)
    requires Valid(reg) && WellFormed(op)
    ensures Valid(Done(reg, op))
    ensures StoreOf(Done(reg, op)) == OnStore(StoreOf(reg), op)
  {
    match op
    case InsertOp(s) => InsertRefines(reg, s);
    case UpdateOp(s) => UpdateRefines(reg, s);
    case RemoveOp(id) => RemoveRefines(reg, id);
  }

  /** What is reported: an insert is a success whatever its puts do, an update if its id leads to a resource, and a
      remove if its id leads to a resource and the delete works; the puts behind them do not matter. */
  lemma ReportedExactly(reg: Resources, op: Op, first: bool)
    requires Valid(reg) && WellFormed(op)
    ensures Reported(reg, op, first) == Success <==>
            match op
            case InsertOp(_) => true
            case UpdateOp(s) =>
              s.id.value in Index(reg) && LookupPath(Index(reg)[s.id.value], s.id.value) in reg
            case RemoveOp(id) => first && id in Index(reg) && LookupPath(Index(reg)[id], id) in reg
  {
    hide LookupPath, InsertPath, NewResource, Collection;
    if op.RemoveOp? && Present(reg, op.id) {
      Apart(Index(reg)[op.id], op.id, Index(reg)[op.id], op.id);
    }
  }

  function RunOps(reg: Resources, ops: seq<Op>): Resources
    requires forall i :: 0 <= i < |ops| ==> WellFormed(ops[i])
    decreases |ops|
  {
    if ops == [] then reg else assert WellFormed(ops[0]); RunOps(Done(reg, ops[0]), ops[1..])
  }

  function RunOnStore(m: Store, ops: seq<Op>): Store
    requires forall i :: 0 <= i < |ops| ==> WellFormed(ops[i])
    decreases |ops|
  {
    if ops == [] then m else assert WellFormed(ops[0]); RunOnStore(OnStore(m, ops[0]), ops[1..])
  }

  /** Any run of any operations on any valid registry implements the same run on the store. */
  lemma {:induction false} RunRefines(reg: Resources, ops: seq<Op>)
    requires Valid(reg)
    requires forall i :: 0 <= i < |ops| ==> WellFormed(ops[i])
    ensures Valid(RunOps(reg, ops)) && StoreOf(RunOps(reg, ops)) == RunOnStore(StoreOf(reg), ops)
    decreases |ops|
  {
    if ops != [] {
      OperationRefines(reg, ops[0]);
      RunRefines(Done(reg, ops[0]), ops[1..]);
    }
  }
}
