/** Both managers are the manager that the server relies on (`Server.SubsMgr`): every call of either goes as one of the
    three outcomes, and then does to the store what the server's manager does. */
module SqliteAsSubsMgr {
  import opened Options
  import opened Subscribers
  import opened Stores
  import opened Requests
  import opened SqlStatements
  import opened SqlTable
  import opened SqliteCallbacks
  import opened SqliteManager

  method Insert(mgr: Manager, s: Subscriber, connected: bool, stepped: bool)
    returns (status: Status, ghost o: Outcome)
    requires mgr.Valid() && s.id.Some?
    modifies mgr
    ensures mgr.Valid() && InsertMeets(Backend.Sqlite, old(mgr.Store()), mgr.Store(), s.Value(), o, status)
    ensures o == if connected && stepped then Works else Fails
  {
    o := if connected && stepped then Works else Fails;
    status := mgr.Insert(s, connected, stepped);
  }

  method Update(mgr: Manager, s: Subscriber, connected: bool, stepped: bool)
    returns (status: Status, ghost o: Outcome)
    requires mgr.Valid() && s.id.Some?
    modifies mgr
    ensures mgr.Valid() && UpdateMeets(Backend.Sqlite, old(mgr.Store()), mgr.Store(), s.Value(), o, status)
    ensures o == if connected && stepped then Works else Fails
  {
    o := if connected && stepped then Works else Fails;
    status := mgr.Update(s, connected, stepped);
  }

  /** A removal whose COMMIT is lost is reported as a success. */
  method Remove(
    mgr: Manager, id: string, connected: bool, begin: Executions, delete: Executions, commit: Executions)
    returns (ghost o: Outcome)
    requires mgr.Valid()
    requires Last(delete).code == Ok ==>
        Parse(RemoveText(id)).Some? && Execute(Parse(RemoveText(id)).value, map[], mgr.rows).Some?
    modifies mgr
    ensures '\'' !in id ==> mgr.Valid() && RemoveMeets(old(mgr.Store()), mgr.Store(), id, o)
    ensures o == if !connected || Last(delete).code != Ok then Fails
                 else if Last(begin).code == Ok && Last(commit).code != Ok then Lost else Works
  {
    hide Parse, Execute, RemoveText, Last, Delete;
    var status := mgr.Remove(id, connected, begin, delete, commit);
    var kept := Last(begin).code == Ok && Last(commit).code != Ok;
    o := if status == Failure then Fails else if kept then Lost else Works;
  }

  method Retrieve(mgr: Manager, id: string, connected: bool, e: Executions)
    returns (s: Subscriber?, ghost o: Outcome)
    requires mgr.Valid() && Honest(e, SelectText(Some(("id", id))), mgr.rows)
    ensures '\'' !in id && (id in mgr.Store() || Fresh(e)) ==>
        RetrieveMeets(mgr.Store(), Some(id), o, if s == null then None else Some(s.Value()))
    ensures o == if connected && Last(e).code == Ok then Works else Fails
  {
    hide SelectText, Honest, Last, Fresh;
    o := if connected && Last(e).code == Ok then Works else Fails;
    s := mgr.Retrieve(id, connected, e);
  }
}

module RegistryAsSubsMgr {
  import opened Options
  import opened Subscribers
  import opened Stores
  import opened Requests
  import opened RegistryPaths
  import opened RegistryStore
  import opened RegistryRuns
  import opened RegistryManager

  /** A write that fails is not noticed. The id is a minted one: without slash, and new. */
  method Insert(mgr: Manager, s: Subscriber, first: bool, second: bool)
    returns (status: Status, ghost o: Outcome)
    requires s.id.Some? && SlashFree(s.id.value)
    requires Valid(mgr.registry.resources) && Fresh(mgr.registry.resources, s.id.value)
    modifies mgr.registry
    ensures Valid(mgr.registry.resources)
    ensures InsertMeets(Backend.Registry, old(StoreOf(mgr.registry.resources)), StoreOf(mgr.registry.resources),
        s.Value(), o, status)
    ensures o == if first && second then Works else Lost
  {
    InsertLands(mgr.registry.resources, s.Value(), first, second);
    hide StoreOf, Valid, Fresh, Landed, Reported, Stores.Insert;
    o := if first && second then Works else Lost;
    status := mgr.Insert(s, first, second);
  }

  lemma InsertLands(reg: Resources, s: Record, first: bool, second: bool)
    requires s.id.Some? && SlashFree(s.id.value) && Valid(reg) && Fresh(reg, s.id.value)
    ensures Reported(reg, InsertOp(s), first) == Success
    ensures var reg' := Landed(reg, InsertOp(s), first, second);
            && Valid(reg')
            && StoreOf(reg') == if first && second then Stores.Insert(Backend.Registry, StoreOf(reg), s)
                  else StoreOf(reg)
  {
    InsertRefines(reg, s);
    ResourceAlone(reg, s);
    EntryAlone(reg, s);
    hide PutSubscription, WriteIndex, WithEntry, Index, Valid, Fresh, StoreOf, Stores.Insert;
  }

  /** The resource of a new id without its entry. */
  lemma ResourceAlone(reg: Resources, s: Record)
    requires s.id.Some? && SlashFree(s.id.value) && Valid(reg) && Fresh(reg, s.id.value)
    ensures var reg' := PutSubscription(reg, s);
            Valid(reg') && StoreOf(reg') == StoreOf(reg) && TOPIC_INDEX in reg' && TOPIC_INDEX in reg
  {
    hide Collection, LookupPath, InsertPath, ExtractSubscriber, NewResource;
    PutKeepsValid(reg, s);
    hide PutSubscription, Located;
  }

  /** The entry of a new id without its resource. */
  lemma EntryAlone(reg: Resources, s: Record)
    requires s.id.Some? && SlashFree(s.id.value) && Valid(reg) && Fresh(reg, s.id.value)
    ensures var reg' := WriteIndex(reg, WithEntry(Index(reg), s)); Valid(reg') && StoreOf(reg') == StoreOf(reg)
  {
    hide Collection, LookupPath, ExtractSubscriber;
    assert IsCollection(Collection(s.filter));
    NeverTheIndex(s.filter, s.id.value);
    WriteKeepsValid(reg, WithEntry(Index(reg), s));
  }

  /** What the index leads to for the id has an address, as what was retrieved before has. */
  method Update(mgr: Manager, s: Subscriber, written: bool)
    returns (status: Status, ghost o: Outcome)
    requires s.id.Some? && SlashFree(s.id.value) && Valid(mgr.registry.resources)
    requires Present(mgr.registry.resources, s.id.value) ==> s.id.value in StoreOf(mgr.registry.resources)
    modifies mgr.registry, s`renewed
    ensures Valid(mgr.registry.resources)
    ensures UpdateMeets(Backend.Registry, old(StoreOf(mgr.registry.resources)), StoreOf(mgr.registry.resources),
                        old(s.Value()), o, status)
    ensures o == if written then Works else Lost
  {
    UpdateRefines(mgr.registry.resources, s.Value());
    assert s.id.value in StoreOf(mgr.registry.resources) ==> Present(mgr.registry.resources, s.id.value);
    hide StoreOf, Valid, Present, After, Stores.Update;
    o := if written then Works else Lost;
    status := mgr.Update(s, written);
  }

  method Remove(mgr: Manager, id: string, first: bool, second: bool) returns (ghost o: Outcome)
    requires Valid(mgr.registry.resources)
    modifies mgr.registry
    ensures Valid(mgr.registry.resources)
    ensures RemoveMeets(old(StoreOf(mgr.registry.resources)), StoreOf(mgr.registry.resources), id, o)
    ensures o == if first then Works else Fails
  {
    RemoveRefines(mgr.registry.resources, id);
    hide StoreOf, Valid, After, Reported;
    o := if first then Works else Fails;
    var _ := mgr.Remove(id, first, second);
  }

  method Retrieve(mgr: Manager, id: string) returns (s: Subscriber?)
    ensures RetrieveMeets(StoreOf(mgr.registry.resources), Some(id), Works, if s == null then None else Some(s.Value()))
  {
    hide StoreOf;
    s := mgr.Retrieve(id);
  }
}
