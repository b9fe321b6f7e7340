/** What a subscription store is to its callers: a map from ids to the records a retrieve answers.
    Two managers implement it; they differ in the fields they keep. */
module Stores {
  import opened Options
  import opened Subscribers

  datatype Backend = Sqlite | Registry

  type Store = map<string, Record>

  /** AXIS2_SUCCESS and AXIS2_FAILURE. */
  datatype Status = Success | Failure

  /** How a store call goes: it works; it fails, and changes and answers nothing; or it is lost, a write that has no
      effect and is reported as if it had (for a read that is a failure). */
  datatype Outcome = Works | Fails | Lost

  /** An endpoint reference rebuilt from a stored address. */
  function Reference(e: Option<EndpointRef>): Option<EndpointRef> {
    Some(EndpointRef(Address(e)))
  }

  /** Whether a subscriber can be read back once it is inserted: the registry needs a filter for its path and an
      address for the endpoint document. */
  predicate Storable(b: Backend, s: Record) {
    b.Registry? ==> s.filter.Some? && Address(s.notifyTo).Some?
  }

  /** The record a retrieve answers right after the subscriber was inserted. */
  function Kept(b: Backend, s: Record): Record {
    match b
    case Sqlite => s.(endTo := Reference(s.endTo), notifyTo := Reference(s.notifyTo), filterDialect := None)
    case Registry => Record(s.id, None, Reference(s.notifyTo), None, Some(s.expires.GetOr("*")), s.filter,
        s.filterDialect, false)
  }

  /** The record a retrieve answers after an update with s of a subscriber read as r. */
  function Merged(b: Backend, r: Record, s: Record): Record {
    match b
    case Sqlite =>
      r.(endTo := Some(EndpointRef(Address(s.endTo).OrElse(Address(r.endTo)))),
      notifyTo := Some(EndpointRef(Address(s.notifyTo).OrElse(Address(r.notifyTo)))),
      deliveryMode := s.deliveryMode.OrElse(r.deliveryMode),
      expires := s.expires.OrElse(r.expires),
      filter := s.filter.OrElse(r.filter),
      renewed := s.renewed)
    case Registry =>
      r.(expires := s.expires.OrElse(r.expires), filter := s.filter,
          filterDialect := s.filterDialect.OrElse(r.filterDialect))
  }

  /** SQLite refuses a second row with the same key; the registry overwrites, and forgets what it cannot read back. */
  function Insert(b: Backend, m: Store, s: Record): Store
    requires s.id.Some?
  {
    if b.Sqlite? then (if s.id.value in m then m else m[s.id.value := Kept(b, s)])
    else if Storable(b, s) then m[s.id.value := Kept(b, s)]
    else m - {s.id.value}
  }

  function Update(b: Backend, m: Store, s: Record): Store
    requires s.id.Some?
  {
    if s.id.value in m then m[s.id.value := Merged(b, m[s.id.value], s)] else m
  }

  function Remove(m: Store, id: string): Store {
    m - {id}
  }

  function Find(m: Store, id: string): Option<Record> {
    if id in m then Some(m[id]) else None
  }

  /** The subscribers with the given filter; all of them without one. */
  function Filtered(m: Store, filter: Option<string>): Store {
    if filter.None? then m else map id | id in m && m[id].filter == filter :: m[id]
  }

  /** Exactly the subscribers whose filter is the given one are listed for it, as they are stored. */
  lemma FilteredExactly(m: Store, filter: Option<string>, id: string)
    ensures Find(Filtered(m, filter), id)
         == if id in m && (filter.None? || m[id].filter == filter) then Some(m[id]) else None
  {
  }

  predicate Distinct(keys: seq<string>) {
    forall i, j :: 0 <= i < j < |keys| ==> keys[i] != keys[j]
  }

  /** The list holds the value of every key of the map once, in some order. */
  ghost predicate Enumerates<V>(list: seq<V>, m: map<string, V>) {
    exists keys: seq<string> :: EnumeratesBy(list, m, keys)
  }

  ghost predicate EnumeratesBy<V>(list: seq<V>, m: map<string, V>, keys: seq<string>) {
    && Distinct(keys)
    && (forall k :: k in m <==> k in keys)
    && |list| == |keys|
    && (forall i :: 0 <= i < |keys| ==> list[i] == m[keys[i]])
  }
}
