/** The subscriber structure (src/subscribers/savan_subscriber.c) and the optional values it is made of. */
module Options {
  /** A C pointer that may be NULL. */
  datatype Option<+T> = None | Some(value: T) {
    function GetOr(default: T): T {
      match this
      case Some(v) => v
      case None => default
    }

    predicate IsFailure() {
      None?
    }

    function PropagateFailure<U>(): Option<U>
      requires None?
    {
      None
    }

    function Extract(): T
      requires Some?
    {
      value
    }

    /** This value when it is there, the other one when it is not. */
    function OrElse(other: Option<T>): Option<T> {
      if Some? then this else other
    }
  }
}

module Subscribers {
  import opened Options

  /** An Axis2 endpoint reference: it may exist and still have no address. */
  datatype EndpointRef = EndpointRef(address: Option<string>)

  function Address(e: Option<EndpointRef>): Option<string> {
    if e.Some? then e.value.address else None
  }

  /** The value of a subscriber at one moment: what is copied into and out of a store. */
  datatype Record = Record(
    id: Option<string>,
    endTo: Option<EndpointRef>,
    notifyTo: Option<EndpointRef>,
    deliveryMode: Option<string>,
    expires: Option<string>,
    filter: Option<string>,
    filterDialect: Option<string>,
    renewed: bool)

  const BLANK := Record(None, None, None, None, None, None, None, false)

  /** The subscriber object that setters fill in; its setters are plain field updates here. */
  class Subscriber {
    var id: Option<string>
    var endTo: Option<EndpointRef>
    var notifyTo: Option<EndpointRef>
    var deliveryMode: Option<string>
    var expires: Option<string>
    var filter: Option<string>
    var filterDialect: Option<string>
    var renewed: bool

    function Value(): Record
      reads this
    {
      Record(id, endTo, notifyTo, deliveryMode, expires, filter, filterDialect, renewed)
    }

    constructor ()
      ensures Value() == BLANK
    {
      id, endTo, notifyTo, deliveryMode := None, None, None, None;
      expires, filter, filterDialect, renewed := None, None, None, false;
    }

    /** An object holding the given value: how a store hands a subscriber to its caller. */
    constructor Of(r: Record)
      ensures Value() == r
    {
      id, endTo, notifyTo, deliveryMode := r.id, r.endTo, r.notifyTo, r.deliveryMode;
      expires, filter, filterDialect, renewed := r.expires, r.filter, r.filterDialect, r.renewed;
    }
  }

  /** The values of a list of subscriber objects. */
  function Records(list: seq<Subscriber>): seq<Record>
    reads list
  {
    seq(|list|, i requires 0 <= i < |list| reads list => list[i].Value())
  }
}
