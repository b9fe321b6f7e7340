/** Subscribers as XML: what is written, what is read back, singly and in lists. */
module SubscriberXml {
  import opened Options
  import opened Subscribers
  import opened Stores
  import opened Xml

  const DIALECT := "Dialect"

  // ---- Reading ----------------------------------------------------------------------------------------------

  /** An endpoint reference with the text as its address, if there is a text; otherwise what was there. */
  function ReferenceTo(text: Option<string>, before: Option<EndpointRef>): Option<EndpointRef> {
    if text.Some? then Some(EndpointRef(text)) else before
  }

  function NotifyAddress(subscribe: Option<Node>): Option<string> {
    Text(Child(Child(Child(subscribe, EVENTING, "Delivery"), EVENTING, "NotifyTo"), ADDRESSING, "Address"))
  }

  /** The subscriber after its Subscribe element was read: a field that the element does not give is left alone. */
  function ReadSubscribe(subscribe: Option<Node>, s: Record): Record {
    var filter := Child(subscribe, EVENTING, "Filter");
    s.(endTo := ReferenceTo(Text(Child(subscribe, EVENTING, "EndTo")), s.endTo),
       notifyTo := ReferenceTo(NotifyAddress(subscribe), s.notifyTo),
       expires := Text(Child(subscribe, EVENTING, "Expires")).OrElse(s.expires),
       filterDialect := Attribute(filter, DIALECT).OrElse(s.filterDialect),
       filter := Text(filter).OrElse(s.filter))
  }

  method ProcessSubscriberNode(subscribe: Option<Node>, s: Subscriber)
    modifies s
    ensures s.Value() == ReadSubscribe(subscribe, old(s.Value()))
  {
    if subscribe.None? {
      return;
    }
    hide FirstChild;
    var endTo := Child(subscribe, EVENTING, "EndTo");
    if endTo.Some? && Text(endTo).Some? {
      s.endTo := Some(EndpointRef(Text(endTo)));
    }
    var delivery := Child(subscribe, EVENTING, "Delivery");
    if delivery.Some? {
      var notify := Child(delivery, EVENTING, "NotifyTo");
      if notify.Some? {
        var address := Child(notify, ADDRESSING, "Address");
        if Text(address).Some? {
          s.notifyTo := Some(EndpointRef(Text(address)));
        }
      }
    }
    var expires := Child(subscribe, EVENTING, "Expires");
    if expires.Some? && Text(expires).Some? {
      s.expires := Text(expires);
    }
    var filter := Child(subscribe, EVENTING, "Filter");
    if filter.Some? {
      var text, dialect := Text(filter), Attribute(filter, DIALECT);
      if dialect.Some? {
        s.filterDialect := dialect;
      }
      if text.Some? {
        s.filter := text;
      }
    }
  }

  /** The subscriber of a savan-specific Subscriber element. */
  function ReadSubscriber(n: Node): Record {
    var s := BLANK.(id := Text(Child(Some(n), SAVAN, "Identifier")));
    ReadSubscribe(Child(Some(n), EVENTING, "Subscribe"), s)
  }

  method ProcessSavanSpecificSubscriberNode(n: Node) returns (s: Subscriber)
    ensures fresh(s) && s.Value() == ReadSubscriber(n)
  {
    s := new Subscriber();
    s.id := Text(Child(Some(n), SAVAN, "Identifier"));
    var subscribe := Child(Some(n), EVENTING, "Subscribe");
    if subscribe.Some? {
      ProcessSubscriberNode(subscribe, s);
    }
  }

  /** axiom_element_get_children_with_qname. */
  function ChildrenNamed(children: seq<Node>, ns: string, local: string): seq<Node> {
    if children == [] then []
    else
      var first := if children[0].name == QName(Some(ns), local) then [children[0]] else [];
      first + ChildrenNamed(children[1..], ns, local)
  }

  /** The subscribers of a list element; None, not an empty list, if it has none. */
  function ReadList(n: Node): Option<seq<Record>> {
    var nodes := ChildrenNamed(n.children, SAVAN, "Subscriber");
    if nodes == [] then None else Some(ReadAll(nodes))
  }

  function ReadAll(nodes: seq<Node>): seq<Record> {
    seq(|nodes|, i requires 0 <= i < |nodes| => ReadSubscriber(nodes[i]))
  }

  method ProcessSubscriberListNode(n: Node) returns (list: Option<seq<Subscriber>>)
    ensures ReadList(n) == if list.None? then None else Some(Records(list.value))
  {
    var nodes := ChildrenNamed(n.children, SAVAN, "Subscriber");
    var found: seq<Subscriber> := [];
    var next := 0;
    while next < |nodes|
      invariant 0 <= next == |found| <= |nodes|
      invariant forall i :: 0 <= i < next ==> found[i].Value() == ReadSubscriber(nodes[i])
    {
      var s := ProcessSavanSpecificSubscriberNode(nodes[next]);
      found := found + [s];
      next := next + 1;
    }
    list := if nodes == [] then None else Some(found);
    assert ReadAll(nodes) == Records(found);
  }

  // ---- What is read from an element -------------------------------------------------------------------------

  /** An element with these children. */
  function SubscribeWith(children: seq<Node>): Option<Node> {
    Some(Element(EVENTING, "Subscribe", None, children))
  }

  predicate NoneCalled(children: seq<Node>, local: string) {
    forall i :: 0 <= i < |children| ==> children[i].name != QName(Some(EVENTING), local)
  }

  lemma {:induction false} NoneCalledIsFound(children: seq<Node>, local: string)
    requires NoneCalled(children, local)
    ensures FirstChild(children, EVENTING, local) == None
    decreases |children|
  {
    if children != [] {
      NoneCalledIsFound(children[1..], local);
    }
  }

  /** The first child with a name is found, whatever stands around it. */
  lemma FirstIsFound(before: seq<Node>, n: Node, after: seq<Node>, local: string)
    requires NoneCalled(before, local) && n.name == QName(Some(EVENTING), local)
    ensures FirstChild(before + [n] + after, EVENTING, local) == Some(n)
  {
    NoneCalledIsFound(before, local);
    FirstChildAppends(before + [n], after, EVENTING, local);
    FirstChildAppends(before, [n], EVENTING, local);
  }

  /** A field that the element does not give is left alone, each on its own; the id, the delivery mode and the renewed
      flag are never touched. */
  lemma OtherFieldsStay(children: seq<Node>, s: Record)
    ensures var r := ReadSubscribe(SubscribeWith(children), s);
            && r.id == s.id && r.deliveryMode == s.deliveryMode && r.renewed == s.renewed
            && (NoneCalled(children, "EndTo") ==> r.endTo == s.endTo)
            && (NoneCalled(children, "Delivery") ==> r.notifyTo == s.notifyTo)
            && (NoneCalled(children, "Expires") ==> r.expires == s.expires)
            && (NoneCalled(children, "Filter") ==> r.filter == s.filter && r.filterDialect == s.filterDialect)
    ensures ReadSubscribe(None, s) == s
  {
    forall local | NoneCalled(children, local) ensures FirstChild(children, EVENTING, local) == None {
      NoneCalledIsFound(children, local);
    }
    hide FirstChild, NoneCalled;
  }

  /** The text and the dialect of the first Filter element are read independently of each other. */
  lemma FilterIsRead(before: seq<Node>, text: Option<string>, dialect: Option<string>, after: seq<Node>, s: Record)
    requires NoneCalled(before, "Filter")
    ensures var n := Node(QName(Some(EVENTING), "Filter"), map[DIALECT := dialect], text, []);
            var r := ReadSubscribe(SubscribeWith(before + [n] + after), s);
            && r.filter == (if text.Some? then text else s.filter)
            && r.filterDialect == (if dialect.Some? then dialect else s.filterDialect)
  {
    var n := Node(QName(Some(EVENTING), "Filter"), map[DIALECT := dialect], text, []);
    FirstIsFound(before, n, after, "Filter");
    hide FirstChild;
  }

  /** The texts of the first EndTo and the first Expires element, and the address below the first Delivery. */
  lemma TextsAreRead(before: seq<Node>, text: string, after: seq<Node>, s: Record)
    ensures NoneCalled(before, "EndTo") ==>
              ReadSubscribe(SubscribeWith(before + [Element(EVENTING, "EndTo", Some(text), [])] + after), s).endTo
                == Some(EndpointRef(Some(text)))
    ensures NoneCalled(before, "Expires") ==>
              ReadSubscribe(SubscribeWith(before + [Element(EVENTING, "Expires", Some(text), [])] + after), s).expires
                == Some(text)
    ensures NoneCalled(before, "Delivery") ==>
              var address := Element(ADDRESSING, "Address", Some(text), []);
              var delivery := Element(EVENTING, "Delivery", None, [Element(EVENTING, "NotifyTo", None, [address])]);
              ReadSubscribe(SubscribeWith(before + [delivery] + after), s).notifyTo == Some(EndpointRef(Some(text)))
  {
    AddressIsDelivered(Some(text));
    if NoneCalled(before, "EndTo") {
      FirstIsFound(before, Element(EVENTING, "EndTo", Some(text), []), after, "EndTo");
    }
    if NoneCalled(before, "Expires") {
      FirstIsFound(before, Element(EVENTING, "Expires", Some(text), []), after, "Expires");
    }
    if NoneCalled(before, "Delivery") {
      FirstIsFound(before, DeliveryNode(Some(text)), after, "Delivery");
    }
    hide FirstChild, NoneCalled;
  }

  lemma {:induction false} ChildrenNamedAppends(a: seq<Node>, b: seq<Node>, ns: string, local: string)
    ensures ChildrenNamed(a + b, ns, local) == ChildrenNamed(a, ns, local) + ChildrenNamed(b, ns, local)
    decreases |a|
  {
    if a == [] {
      assert a + b == b;
    } else {
      assert (a + b)[1..] == a[1..] + b && (a + b)[0] == a[0];
      ChildrenNamedAppends(a[1..], b, ns, local);
      var first := if a[0].name == QName(Some(ns), local) then [a[0]] else [];
      var x, y := ChildrenNamed(a[1..], ns, local), ChildrenNamed(b, ns, local);
      assert first + (x + y) == (first + x) + y;
    }
  }

  /** Whatever other children a list has is not read as a subscriber. */
  lemma OtherChildrenAreNoSubscribers(a: seq<Node>, other: Node, b: seq<Node>)
    requires other.name != QName(Some(SAVAN), "Subscriber")
    ensures ReadList(Element(SAVAN, "Subscribers", None, a + [other] + b))
         == ReadList(Element(SAVAN, "Subscribers", None, a + b))
  {
    ChildrenNamedAppends(a + [other], b, SAVAN, "Subscriber");
    ChildrenNamedAppends(a, [other], SAVAN, "Subscriber");
    assert ChildrenNamed([other], SAVAN, "Subscriber") == [] by { assert [other][1..] == []; }
    var x, y := ChildrenNamed(a, SAVAN, "Subscriber"), ChildrenNamed(b, SAVAN, "Subscriber");
    assert x + [] + y == x + y;
    hide ChildrenNamed, ReadAll;
    ChildrenNamedAppends(a, b, SAVAN, "Subscriber");
  }

  // ---- Writing ----------------------------------------------------------------------------------------------

  /** An element with a text, if there is a text. */
  function Optional(local: string, text: Option<string>): seq<Node> {
    if text.Some? then [Element(EVENTING, local, text, [])] else []
  }

  function DeliveryNode(address: Option<string>): Node {
    Element(EVENTING, "Delivery", None,
        [Element(EVENTING, "NotifyTo", None, [Element(ADDRESSING, "Address", address, [])])])
  }

  function FilterNodes(s: Record): seq<Node> {
    if s.filter.Some? && s.filterDialect.Some?
    then [Node(QName(Some(EVENTING), "Filter"), map[DIALECT := s.filterDialect], s.filter, [])] else []
  }

  function SubscribeNode(s: Record): Node {
    Element(EVENTING, "Subscribe", None,
            Optional("EndTo", Address(s.endTo))
                + ([DeliveryNode(Address(s.notifyTo))] + (Optional("Expires", s.expires) + FilterNodes(s))))
  }

  /** The wrapper has a Filter element of its own, in Savan's namespace. */
  function SubscriberNode(s: Record): Node {
    Element(SAVAN, "Subscriber", None,
            [Element(SAVAN, "Identifier", s.id, []), Element(SAVAN, "Filter", s.filter, []), SubscribeNode(s)])
  }

  /** The endpoint reference of NotifyTo is read without a check for NULL. */
  method CreateSubscriberNode(s: Subscriber?) returns (n: Option<Node>)
    requires s != null ==> s.notifyTo.Some?
    ensures n == if s == null then None else Some(SubscribeNode(s.Value()))
  {
    if s == null {
      return None;
    }
    var endTo: Option<string> := None;
    if s.endTo.Some? {
      endTo := s.endTo.value.address;
    }
    var notify := s.notifyTo.value.address;
    var children := [];
    if endTo.Some? {
      children := children + [Element(EVENTING, "EndTo", endTo, [])];
    }
    var address := Element(ADDRESSING, "Address", notify, []);
    var notifyTo := Element(EVENTING, "NotifyTo", None, [address]);
    children := children + [Element(EVENTING, "Delivery", None, [notifyTo])];
    if s.expires.Some? {
      children := children + [Element(EVENTING, "Expires", s.expires, [])];
    }
    if s.filter.Some? && s.filterDialect.Some? {
      var filter := Element(EVENTING, "Filter", s.filter, []);
      children := children + [filter.(attributes := map[DIALECT := s.filterDialect])];
    }
    ghost var r := s.Value();
    assert children == Optional("EndTo", Address(r.endTo))
        + ([DeliveryNode(Address(r.notifyTo))] + (Optional("Expires", r.expires) + FilterNodes(r)));
    n := Some(Element(EVENTING, "Subscribe", None, children));
  }

  method CreateSavanSpecificSubscriberNode(s: Subscriber?) returns (n: Option<Node>)
    requires s != null ==> s.notifyTo.Some?
    ensures n == if s == null then None else Some(SubscriberNode(s.Value()))
  {
    if s == null {
      return None;
    }
    var children := [Element(SAVAN, "Identifier", s.id, [])];
    children := children + [Element(SAVAN, "Filter", s.filter, [])];
    var subscribe := CreateSubscriberNode(s);
    children := children + [subscribe.value];
    ghost var r := s.Value();
    assert children == [Element(SAVAN, "Identifier", r.id, []), Element(SAVAN, "Filter", r.filter, []),
        SubscribeNode(r)];
    n := Some(Element(SAVAN, "Subscriber", None, children));
  }

  /** The subscribers of a store that is listed; NULL entries are skipped. */
  function Listed(store: seq<Subscriber?>): seq<Record>
    reads set i | 0 <= i < |store| && store[i] != null :: store[i]
  {
    if store == [] then []
    else
      var last := store[|store| - 1];
      Listed(store[..|store| - 1]) + (if last == null then [] else [last.Value()])
  }

  function SubscriberNodes(list: seq<Record>): seq<Node> {
    seq(|list|, i requires 0 <= i < |list| => SubscriberNode(list[i]))
  }

  function ListNode(list: seq<Record>): Node {
    Element(SAVAN, "Subscribers", None, SubscriberNodes(list))
  }

  method GetSubscriberList(store: Option<seq<Subscriber?>>) returns (n: Option<Node>)
    requires forall i :: 0 <= i < |store.GetOr([])| ==> var s := store.value[i]; s != null ==> s.notifyTo.Some?
    ensures n == Some(ListNode(Listed(store.GetOr([]))))
  {
    var children := [];
    assert SubscriberNodes([]) == children;
    if store.Some? {
      var i := 0;
      while i < |store.value|
        invariant 0 <= i <= |store.value|
        invariant children == SubscriberNodes(Listed(store.value[..i]))
      {
        assert store.value[..i + 1][..i] == store.value[..i];
        if store.value[i] != null {
          var node := CreateSavanSpecificSubscriberNode(store.value[i]);
          children := children + [node.value];
          assert SubscriberNodes(Listed(store.value[..i]) + [store.value[i].Value()]) == children;
        }
        i := i + 1;
      }
      assert store.value[..i] == store.value;
    }
    n := Some(Element(SAVAN, "Subscribers", None, children));
  }

  // ---- Round trips ------------------------------------------------------------------------------------------

  lemma {:induction false} FirstChildAppends(a: seq<Node>, b: seq<Node>, ns: string, local: string)
    ensures FirstChild(a + b, ns, local) == FirstChild(a, ns, local).OrElse(FirstChild(b, ns, local))
    decreases |a|
  {
    if a == [] {
      assert a + b == b;
    } else {
      assert (a + b)[1..] == a[1..] + b;
      FirstChildAppends(a[1..], b, ns, local);
    }
  }

  /** A child with another name, wherever it stands, is never mistaken for the one that is looked up. */
  lemma OtherChildrenDoNotMatter(a: seq<Node>, other: Node, b: seq<Node>, ns: string, local: string)
    requires other.name != QName(Some(ns), local)
    ensures FirstChild(a + [other] + b, ns, local) == FirstChild(a + b, ns, local)
  {
    FirstChildAppends(a + [other], b, ns, local);
    FirstChildAppends(a, [other], ns, local);
    FirstChildAppends(a, b, ns, local);
  }

  function PairOnly(s: Record, field: Option<string>): Option<string> {
    if s.filter.Some? && s.filterDialect.Some? then field else None
  }

  lemma FindOptional(local: string, text: Option<string>, rest: seq<Node>, wanted: string)
    ensures FirstChild(Optional(local, text) + rest, EVENTING, wanted)
         == if local == wanted && text.Some? then Some(Element(EVENTING, local, text, []))
             else FirstChild(rest, EVENTING, wanted)
  {
    FirstChildAppends(Optional(local, text), rest, EVENTING, wanted);
  }

  lemma FindInSubscribe(s: Record, wanted: string)
    ensures Child(Some(SubscribeNode(s)), EVENTING, wanted) ==
            if wanted == "EndTo" && Address(s.endTo).Some? then Some(Element(EVENTING, "EndTo", Address(s.endTo), []))
            else if wanted == "Delivery" then Some(DeliveryNode(Address(s.notifyTo)))
            else if wanted == "Expires" && s.expires.Some? then Some(Element(EVENTING, "Expires", s.expires, []))
            else FirstChild(FilterNodes(s), EVENTING, wanted)
  {
    var rest := Optional("Expires", s.expires) + FilterNodes(s);
    FindOptional("EndTo", Address(s.endTo), [DeliveryNode(Address(s.notifyTo))] + rest, wanted);
    FirstChildAppends([DeliveryNode(Address(s.notifyTo))], rest, EVENTING, wanted);
    FindOptional("Expires", s.expires, FilterNodes(s), wanted);
    hide FilterNodes, Optional;
  }

  /** Reading the Subscribe element written for s into a subscriber: addresses, expiry, and the filter with its dialect
      arrive; a filter or a dialect without the other does not. */
  lemma SubscribeRoundTrip(s: Record, into: Record)
    ensures ReadSubscribe(Some(SubscribeNode(s)), into) ==
            into.(endTo := ReferenceTo(Address(s.endTo), into.endTo),
                notifyTo := ReferenceTo(Address(s.notifyTo), into.notifyTo),
                  expires := s.expires.OrElse(into.expires), filter := PairOnly(s, s.filter).OrElse(into.filter),
                  filterDialect := PairOnly(s, s.filterDialect).OrElse(into.filterDialect))
  {
    FindInSubscribe(s, "EndTo");
    FindInSubscribe(s, "Delivery");
    FindInSubscribe(s, "Expires");
    FindInSubscribe(s, "Filter");
    hide SubscribeNode;
    AddressIsDelivered(Address(s.notifyTo));
  }

  lemma AddressIsDelivered(address: Option<string>)
    ensures Text(Child(Child(Some(DeliveryNode(address)), EVENTING, "NotifyTo"), ADDRESSING, "Address")) == address
  {
  }

  /** What of a subscriber arrives when it is sent as XML. */
  function Sent(s: Record): Record {
    Record(s.id, ReferenceTo(Address(s.endTo), None), ReferenceTo(Address(s.notifyTo), None), None, s.expires,
           PairOnly(s, s.filter), PairOnly(s, s.filterDialect), false)
  }

  /** The id of a wrapper is the text of its own Identifier, whatever the Subscribe element in it holds. */
  lemma IdentifierIsRead(id: Option<string>, subscribe: Node, rest: seq<Node>)
    requires subscribe.name == QName(Some(EVENTING), "Subscribe")
    ensures var n := Element(SAVAN, "Subscriber", None, [Element(SAVAN, "Identifier", id, []), subscribe] + rest);
            ReadSubscriber(n) == ReadSubscribe(Some(subscribe), BLANK.(id := id))
  {
    var children := [Element(SAVAN, "Identifier", id, []), subscribe] + rest;
    hide ReadSubscribe;
    assert children[0] == Element(SAVAN, "Identifier", id, []);
    assert children[1..] == [subscribe] + rest && children[1..][0] == subscribe;
    assert FirstChild(children, EVENTING, "Subscribe") == FirstChild(children[1..], EVENTING, "Subscribe");
  }

  lemma SubscriberRoundTrip(s: Record)
    ensures ReadSubscriber(SubscriberNode(s)) == Sent(s)
  {
    SubscribeRoundTrip(s, BLANK.(id := s.id));
    var n := SubscriberNode(s);
    var wrapper := [Element(SAVAN, "Identifier", s.id, []), Element(SAVAN, "Filter", s.filter, [])];
    assert n.children == wrapper + [SubscribeNode(s)];
    FirstChildAppends(wrapper, [SubscribeNode(s)], EVENTING, "Subscribe");
    hide SubscribeNode, ReadSubscribe;
  }

  lemma {:induction false} AllAreNamed(nodes: seq<Node>, ns: string, local: string)
    requires forall i :: 0 <= i < |nodes| ==> nodes[i].name == QName(Some(ns), local)
    ensures ChildrenNamed(nodes, ns, local) == nodes
    decreases |nodes|
  {
    if nodes != [] {
      AllAreNamed(nodes[1..], ns, local);
      assert [nodes[0]] + nodes[1..] == nodes;
    }
  }

  /** Reading a written list gives back every subscriber, in order; only an empty list comes back as none. */
  lemma ListRoundTrip(list: seq<Record>)
    ensures ReadList(ListNode(list)) == if list == [] then None else Some(SentAll(list))
    ensures ListNode(list).name == QName(Some(SAVAN), "Subscribers")
  {
    var nodes := SubscriberNodes(list);
    AllAreNamed(nodes, SAVAN, "Subscriber");
    hide ReadSubscriber, Sent;
    forall i | 0 <= i < |list| ensures ReadSubscriber(nodes[i]) == Sent(list[i]) {
      SubscriberRoundTrip(list[i]);
    }
    assert ReadAll(nodes) == SentAll(list);
  }

  lemma {:induction false} ListedAppends(a: seq<Subscriber?>, b: seq<Subscriber?>)
    ensures Listed(a + b) == Listed(a) + Listed(b)
    decreases |b|
  {
    if b == [] {
      assert a + b == a;
    } else {
      assert (a + b)[..|a + b| - 1] == a + b[..|b| - 1];
      ListedAppends(a, b[..|b| - 1]);
    }
  }

  lemma ListedOne(s: Subscriber?)
    ensures Listed([s]) == if s == null then [] else [s.Value()]
  {
    assert Listed([s][..0]) == [];
  }

  function SentAll(list: seq<Record>): seq<Record> {
    seq(|list|, i requires 0 <= i < |list| => Sent(list[i]))
  }

  /** What is read back of a listed store: every subscriber that is there, in the order of the store, between those
      before and those after it; a NULL entry leaves nothing. */
  lemma StoreArrives(before: seq<Subscriber?>, s: Subscriber?, after: seq<Subscriber?>)
    ensures ReadList(ListNode(Listed([]))) == None
    ensures var one := if s == null then [] else [Sent(s.Value())];
            var list := SentAll(Listed(before)) + one + SentAll(Listed(after));
            ReadList(ListNode(Listed(before + [s] + after))) == if list == [] then None else Some(list)
  {
    ListedAppends(before + [s], after);
    ListedAppends(before, [s]);
    ListedOne(s);
    assert Listed([]) == [];
    hide Listed, ListNode, Sent, SentAll, ReadList;
    ListRoundTrip([]);
    ListRoundTrip(Listed(before + [s] + after));
    SentAllJoins(Listed(before), Listed([s]), Listed(after));
  }

  lemma SentAllJoins(a: seq<Record>, b: seq<Record>, c: seq<Record>)
    ensures SentAll(a + b + c) == SentAll(a) + SentAll(b) + SentAll(c)
    ensures SentAll(a + b + c) == [] <==> a + b + c == []
    ensures SentAll([]) == [] && (|b| == 1 ==> SentAll(b) == [Sent(b[0])])
  {
    hide Sent;
  }

  /** The whole way from a store behind the service to the caller. */
  method ListThroughService(store: Option<seq<Subscriber?>>) returns (list: Option<seq<Subscriber>>)
    requires forall i :: 0 <= i < |store.GetOr([])| ==> var s := store.value[i]; s != null ==> s.notifyTo.Some?
    ensures list.None? <==> forall i :: 0 <= i < |store.GetOr([])| ==> store.value[i] == null
    ensures list.Some? ==> Records(list.value) == SentAll(Listed(store.GetOr([])))
  {
    ListedNothing(store.GetOr([]));
    ListRoundTrip(Listed(store.GetOr([])));
    hide Listed, ListNode, ReadList, Sent;
    var n := GetSubscriberList(store);
    list := ProcessSubscriberListNode(n.value);
  }

  lemma {:induction false} ListedNothing(store: seq<Subscriber?>)
    ensures Listed(store) == [] <==> forall i :: 0 <= i < |store| ==> store[i] == null
    decreases |store|
  {
    if store != [] {
      var n := |store| - 1;
      ListedNothing(store[..n]);
      assert forall i :: 0 <= i < n ==> store[i] == store[..n][i];
      assert forall i :: 0 <= i < |store| ==> i == n || store[i] == store[..n][i];
    }
  }

  /** Exactly these subscribers survive unchanged. */
  lemma SentUnchanged(s: Record)
    ensures Sent(s) == s <==>
            && (s.endTo.Some? ==> s.endTo.value.address.Some?) && (s.notifyTo.Some? ==> s.notifyTo.value.address.Some?)
            && s.deliveryMode.None? && (s.filter.Some? <==> s.filterDialect.Some?) && !s.renewed
  {
  }

  /** A store behind the subscription service: the SQLite table has no dialects, so no filter arrives; the registry
      keeps both, and what was subscribed arrives except for EndTo. */
  lemma FiltersBehindTheService(s: Record)
    ensures Sent(Kept(Sqlite, s)).filter == None
    ensures Storable(Registry, s) ==>
              Sent(Kept(Registry, s)) == Sent(s).(endTo := None, expires := Some(s.expires.GetOr("*")))
  {
  }
}
