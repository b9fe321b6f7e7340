/** The part of an AXIOM tree that Savan reads and writes, as a value. */
module Xml {
  import opened Options

  const EVENTING := "http://schemas.xmlsoap.org/ws/2004/08/eventing"
  const SAVAN := "http://ws.apache.org/axis2/services/subscription"
  const ADDRESSING := "http://schemas.xmlsoap.org/ws/2004/08/addressing"
  const SYNAPSE := "http://ws.apache.org/ns/synapse"

  /** The expanded name of an element; an element without a namespace has ns None. */
  datatype QName = QName(ns: Option<string>, local: string)

  /** Attributes are looked up by name and may have no value; text None is an element without text. */
  datatype Node = Node(name: QName, attributes: map<string, Option<string>>, text: Option<string>, children: seq<Node>)

  function Element(ns: string, local: string, text: Option<string>, children: seq<Node>): Node {
    Node(QName(Some(ns), local), map[], text, children)
  }

  /** axiom_element_get_first_child_with_qname. */
  function FirstChild(children: seq<Node>, ns: string, local: string): Option<Node> {
    if children == [] then None
    else if children[0].name == QName(Some(ns), local) then Some(children[0])
    else FirstChild(children[1..], ns, local)
  }

  /** The same lookup below an element that may be missing: AXIOM answers NULL for a NULL element. */
  function Child(parent: Option<Node>, ns: string, local: string): Option<Node> {
    if parent.Some? then FirstChild(parent.value.children, ns, local) else None
  }

  /** axiom_element_get_text, on an element that may be missing. */
  function Text(n: Option<Node>): Option<string> {
    if n.Some? then n.value.text else None
  }

  function Attribute(n: Option<Node>, name: string): Option<string> {
    if n.Some? && name in n.value.attributes then n.value.attributes[name] else None
  }

  /** The lookup answers the first element with the name, and None exactly when there is none. */
  lemma {:induction false} FirstChildIsFirst(children: seq<Node>, ns: string, local: string)
    ensures var r := FirstChild(children, ns, local);
            var q := QName(Some(ns), local);
            && (r.None? <==> forall i :: 0 <= i < |children| ==> children[i].name != q)
            && (r.Some? ==> exists i :: 0 <= i < |children| && children[i] == r.value && children[i].name == q
                                        && forall j :: 0 <= j < i ==> children[j].name != q)
  {
    var q := QName(Some(ns), local);
    if children != [] {
      var tail := children[1..];
      FirstChildIsFirst(tail, ns, local);
      if children[0].name != q {
        var r := FirstChild(children, ns, local);
        if r.None? {
          forall i | 0 <= i < |children| ensures children[i].name != q {
            if i > 0 { assert children[i] == tail[i - 1]; }
          }
        } else {
          var k :| 0 <= k < |tail| && tail[k] == r.value && tail[k].name == q && forall j :: 0 <= j < k ==>
              tail[j].name != q;
          assert children[k + 1] == tail[k];
          forall j | 0 <= j < k + 1 ensures children[j].name != q {
            if j > 0 { assert children[j] == tail[j - 1]; }
          }
        }
        assert forall i :: 0 <= i < |tail| ==> tail[i] == children[i + 1];
      }
    }
  }
}
