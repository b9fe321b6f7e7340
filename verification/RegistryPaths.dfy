/** The paths under which the registry manager keeps subscriptions. */
module RegistryPaths {
  import opened Options

  const SEP := "/"
  const COLLECTION_NAME := "system.subscriptions"
  const TOPIC_INDEX := "/eventing/index/TopicIndex"

  /** axutil_strcat: the strings up to the first NULL, joined. */
  function StrCat(parts: seq<Option<string>>): string {
    if parts == [] || parts[0].None? then "" else parts[0].value + StrCat(parts[1..])
  }

  /** The collection that the TopicIndex entry of a subscription names. */
  function Collection(filter: Option<string>): string {
    if filter.Some? then SEP + filter.value + SEP + COLLECTION_NAME else SEP
  }

  /** Where a subscription is looked up: the index value, a slash, the id. */
  function LookupPath(collection: string, id: string): string {
    collection + SEP + id
  }

  /** Where insert puts the subscription's own resource: a NULL filter cuts the path down to "/". */
  function InsertPath(filter: Option<string>, id: string): string {
    if filter.Some? then LookupPath(Collection(filter), id) else SEP
  }

  /** One segment of a path. */
  predicate SlashFree(s: string) {
    '/' !in s
  }

  /** A path that is the collection, a slash, and one segment. */
  predicate ChildOf(collection: string, path: string) {
    && |collection| < |path|
    && path[..|collection|] == collection
    && path[|collection|] == '/'
    && SlashFree(path[|collection| + 1..])
  }

  /** The segment of such a path. */
  function Segment(collection: string, path: string): (id: string)
    requires ChildOf(collection, path)
    ensures SlashFree(id)
  {
    path[|collection| + 1..]
  }

  lemma SegmentSplits(c: string, path: string, id: string)
    requires SlashFree(id)
    ensures ChildOf(c, path) && Segment(c, path) == id <==> path == LookupPath(c, id)
  {
    if ChildOf(c, path) {
      assert path == path[..|c|] + [path[|c|]] + path[|c| + 1..];
    }
    var p := LookupPath(c, id);
    assert p[..|c|] == c && p[|c| + 1..] == id;
  }

  lemma StrCatCons(head: Option<string>, tail: seq<Option<string>>)
    ensures StrCat([head] + tail) == if head.Some? then head.value + StrCat(tail) else ""
  {
    assert ([head] + tail)[1..] == tail;
  }

  /** The three strings the manager builds with axutil_strcat are these paths, for every filter. */
  lemma LookupPathAsBuilt(collection: string, id: string)
    ensures StrCat([Some(collection), Some(SEP), Some(id)]) == LookupPath(collection, id)
  {
    StrCatCons(Some(id), []);
    StrCatCons(Some(SEP), [Some(id)]);
    StrCatCons(Some(collection), [Some(SEP), Some(id)]);
    assert [Some(id)] == [Some(id)] + [];
    assert [Some(SEP), Some(id)] == [Some(SEP)] + [Some(id)];
    assert [Some(collection), Some(SEP), Some(id)] == [Some(collection)] + [Some(SEP), Some(id)];
    assert collection + (SEP + (id + "")) == collection + SEP + id;
  }

  lemma CollectionAsBuilt(filter: Option<string>)
    ensures StrCat([Some(SEP), filter, Some(SEP), Some(COLLECTION_NAME)]) == Collection(filter)
  {
    var rest := [Some(SEP), Some(COLLECTION_NAME)];
    StrCatCons(Some(SEP), [filter] + rest);
    StrCatCons(filter, rest);
    assert [Some(SEP), filter, Some(SEP), Some(COLLECTION_NAME)] == [Some(SEP)] + ([filter] + rest);
    assert SEP + "" == SEP;
    if filter.Some? {
      LookupPathAsBuilt(filter.value, COLLECTION_NAME);
      assert [Some(filter.value), Some(SEP), Some(COLLECTION_NAME)] == [filter] + rest;
      assert SEP + (filter.value + SEP + COLLECTION_NAME) == SEP + filter.value + SEP + COLLECTION_NAME;
    }
  }

  lemma InsertPathAsBuilt(filter: Option<string>, id: string)
    ensures StrCat([Some(SEP), filter, Some(SEP), Some(COLLECTION_NAME), Some(SEP), Some(id)]) == InsertPath(filter, id)
  {
    var rest := [Some(COLLECTION_NAME), Some(SEP), Some(id)];
    StrCatCons(Some(SEP), [filter] + ([Some(SEP)] + rest));
    StrCatCons(filter, [Some(SEP)] + rest);
    StrCatCons(Some(SEP), rest);
    LookupPathAsBuilt(COLLECTION_NAME, id);
    assert [Some(SEP), filter, Some(SEP), Some(COLLECTION_NAME), Some(SEP), Some(id)]
        == [Some(SEP)] + ([filter] + ([Some(SEP)] + rest));
    assert SEP + "" == SEP;
    if filter.Some? {
      var f := filter.value;
      assert SEP + (f + (SEP + (COLLECTION_NAME + SEP + id))) == SEP + f + SEP + COLLECTION_NAME + SEP + id;
    }
  }

  /** The slash between a collection and a slash-free segment is the last one of the path. */
  lemma LastSlash(c: string, id: string)
    requires SlashFree(id)
    ensures var p := c + SEP + id;
            |p| == |c| + 1 + |id| && p[|c|] == '/' && forall k :: |c| < k < |p| ==> p[k] != '/'
  {
    var p := c + SEP + id;
    assert forall k :: |c| < k < |p| ==> p[k] == id[k - |c| - 1];
  }

  /** A path splits in one way into a collection and a slash-free last segment. */
  lemma SplitsOnce(c: string, id: string, d: string, id': string)
    requires SlashFree(id) && SlashFree(id')
    requires c + SEP + id == d + SEP + id'
    ensures c == d && id == id'
  {
    var p := c + SEP + id;
    LastSlash(c, id);
    LastSlash(d, id');
    assert p == d + SEP + id' && |c| == |d|;
    assert c == p[..|c|] && d == p[..|c|];
    assert id == p[|c| + 1..] && id' == p[|c| + 1..];
  }

  /** Different filters have different collections, however many slashes they contain. */
  lemma CollectionInjective(f: Option<string>, g: Option<string>)
    requires Collection(f) == Collection(g)
    ensures f == g
  {
    if f.Some? {
      assert |Collection(f)| >= 2;
    }
    if g.Some? {
      assert |Collection(g)| >= 2;
    }
    if f.Some? && g.Some? {
      assert f.value == Collection(f)[1..1 + |f.value|];
      assert g.value == Collection(g)[1..1 + |g.value|];
    }
  }

  /** No subscription is stored at, or looked up at, the path of the index. */
  lemma NeverTheIndex(filter: Option<string>, id: string)
    requires SlashFree(id)
    ensures LookupPath(Collection(filter), id) != TOPIC_INDEX
    ensures InsertPath(filter, id) != TOPIC_INDEX
  {
    var parent, leaf := "/eventing/index", "TopicIndex";
    assert TOPIC_INDEX == parent + SEP + leaf;
    assert |Collection(filter)| != |parent|;
    if LookupPath(Collection(filter), id) == TOPIC_INDEX {
      SplitsOnce(Collection(filter), id, parent, leaf);
    }
    assert |SEP| == 1 && |TOPIC_INDEX| > 1;
  }

  /** Two subscriptions share a path only if they have the same filter and the same id; and a subscription whose
      filter is not NULL is looked up where it was put. */
  lemma PathsAreInjective(f: string, id: string, g: string, id': string)
    requires SlashFree(id) && SlashFree(id')
    ensures InsertPath(Some(f), id) == InsertPath(Some(g), id') <==> f == g && id == id'
    ensures InsertPath(Some(f), id) == LookupPath(Collection(Some(f)), id)
    ensures InsertPath(Some(f), id) != TOPIC_INDEX
  {
    NeverTheIndex(Some(f), id);
    if InsertPath(Some(f), id) == InsertPath(Some(g), id') {
      SplitsOnce(Collection(Some(f)), id, Collection(Some(g)), id');
      CollectionInjective(Some(f), Some(g));
    }
  }

  /** Ids that contain slashes can collide, whatever the rest of the path: the ids the server mints
      ("urn:uuid:...") do not contain any. */
  lemma SlashedIdsCollide(f: string, x: string, id: string)
    ensures var g := f + SEP + COLLECTION_NAME + SEP + x;
            var slashed := x + SEP + COLLECTION_NAME + SEP + id;
            f != g && InsertPath(Some(f), slashed) == InsertPath(Some(g), id)
  {
    var g := f + SEP + COLLECTION_NAME + SEP + x;
    var slashed := x + SEP + COLLECTION_NAME + SEP + id;
    assert |g| > |f|;
    assert SEP + f + SEP + COLLECTION_NAME + SEP + (x + SEP + COLLECTION_NAME + SEP + id)
        == SEP + (f + SEP + COLLECTION_NAME + SEP + x) + SEP + COLLECTION_NAME + SEP + id;
  }
}
