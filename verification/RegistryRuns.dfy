/** What sequential runs of registry operations keep, also when an operation is cut off between two of its writes. */
module RegistryRuns {
  import opened Options
  import opened Subscribers
  import opened Stores
  import opened RegistryPaths
  import opened RegistryStore

  /** A resource under some subscription collection that the index does not lead to. */
  ghost predicate IsOrphan(reg: Resources, path: string) {
    exists f :: IsOrphanUnder(reg, f, path)
  }

  predicate IsOrphanUnder(reg: Resources, filter: Option<string>, path: string) {
    var c := Collection(filter);
    ChildOf(c, path) && !(Segment(c, path) in Index(reg) && Index(reg)[Segment(c, path)] == c)
  }

  ghost function Orphans(reg: Resources): set<string> {
    set path | path in reg && IsOrphan(reg, path)
  }

  /** Index entries that lead to no resource. */
  function Dangling(reg: Resources): set<string> {
    set id | id in Index(reg) && !Present(reg, id)
  }

  /** Whatever the index leads to is a complete subscriber of the collection it is stored in. */
  ghost predicate Faithful(reg: Resources) {
    forall id :: id in Index(reg) && Present(reg, id) ==>
                   Located(reg, id).Some? && Index(reg)[id] == Collection(Located(reg, id).value.filter)
  }

  /** Index entries and subscription resources are in bijection. */
  ghost predicate Consistent(reg: Resources) {
    Valid(reg) && Faithful(reg) && Orphans(reg) == {} && Dangling(reg) == {}
  }

  lemma StartIsConsistent()
    ensures Consistent(map[TOPIC_INDEX := Resource(None, map[])])
    ensures StoreOf(map[TOPIC_INDEX := Resource(None, map[])]) == map[]
  {
    var reg := map[TOPIC_INDEX := Resource(None, map[])];
    EmptyIsValid();
    forall f ensures !IsOrphanUnder(reg, f, TOPIC_INDEX) {
      var c := Collection(f);
      if ChildOf(c, TOPIC_INDEX) {
        SegmentSplits(c, TOPIC_INDEX, Segment(c, TOPIC_INDEX));
        NeverTheIndex(f, Segment(c, TOPIC_INDEX));
      }
    }
    assert Orphans(reg) == {};
  }

  ghost predicate Fresh(reg: Resources, id: string) {
    id !in Index(reg) && forall f :: LookupPath(Collection(f), id) !in reg
  }

  /** Inserts bring a new id and a readable subscriber; updates keep the filter of the subscriber they change. */
  ghost predicate Allowed(reg: Resources, op: Op) {
    && WellFormed(op)
    && (op.InsertOp? ==> Storable(Registry, op.s) && Fresh(reg, op.s.id.value))
    && (op.UpdateOp? && Located(reg, op.s.id.value).Some? ==> op.s.filter == Located(reg, op.s.id.value).value.filter)
  }

  /** Cutting an insert off after its first write leaves one orphan and the store as it was. */
  lemma InsertCutOff(reg: Resources, s: Record, writes: nat)
    requires Valid(reg) && Faithful(reg) && Allowed(reg, InsertOp(s))
    ensures var reg' := After(reg, InsertOp(s), writes);
            && Valid(reg') && Faithful(reg')
            && StoreOf(reg') == (if writes >= 2 then Insert(Registry, StoreOf(reg), s) else StoreOf(reg))
            && Orphans(reg') == Orphans(reg) + (if writes == 1 then {InsertPath(s.filter, s.id.value)} else {})
            && Dangling(reg') == Dangling(reg)
  {
    hide Collection, InsertPath, LookupPath, ChildOf, Segment, ExtractSubscriber, NewResource;
    var id := s.id.value;
    var c := Collection(s.filter);
    var path := InsertPath(s.filter, id);
    var reg1 := PutSubscription(reg, s);
    assert IsCollection(c);
    InsertPathIsOwn(s.filter, id, c, id);
    PutKeepsValid(reg, s);
    SegmentSplits(c, path, id);
    assert IsOrphanUnder(reg1, s.filter, path);
    forall p | p in reg && p != path ensures IsOrphan(reg1, p) == IsOrphan(reg, p) {
      assert forall f :: IsOrphanUnder(reg1, f, p) == IsOrphanUnder(reg, f, p);
    }
    assert Orphans(reg1) == Orphans(reg) + {path};
    forall other | other in Index(reg) ensures Present(reg1, other) == Present(reg, other) {
      InsertPathIsOwn(s.filter, id, Index(reg)[other], other);
    }
    assert Dangling(reg1) == Dangling(reg);
    assert StoreOf(reg1) == StoreOf(reg);
    if writes >= 2 {
      InsertRefines(reg, s);
      InsertCompletes(reg, s);
    }
  }

  lemma InsertCompletes(reg: Resources, s: Record)
    requires Valid(reg) && Faithful(reg) && Allowed(reg, InsertOp(s))
    ensures var reg' := Done(reg, InsertOp(s));
            Faithful(reg') && Orphans(reg') == Orphans(reg) && Dangling(reg') == Dangling(reg)
  {
    hide Collection, InsertPath, LookupPath, ChildOf, Segment, ExtractSubscriber, NewResource;
    var id := s.id.value;
    var c := Collection(s.filter);
    var path := InsertPath(s.filter, id);
    var reg2 := Done(reg, InsertOp(s));
    assert IsCollection(c);
    InsertPathIsOwn(s.filter, id, c, id);
    PutKeepsValid(reg, s);
    LocatedAfterInsert(reg, s);
    forall other | other in Index(reg)
      ensures Present(reg2, other) == Present(reg, other) && Located(reg2, other) == Located(reg, other)
    {
      InsertPathIsOwn(s.filter, id, Index(reg)[other], other);
      Apart(Index(reg)[other], other, c, id);
    }
    assert Dangling(reg2) == Dangling(reg);
    forall p, f | p in reg2 ensures IsOrphanUnder(reg2, f, p) == (p in reg && IsOrphanUnder(reg, f, p)) {
      OrphansAfterEntry(reg, s, p, f);
    }
    assert forall p :: p in reg2 ==> IsOrphan(reg2, p) == (p in reg && IsOrphan(reg, p));
    assert Orphans(reg2) == Orphans(reg);
  }

  lemma OrphansAfterEntry(reg: Resources, s: Record, p: string, f: Option<string>)
    requires Valid(reg) && Allowed(reg, InsertOp(s)) && p in Done(reg, InsertOp(s))
    ensures IsOrphanUnder(Done(reg, InsertOp(s)), f, p) == (p in reg && IsOrphanUnder(reg, f, p))
  {
    hide Collection, InsertPath, LookupPath, ChildOf, Segment, ExtractSubscriber, NewResource;
    var id := s.id.value;
    var d := Collection(f);
    assert IsCollection(Collection(s.filter)) && IsCollection(d);
    InsertPathIsOwn(s.filter, id, Collection(s.filter), id);
    PutKeepsValid(reg, s);
    NeverTheIndex(f, id);
    if ChildOf(d, p) {
      var leaf := Segment(d, p);
      SegmentSplits(d, p, leaf);
      NeverTheIndex(f, leaf);
      InsertPathIsOwn(s.filter, id, d, leaf);
    }
  }

  /** Cutting a remove off after its delete leaves one dangling entry, and the id is gone from the store. */
  lemma RemoveCutOff(reg: Resources, id: string, writes: nat)
    requires Valid(reg) && Faithful(reg)
    ensures var reg' := After(reg, RemoveOp(id), writes);
            && Valid(reg') && Faithful(reg')
            && StoreOf(reg') == (if writes >= 1 then Remove(StoreOf(reg), id) else StoreOf(reg))
            && Orphans(reg') == Orphans(reg)
            && Dangling(reg') == Dangling(reg) + (if writes == 1 && Present(reg, id) then {id} else {})
  {
    hide Collection, InsertPath, LookupPath, ChildOf, Segment, ExtractSubscriber, NewResource;
    RemoveRefines(reg, id);
    if Present(reg, id) && writes >= 1 {
      var c := Index(reg)[id];
      var path := LookupPath(c, id);
      var reg' := After(reg, RemoveOp(id), writes);
      Apart(c, id, c, id);
      forall other | other in Index(reg) && other != id
        ensures Present(reg', other) == Present(reg, other) && Located(reg', other) == Located(reg, other)
      {
        Apart(Index(reg)[other], other, c, id);
      }
      assert Dangling(reg') == Dangling(reg) + (if writes == 1 then {id} else {});
      forall p, f | p in reg' ensures IsOrphanUnder(reg', f, p) == IsOrphanUnder(reg, f, p) {
        OrphansAfterDelete(reg, id, writes, p, f);
      }
      forall f ensures !IsOrphanUnder(reg, f, path) {
        assert IsCollection(Collection(f));
        if ChildOf(Collection(f), path) {
          SegmentSplits(Collection(f), path, Segment(Collection(f), path));
          Apart(Collection(f), Segment(Collection(f), path), c, id);
        }
      }
      assert forall p :: p in reg' ==> IsOrphan(reg', p) == IsOrphan(reg, p);
      assert !IsOrphan(reg, path);
      assert forall p :: p in reg' <==> p in reg && p != path;
      assert Orphans(reg') == Orphans(reg);
    }
  }

  lemma OrphansAfterDelete(reg: Resources, id: string, writes: nat, p: string, f: Option<string>)
    requires Valid(reg) && Present(reg, id) && writes >= 1 && p in After(reg, RemoveOp(id), writes)
    ensures IsOrphanUnder(After(reg, RemoveOp(id), writes), f, p) == IsOrphanUnder(reg, f, p)
  {
    hide Collection, InsertPath, LookupPath, ChildOf, Segment;
    RemoveRefines(reg, id);
    var c, d := Index(reg)[id], Collection(f);
    Apart(c, id, c, id);
    assert IsCollection(d);
    NeverTheIndex(f, id);
    if ChildOf(d, p) {
      SegmentSplits(d, p, Segment(d, p));
      NeverTheIndex(f, Segment(d, p));
      Apart(d, Segment(d, p), c, id);
    }
  }

  /** An update is one write, and moves nothing. */
  lemma UpdateCutOff(reg: Resources, s: Record, writes: nat)
    requires Valid(reg) && Faithful(reg) && Allowed(reg, UpdateOp(s))
    ensures var reg' := After(reg, UpdateOp(s), writes);
            && Valid(reg') && Faithful(reg')
            && StoreOf(reg') == (if writes >= 1 then Update(Registry, StoreOf(reg), s) else StoreOf(reg))
            && Orphans(reg') == Orphans(reg) && Dangling(reg') == Dangling(reg)
  {
    hide Collection, InsertPath, LookupPath, ChildOf, Segment, ExtractSubscriber, UpdatedResource;
    UpdateRefines(reg, s);
    if writes >= 1 && Present(reg, s.id.value) {
      var id := s.id.value;
      var reg' := After(reg, UpdateOp(s), writes);
      assert reg' == Done(reg, UpdateOp(s));
      var c := Index(reg)[id];
      Apart(c, id, c, id);
      ExtractUpdated(reg[LookupPath(c, id)], s);
      forall other | other in Index(reg) && other != id ensures Located(reg', other) == Located(reg, other) {
        Apart(Index(reg)[other], other, c, id);
      }
      assert reg'.Keys == reg.Keys;
      assert forall p, f :: IsOrphanUnder(reg', f, p) == IsOrphanUnder(reg, f, p);
      assert Orphans(reg') == Orphans(reg);
    }
  }

  /** An insert whose first put fails goes on, and leaves one dangling entry and the store as it was. */
  lemma EntryWithoutResource(reg: Resources, s: Record)
    requires Valid(reg) && Faithful(reg) && Allowed(reg, InsertOp(s))
    ensures var reg' := Landed(reg, InsertOp(s), false, true);
            && Valid(reg') && Faithful(reg') && StoreOf(reg') == StoreOf(reg)
            && Orphans(reg') == Orphans(reg) && Dangling(reg') == Dangling(reg) + {s.id.value}
  {
    hide Collection, InsertPath, LookupPath, ChildOf, Segment, ExtractSubscriber, NewResource;
    var id := s.id.value;
    var reg' := Landed(reg, InsertOp(s), false, true);
    assert IsCollection(Collection(s.filter));
    WriteKeepsValid(reg, WithEntry(Index(reg), s));
    NeverTheIndex(s.filter, id);
    assert !Present(reg', id);
    forall other | other in Index(reg)
      ensures Present(reg', other) == Present(reg, other) && Located(reg', other) == Located(reg, other)
    {
      Apart(Index(reg)[other], other, Index(reg)[other], other);
    }
    assert Dangling(reg') == Dangling(reg) + {id};
    forall p, f | p in reg' ensures IsOrphanUnder(reg', f, p) == (p in reg && IsOrphanUnder(reg, f, p)) {
      var d := Collection(f);
      if ChildOf(d, p) {
        SegmentSplits(d, p, Segment(d, p));
        NeverTheIndex(f, Segment(d, p));
      }
    }
    assert forall p :: p in reg' ==> IsOrphan(reg', p) == (p in reg && IsOrphan(reg, p));
    assert Orphans(reg') == Orphans(reg);
  }

  // ---- Runs -------------------------------------------------------------------------------------------------

  /** An operation, and which of its writes were done. One that stops early does none of the later ones. */
  datatype Attempt = Attempt(op: Op, first: bool, second: bool)

  /** Whether it takes effect on the store: an insert needs its resource and its entry, the others their first write. */
  predicate Effective(a: Attempt) {
    a.first && (a.op.InsertOp? ==> a.second)
  }

  ghost predicate AllowedRun(reg: Resources, run: seq<Attempt>)
    decreases |run|
  {
    run != [] ==> Allowed(reg, run[0].op) && AllowedRun(Landed(reg, run[0].op, run[0].first, run[0].second), run[1..])
  }

  ghost function Outcome(reg: Resources, run: seq<Attempt>): Resources
    requires AllowedRun(reg, run)
    decreases |run|
  {
    if run == [] then reg else Outcome(Landed(reg, run[0].op, run[0].first, run[0].second), run[1..])
  }

  /** The store after the operations that took effect, in order. */
  ghost function EffectiveRun(m: Store, run: seq<Attempt>): Store
    requires forall i :: 0 <= i < |run| ==> WellFormed(run[i].op)
    decreases |run|
  {
    if run == [] then m
    else
      assert WellFormed(run[0].op);
      EffectiveRun(if Effective(run[0]) then OnStore(m, run[0].op) else m, run[1..])
  }

  /** An operation that did one of its two writes and not the other. */
  predicate CutOff(a: Attempt) {
    match a.op
    case InsertOp(_) => a.first != a.second
    case UpdateOp(_) => false
    case RemoveOp(_) => a.first && !a.second
  }

  function CutOffs(run: seq<Attempt>): nat {
    if run == [] then 0 else (if CutOff(run[0]) then 1 else 0) + CutOffs(run[1..])
  }

  ghost function Defects(reg: Resources): nat {
    |Orphans(reg)| + |Dangling(reg)|
  }

  lemma AttemptKeeps(reg: Resources, a: Attempt)
    requires Valid(reg) && Faithful(reg) && Allowed(reg, a.op)
    ensures var reg' := Landed(reg, a.op, a.first, a.second);
            && Valid(reg') && Faithful(reg')
            && StoreOf(reg') == (if Effective(a) then OnStore(StoreOf(reg), a.op) else StoreOf(reg))
            && Defects(reg') <= Defects(reg) + (if CutOff(a) then 1 else 0)
  {
    assert TOPIC_INDEX in reg;
    hide Valid, Faithful, Orphans, Dangling, StoreOf, Insert, Update, Remove, Collection, InsertPath, NewResource,
        WithEntry;
    match a.op
    case InsertOp(s) =>
      if a.first {
        InsertCutOff(reg, s, if a.second then 2 else 1);
      } else if a.second {
        EntryWithoutResource(reg, s);
      }
    case UpdateOp(s) => UpdateCutOff(reg, s, if a.first then 2 else 0);
    case RemoveOp(id) => RemoveCutOff(reg, id, if !a.first then 0 else if a.second then 2 else 1);
  }

  lemma {:induction false} AllowedIsWellFormed(reg: Resources, run: seq<Attempt>)
    requires AllowedRun(reg, run)
    ensures forall i :: 0 <= i < |run| ==> WellFormed(run[i].op)
    decreases |run|
  {
    if run != [] {
      AllowedIsWellFormed(Landed(reg, run[0].op, run[0].first, run[0].second), run[1..]);
      forall i | 0 <= i < |run| ensures WellFormed(run[i].op) {
        if i > 0 { assert run[i] == run[1..][i - 1]; }
      }
    }
  }

  /** However operations are cut off, and whichever of their writes fail, the registry represents the operations that
      took effect, in order, and has at most one orphan or dangling entry for each operation that was cut off. */
  lemma {:induction false} RunKeeps(reg: Resources, run: seq<Attempt>)
    requires Valid(reg) && Faithful(reg) && AllowedRun(reg, run)
    ensures forall i :: 0 <= i < |run| ==> WellFormed(run[i].op)
    ensures Valid(Outcome(reg, run)) && Faithful(Outcome(reg, run))
    ensures StoreOf(Outcome(reg, run)) == EffectiveRun(StoreOf(reg), run)
    ensures Defects(Outcome(reg, run)) <= Defects(reg) + CutOffs(run)
    decreases |run|
  {
    hide Landed, Valid, Faithful, Orphans, Dangling, StoreOf, Allowed, Defects, CutOff, Effective;
    AllowedIsWellFormed(reg, run);
    if run != [] {
      AttemptKeeps(reg, run[0]);
      RunKeeps(Landed(reg, run[0].op, run[0].first, run[0].second), run[1..]);
    }
  }

  /** Uninterrupted runs keep index and resources in bijection. */
  lemma {:induction false} CompleteRunsStayConsistent(reg: Resources, run: seq<Attempt>)
    requires Consistent(reg) && AllowedRun(reg, run) && CutOffs(run) == 0
    ensures Consistent(Outcome(reg, run))
  {
    RunKeeps(reg, run);
    assert |Orphans(Outcome(reg, run))| == 0 && |Dangling(Outcome(reg, run))| == 0;
  }

  /** What a failed put leaves behind although success is reported: of an insert, an orphan, a dangling entry or
      nothing; of an update, the old record; of a remove, a dangling entry. */
  lemma FailedPutsAreReportedAsSuccess(reg: Resources, op: Op, first: bool, second: bool)
    requires Valid(reg) && Faithful(reg) && Allowed(reg, op)
    requires op.RemoveOp? ==> first && Present(reg, op.id)
    requires op.UpdateOp? ==> Present(reg, op.s.id.value)
    ensures Reported(reg, op, first) == Success
    ensures var reg' := Landed(reg, op, first, second);
            match op
            case InsertOp(s) =>
              && Orphans(reg') == Orphans(reg) + (if first && !second then {InsertPath(s.filter, s.id.value)} else {})
              && Dangling(reg') == Dangling(reg) + (if !first && second then {s.id.value} else {})
              && (!(first && second) ==> StoreOf(reg') == StoreOf(reg))
            case UpdateOp(s) => !first ==> reg' == reg
            case RemoveOp(id) =>
              && Dangling(reg') == Dangling(reg) + (if second then {} else {id})
              && StoreOf(reg') == Remove(StoreOf(reg), id)
  {
    assert TOPIC_INDEX in reg;
    hide Valid, Faithful, Orphans, Dangling, StoreOf, Insert, Update, Remove, Collection, InsertPath, NewResource,
        WithEntry;
    match op
    case InsertOp(s) =>
      PathIsNotIndex(s);
      if first {
        InsertCutOff(reg, s, if second then 2 else 1);
      } else if second {
        EntryWithoutResource(reg, s);
      }
    case UpdateOp(s) =>
    case RemoveOp(id) =>
      RemoveCutOff(reg, id, if second then 2 else 1);
      RemoveRefines(reg, id);
      PresentIsNotIndex(reg, id);
  }

  lemma PathIsNotIndex(s: Record)
    requires WellFormed(InsertOp(s))
    ensures InsertPath(s.filter, s.id.value) != TOPIC_INDEX
  {
    NeverTheIndex(s.filter, s.id.value);
  }

  lemma PresentIsNotIndex(reg: Resources, id: string)
    requires Valid(reg) && Present(reg, id)
    ensures PathOf(reg, id).value != TOPIC_INDEX
  {
    Apart(Index(reg)[id], id, Index(reg)[id], id);
  }

  // ---- Listing a collection ---------------------------------------------------------------------------------

  /** The segments of the resources directly under a collection. */
  function Children(reg: Resources, c: string): set<string> {
    set path | path in reg && ChildOf(c, path) :: Segment(c, path)
  }

  /** Those resources, by segment. */
  function ChildResources(reg: Resources, c: string): map<string, Resource> {
    map id | id in Children(reg, c) && LookupPath(c, id) in reg :: reg[LookupPath(c, id)]
  }

  /** What listing a collection answers: every subscriber in it, without its id. */
  function Listing(reg: Resources, c: string): map<string, Option<Record>> {
    map id | id in ChildResources(reg, c) :: ExtractSubscriber(ChildResources(reg, c)[id])
  }

  /** Listing the collection of a filter answers exactly the subscribers the index scan finds with that filter. */
  lemma ListingIsScan(reg: Resources, f: string)
    requires Consistent(reg)
    ensures Listing(reg, Collection(Some(f))) ==
            map id | id in StoreOf(reg) && StoreOf(reg)[id].filter == Some(f) :: Some(StoreOf(reg)[id].(id := None))
  {
    hide Collection, LookupPath, ChildOf, Segment, ExtractSubscriber;
    var c := Collection(Some(f));
    var scan := map id | id in StoreOf(reg)
        && StoreOf(reg)[id].filter == Some(f) :: Some(StoreOf(reg)[id].(id := None));
    forall id | id in Listing(reg, c) ensures id in scan && scan[id] == Listing(reg, c)[id] {
      var path :| path in reg && ChildOf(c, path) && Segment(c, path) == id;
      SegmentSplits(c, path, id);
      assert !IsOrphanUnder(reg, Some(f), path) by {
        assert path !in Orphans(reg);
      }
      assert Present(reg, id);
      CollectionInjective(Some(f), Located(reg, id).value.filter);
      ExtractHasNoId(reg[path]);
    }
    forall id | id in scan ensures id in Listing(reg, c) {
      SegmentSplits(c, LookupPath(c, id), id);
    }
  }

  lemma ExtractHasNoId(res: Resource)
    ensures ExtractSubscriber(res).Some? ==> ExtractSubscriber(res).value.id == None
  {
  }
}
