/** When a subscription can still be returned: by any call, exactly when its resource can be there or a scan has read
    it; by a retrieve or a scan, which go through the index, only if something can lead to it as well. */
module RegistryReturns {
  import opened Options
  import opened Subscribers
  import opened Stores
  import opened RegistryPaths
  import opened RegistryStore
  import opened RegistryInterleaving
  import opened RegistryRaces

  /** A call that will put the id into the index, or that is about to read its resource. */
  predicate Carries(p: Process, id: string) {
    || ((p.InsertPut? || p.InsertRead? || p.InsertWrite?) && p.s.id == Some(id))
    || (p.InsertWrite? && id in p.snapshot)
    || (p.RemoveWrite? && p.id != id && id in p.snapshot)
    || (p.RetrieveGet? && p.id == id)
    || (p.Scanning? && id in p.left && id in p.snapshot)
  }

  ghost predicate CarriedByOther(w: World, t: nat, id: string) {
    exists u :: u != t && Carries(At(w, u), id)
  }

  /** The index leads to the id, or some call carries it. */
  ghost predicate Reachable(w: World, id: string) {
    id in Index(w.reg) || exists u :: Carries(At(w, u), id)
  }

  ghost predicate Putting(w: World, id: string) {
    exists u :: Holding(At(w, u), id) || Inserting(At(w, u), id)
  }

  /** The id has a readable resource, or some call is about to put it. */
  ghost predicate Obtainable(w: World, id: string)
    requires id in w.inserted
  {
    Storable(Registry, w.inserted[id]) && (PathFor(w, id) in w.reg || Putting(w, id))
  }

  /** A scan in flight has read the id, and will answer it. */
  ghost predicate AlreadyRead(w: World, id: string) {
    exists u :: HasRead(At(w, u), id)
  }

  /** By no retrieve, no scan, and no listing of a collection. */
  ghost predicate NeverReturnedAgain(w: World, id: string) {
    forall steps: seq<Step>, k :: |w.log| <= k < |Run(w, steps).log| ==> !ReturnOf(Run(w, steps).log[k], id)
  }

  /** By no retrieve and no scan. */
  ghost predicate NeverReturnedById(w: World, id: string) {
    forall steps: seq<Step>, k :: |w.log| <= k < |Run(w, steps).log| && Run(w, steps).log[k].Returned? ==>
      !ReturnOf(Run(w, steps).log[k], id)
  }

  // ---- What cannot be returned ------------------------------------------------------------------------------

  /** No registry call but the write of an index brings an id into it. */
  lemma UnreachableIndexStays(w: World, step: Step, id: string)
    requires Inv(w) && !Reachable(w, id)
    ensures id !in Index(Do(w, step).reg)
  {
    hide Collection, LookupPath, InsertPath, NewResource, ExtractSubscriber, UpdatedResource, PathOk;
    if step.Go? {
      var p := At(w, step.t);
      assert ProcessOk(w, p) && !Carries(p, id);
      match p
      case InsertPut(s) =>
        assert IsCollection(Collection(s.filter));
        InsertPathIsOwn(s.filter, s.id.value, Collection(s.filter), s.id.value);
      case UpdatePut(s, c, held) =>
        assert s.id.value in map[s.id.value := c];
        NeverTheIndex(w.inserted[s.id.value].filter, s.id.value);
      case RemoveDelete(other, c) =>
        assert other in map[other := c];
        NeverTheIndex(w.inserted[other].filter, other);
      case _ =>
    }
  }

  lemma UnreachableStays(w: World, step: Step, id: string)
    requires Inv(w) && id in w.inserted && !Reachable(w, id)
    ensures id in Do(w, step).inserted && !Reachable(Do(w, step), id)
  {
    UnreachableIndexStays(w, step, id);
    assert id !in Index(w.reg) && !Carries(At(w, step.t), id);
    hide Inv, Index;
    NoNewCarrier(w, step, id);
    var w' := Do(w, step);
    hide Do;
    forall u | u != step.t ensures !Carries(At(w', u), id) {
      OthersDoNotMove(w, step, u);
    }
  }

  lemma NoNewCarrier(w: World, step: Step, id: string)
    requires id in w.inserted && id !in Index(w.reg) && !Carries(At(w, step.t), id)
    ensures id in Do(w, step).inserted && !Carries(At(Do(w, step), step.t), id)
  {
    hide EffectOf, Index, LookupPath, ExtractSubscriber, SlashFree, ReadFor;
    NoCarrierByCall(w, At(w, step.t), id);
  }

  lemma NoCarrierByCall(w: World, p: Process, id: string)
    requires id !in Index(w.reg) && !Carries(p, id)
    ensures !Carries(EffectOf(w, p).next, id)
  {
    hide LookupPath, UpdatedResource, Index, PutSubscription, WriteIndex, WithEntry, ReadFor, ReadAll;
  }

  lemma InsertedStays(w: World, step: Step, id: string)
    requires id in w.inserted
    ensures id in Do(w, step).inserted && Do(w, step).inserted[id] == w.inserted[id]
  {
    hide EffectOf, LookupPath, SlashFree, ReadFor;
  }

  /** An id without a filter or an address is never read. */
  lemma UnstorableIsNotRead(w: World, step: Step, id: string)
    requires Inv(w) && id in w.inserted && !Storable(Registry, w.inserted[id])
    ensures !ReadNow(w, step, id)
  {
    var p := At(w, step.t);
    assert ProcessOk(w, p);
    hide Collection, LookupPath, ExtractSubscriber;
    if p.RetrieveGet? {
      assert p.id in map[p.id := p.collection];
    }
    if p.Listing? && id in ReadAll(w, p.filter) {
      ListingReads(w.reg, Collection(p.filter), id);
      assert PathOk(w, p.filter, id);
    }
    NothingToRead(w, id);
  }

  lemma NothingToRead(w: World, id: string)
    requires Inv(w) && id in w.inserted && !Storable(Registry, w.inserted[id])
    ensures PathFor(w, id) in w.reg ==> ExtractSubscriber(w.reg[PathFor(w, id)]).None?
  {
    hide Collection, LookupPath, NewResource, SerializeEndpoint, ExtractSubscriber;
    assert PathOk(w, w.inserted[id].filter, id);
    if PathFor(w, id) in w.reg {
      OwnResourceReads(w, id, w.reg[PathFor(w, id)]);
    }
  }

  lemma NotReadStays(w: World, step: Step, id: string)
    requires !AlreadyRead(w, id) && !ReadNow(w, step, id)
    ensures !AlreadyRead(Do(w, step), id)
    ensures var w' := Do(w, step); forall k :: |w.log| <= k < |w'.log| ==> !ReturnOf(w'.log[k], id)
  {
    hide Do, ReadNow;
    assert !HasRead(At(w, step.t), id);
    ReadNowOrBefore(w, step, id);
    var w' := Do(w, step);
    forall u ensures !HasRead(At(w', u), id) {
      if u != step.t {
        OthersDoNotMove(w, step, u);
        assert !HasRead(At(w, u), id);
      }
    }
  }

  /** The reasons for which an id cannot be returned at all; they last. */
  ghost predicate Lost(w: World, id: string) {
    id in w.inserted && (!Storable(Registry, w.inserted[id]) || Dead(w, id)) && !AlreadyRead(w, id)
  }

  lemma LostStays(w: World, step: Step, id: string)
    requires Inv(w) && Lost(w, id)
    ensures Lost(Do(w, step), id)
    ensures var w' := Do(w, step); forall k :: |w.log| <= k < |w'.log| ==> !ReturnOf(w'.log[k], id)
  {
    hide Inv, Dead, Do, Storable, ReadNow, AlreadyRead;
    InsertedStays(w, step, id);
    if Dead(w, id) {
      DeadIsNotRead(w, step, id);
      DeadStays(w, step, id);
    } else {
      UnstorableIsNotRead(w, step, id);
    }
    NotReadStays(w, step, id);
  }

  lemma {:induction false} LostForever(w: World, steps: seq<Step>, id: string)
    requires Inv(w) && Lost(w, id)
    ensures forall k :: |w.log| <= k < |Run(w, steps).log| ==> !ReturnOf(Run(w, steps).log[k], id)
    decreases |steps|
  {
    hide Lost, Inv, ReturnOf;
    if steps != [] {
      var w1 := Do(w, steps[0]);
      StepKeeps(w, steps[0]);
      LostStays(w, steps[0], id);
      LostForever(w1, steps[1..], id);
      LogGrows(w1, steps[1..]);
      hide Do;
      var last := Run(w, steps);
      forall k | |w.log| <= k < |last.log| ensures !ReturnOf(last.log[k], id) {
        if k < |w1.log| {
          assert last.log[k] == last.log[..|w1.log|][k] == w1.log[k];
        }
      }
    }
  }

  /** The reasons for which an id cannot be returned by a retrieve or a scan. */
  ghost predicate LostById(w: World, id: string) {
    id in w.inserted && (!Storable(Registry, w.inserted[id]) || Dead(w, id) || !Reachable(w, id)) && !AlreadyRead(w, id)
  }

  /** A step that reads an id for which nothing is to be found in the index is a listing. */
  lemma UnreachableIsListed(w: World, step: Step, id: string)
    requires !Reachable(w, id)
    ensures ReadNow(w, step, id) ==> step.Go? && At(w, step.t).Listing?
  {
    hide LookupPath, ExtractSubscriber, Index, ReadAll;
    assert !Carries(At(w, step.t), id);
  }

  lemma UnreachableIsNotReturned(w: World, step: Step, id: string)
    requires !Reachable(w, id) && !AlreadyRead(w, id)
    ensures !AlreadyRead(Do(w, step), id)
    ensures var w' := Do(w, step); forall k :: |w.log| <= k < |w'.log| && w'.log[k].Returned? ==>
        !ReturnOf(w'.log[k], id)
  {
    hide Reachable, ReadNow;
    UnreachableIsListed(w, step, id);
    if ReadNow(w, step, id) {
      ListingKeepsScans(w, step, id);
    } else {
      NotReadStays(w, step, id);
    }
  }

  lemma ListingKeepsScans(w: World, step: Step, id: string)
    requires step.Go? && At(w, step.t).Listing? && !AlreadyRead(w, id)
    ensures !AlreadyRead(Do(w, step), id)
    ensures var w' := Do(w, step); forall k :: |w.log| <= k < |w'.log| ==> !w'.log[k].Returned?
  {
    hide ReadAll;
    var w' := Do(w, step);
    assert At(w', step.t) == Idle;
    forall u | u != step.t ensures !HasRead(At(w', u), id) {
      assert At(w', u) == At(w, u) && !HasRead(At(w, u), id);
    }
  }

  lemma LostByIdStays(w: World, step: Step, id: string)
    requires Inv(w) && LostById(w, id)
    ensures LostById(Do(w, step), id)
    ensures var w' := Do(w, step); forall k :: |w.log| <= k < |w'.log| && w'.log[k].Returned? ==>
        !ReturnOf(w'.log[k], id)
  {
    hide Inv, Dead, Do, Storable, Reachable, AlreadyRead;
    InsertedStays(w, step, id);
    if !Storable(Registry, w.inserted[id]) || Dead(w, id) {
      LostStays(w, step, id);
    } else {
      UnreachableStays(w, step, id);
      UnreachableIsNotReturned(w, step, id);
    }
  }

  lemma {:induction false} LostByIdForever(w: World, steps: seq<Step>, id: string)
    requires Inv(w) && LostById(w, id)
    ensures forall k :: |w.log| <= k < |Run(w, steps).log| && Run(w, steps).log[k].Returned? ==>
        !ReturnOf(Run(w, steps).log[k], id)
    decreases |steps|
  {
    hide LostById, Inv, ReturnOf;
    if steps != [] {
      var w1 := Do(w, steps[0]);
      StepKeeps(w, steps[0]);
      LostByIdStays(w, steps[0], id);
      LostByIdForever(w1, steps[1..], id);
      LogGrows(w1, steps[1..]);
      hide Do;
      var last := Run(w, steps);
      forall k | |w.log| <= k < |last.log| && last.log[k].Returned? ensures !ReturnOf(last.log[k], id) {
        if k < |w1.log| {
          assert last.log[k] == last.log[..|w1.log|][k] == w1.log[k];
        }
      }
    }
  }

  // ---- What can be returned ---------------------------------------------------------------------------------

  lemma {:induction false} SomeThreadIsFree(used: set<nat>) returns (t: nat)
    ensures t !in used && forall u :: u in used ==> u < t
  {
    if used == {} {
      t := 0;
    } else {
      var u :| u in used;
      var rest := SomeThreadIsFree(used - {u});
      assert forall v :: v in used ==> v == u || v in used - {u};
      t := if u < rest then rest else u + 1;
    }
  }

  lemma ReadsOwn(w: World, id: string)
    requires Inv(w) && id in w.inserted && Storable(Registry, w.inserted[id]) && PathFor(w, id) in w.reg
    ensures id in ReadFor(w, id, Collection(w.inserted[id].filter)) && id in ReadAll(w, w.inserted[id].filter)
  {
    ListingReads(w.reg, Collection(w.inserted[id].filter), id);
    hide Collection, LookupPath, NewResource, SerializeEndpoint, ExtractSubscriber;
    assert PathOk(w, w.inserted[id].filter, id);
    OwnResourceReads(w, id, w.reg[PathFor(w, id)]);
  }

  /** What is there is returned by listing its collection, whatever the index says. */
  lemma PresentIsListed(w: World, id: string) returns (steps: seq<Step>)
    requires Inv(w) && id in w.inserted && Storable(Registry, w.inserted[id]) && PathFor(w, id) in w.reg
    ensures |Run(w, steps).log| == |w.log| + 1 && ReturnOf(Run(w, steps).log[|w.log|], id)
  {
    var t := SomeThreadIsFree(w.processes.Keys);
    steps := [Begin(t, CallList(w.inserted[id].filter)), Go(t)];
    assert steps[1..] == [Go(t)];
    RunOne(Do(w, steps[0]), Go(t));
    ReadsOwn(w, id);
    ListingAnswers(w, t, w.inserted[id].filter, id);
  }

  lemma ListingAnswers(w: World, t: nat, filter: Option<string>, id: string)
    requires At(w, t) == Idle && id in ReadAll(w, filter)
    ensures var w' := Do(Do(w, Begin(t, CallList(filter))), Go(t));
            |w'.log| == |w.log| + 1 && ReturnOf(w'.log[|w.log|], id)
  {
    hide ReadAll;
    var w1 := Do(w, Begin(t, CallList(filter)));
    assert At(w1, t) == Listing(filter) && w1.reg == w.reg && w1.log == w.log;
    SameReading(w, w1, "", "", filter);
    ListEnds(w1, t, filter);
  }

  lemma ListEnds(w: World, t: nat, filter: Option<string>)
    requires At(w, t) == Listing(filter)
    ensures Do(w, Go(t)).log == w.log + [Listed(ReadAll(w, filter))]
  {
    hide ReadAll;
  }

  lemma RetrieveComesToRead(w: World, t: nat, id: string)
    requires At(w, t) == Idle && id in Index(w.reg)
    ensures var w' := Do(Do(w, Begin(t, CallRetrieve(id))), Go(t));
            && At(w', t) == RetrieveGet(id, Index(w.reg)[id]) && w'.reg == w.reg && w'.log == w.log
            && w'.inserted == w.inserted && forall u :: u != t ==> At(w', u) == At(w, u)
  {
    hide LookupPath, ExtractSubscriber, Index;
  }

  lemma ReadAnswers(w: World, t: nat, id: string, c: string)
    requires At(w, t) == RetrieveGet(id, c)
    ensures var w' := Do(w, Go(t));
            && w'.log == w.log + [Returned(ReadFor(w, id, c))] && w'.reg == w.reg && w'.inserted == w.inserted
            && At(w', t) == Idle && forall u :: u != t ==> At(w', u) == At(w, u)
  {
    hide ReadFor;
  }

  /** A retrieve of a listed id whose resource is there. */
  lemma RetrieveFinds(w: World, t: nat, id: string)
    requires Inv(w) && At(w, t) == Idle && id in Index(w.reg) && id in w.inserted
    requires Storable(Registry, w.inserted[id]) && PathFor(w, id) in w.reg
    ensures var w' := Do(Do(Do(w, Begin(t, CallRetrieve(id))), Go(t)), Go(t));
            && |w'.log| == |w.log| + 1 && w'.log[|w.log|].Returned? && ReturnOf(w'.log[|w.log|], id)
            && w'.log[..|w.log|] == w.log && w'.reg == w.reg && w'.inserted == w.inserted && At(w', t) == Idle
            && forall u :: u != t ==> At(w', u) == At(w, u)
  {
    assert Index(w.reg)[id] == Collection(w.inserted[id].filter);
    ReadsOwn(w, id);
    var c := Index(w.reg)[id];
    var w2 := Do(Do(w, Begin(t, CallRetrieve(id))), Go(t));
    assert ReturnOf(Returned(ReadFor(w, id, c)), id);
    hide *;
    RetrieveComesToRead(w, t, id);
    SameReading(w, w2, id, c, None);
    ReadAnswers(w2, t, id, c);
  }

  /** A listed id whose resource is there is returned by a retrieve. */
  lemma ListedIsReturned(w: World, id: string) returns (steps: seq<Step>)
    requires Inv(w) && id in Index(w.reg) && id in w.inserted
    requires Storable(Registry, w.inserted[id]) && PathFor(w, id) in w.reg
    ensures |Run(w, steps).log| == |w.log| + 1
    ensures Run(w, steps).log[|w.log|].Returned? && ReturnOf(Run(w, steps).log[|w.log|], id)
  {
    var t := SomeThreadIsFree(w.processes.Keys);
    steps := [Begin(t, CallRetrieve(id)), Go(t), Go(t)];
    assert At(w, t) == Idle;
    hide *;
    RunThree(w, steps[0], steps[1], steps[2]);
    RetrieveFinds(w, t, id);
  }

  /** A scan that has read the id comes to its end. */
  lemma {:induction false} ScanAnswers(w: World, v: nat, id: string) returns (steps: seq<Step>)
    requires HasRead(At(w, v), id)
    ensures |Run(w, steps).log| == |w.log| + 1
    ensures Run(w, steps).log[|w.log|].Returned? && ReturnOf(Run(w, steps).log[|w.log|], id)
    decreases At(w, v).left
  {
    var p := At(w, v);
    if p.left == {} {
      steps := [Go(v)];
      RunOne(w, Go(v));
    } else {
      var other :| other in p.left;
      var w1 := Do(w, Fail(v, other));
      assert At(w1, v) == Scanning(p.snapshot, p.left - {other}, p.found) && w1.log == w.log;
      var rest := ScanAnswers(w1, v, id);
      steps := [Fail(v, other)] + rest;
      assert steps[1..] == rest;
    }
  }

  /** A call that carries the id puts it into the index, or reads its resource itself. */
  lemma CarriedIsReturned(w: World, v: nat, id: string) returns (steps: seq<Step>)
    requires Inv(w) && Carries(At(w, v), id) && id in w.inserted
    requires Storable(Registry, w.inserted[id]) && PathFor(w, id) in w.reg
    ensures |Run(w, steps).log| == |w.log| + 1
    ensures Run(w, steps).log[|w.log|].Returned? && ReturnOf(Run(w, steps).log[|w.log|], id)
  {
    hide Collection, LookupPath, ExtractSubscriber, Storable, NewResource;
    var p := At(w, v);
    assert ProcessOk(w, p) && !Inserting(p, id);
    if p.RetrieveGet? {
      assert id in map[id := p.collection];
      ReadsOwn(w, id);
      steps := [Go(v)];
      RunOne(w, Go(v));
      ReadAnswers(w, v, id, p.collection);
    } else if p.Scanning? {
      ReadsOwn(w, id);
      var w1 := Do(w, Pick(v, id));
      assert w1.log == w.log && HasRead(At(w1, v), id) by { hide ReadFor; }
      var rest := ScanAnswers(w1, v, id);
      steps := [Pick(v, id)] + rest;
      assert steps[1..] == rest;
    } else {
      var first := WritesIndex(w, v, id);
      var w1 := Run(w, first);
      RunKeeps(w, first);
      var more := ListedIsReturned(w1, id);
      steps := first + more;
      RunAppends(w, first, more);
    }
  }

  lemma WritesIndex(w: World, v: nat, id: string) returns (steps: seq<Step>)
    requires Inv(w) && Carries(At(w, v), id) && id in w.inserted && PathFor(w, id) in w.reg
    requires At(w, v).InsertRead? || At(w, v).InsertWrite? || At(w, v).RemoveWrite?
    ensures var w' := Run(w, steps);
            id in Index(w'.reg) && w'.inserted == w.inserted && PathFor(w, id) in w'.reg && w'.log == w.log
  {
    hide Collection, LookupPath, ExtractSubscriber, NewResource;
    var p := At(w, v);
    assert ProcessOk(w, p);
    steps := [Go(v)];
    RunOne(w, Go(v));
    if p.InsertRead? {
      var w1 := Do(w, Go(v));
      steps := [Go(v), Go(v)];
      assert [Go(v), Go(v)][1..] == [Go(v)];
      RunOne(w1, Go(v));
      assert At(w1, v) == InsertWrite(p.s, Index(w.reg));
    }
  }

  /** A call that is about to put the resource puts it. */
  lemma PutHappens(w: World, u: nat, id: string)
    requires Inv(w) && id in w.inserted && w.inserted[id].filter.Some?
    requires Holding(At(w, u), id) || Inserting(At(w, u), id)
    ensures var w' := Do(w, Go(u));
            && PathFor(w, id) in w'.reg && w'.inserted == w.inserted && w'.log == w.log && Index(w'.reg) == Index(w.reg)
            && (Carries(At(w, u), id) ==> Carries(At(w', u), id))
  {
    hide Collection, LookupPath, InsertPath, NewResource, ExtractSubscriber, UpdatedResource;
    var p := At(w, u);
    assert ProcessOk(w, p);
    NeverTheIndex(w.inserted[id].filter, id);
    if Holding(p, id) {
      assert id in map[id := p.collection];
    } else {
      assert w.inserted[id] == p.s && IsCollection(Collection(p.s.filter));
      InsertPathIsOwn(p.s.filter, id, Collection(p.s.filter), id);
    }
  }

  /** The resource can be brought there, and what leads to the id stays. */
  lemma ObtainableIsPresent(w: World, id: string) returns (steps: seq<Step>)
    requires Inv(w) && id in w.inserted && Obtainable(w, id)
    ensures var w' := Run(w, steps);
            && Inv(w') && w'.inserted == w.inserted && w'.log == w.log && PathFor(w, id) in w'.reg
            && (Reachable(w, id) ==> Reachable(w', id))
  {
    steps := [];
    if PathFor(w, id) !in w.reg {
      var u :| Holding(At(w, u), id) || Inserting(At(w, u), id);
      steps := [Go(u)];
      RunOne(w, Go(u));
      var w1 := Do(w, Go(u));
      PutHappens(w, u, id);
      hide Do, PathFor;
      StepKeeps(w, Go(u));
      if Reachable(w, id) && id !in Index(w.reg) {
        var v :| Carries(At(w, v), id);
        if v != u {
          OthersDoNotMove(w, Go(u), v);
        }
        assert Carries(At(w1, v), id);
      }
    }
  }

  // ---- The exact conditions ---------------------------------------------------------------------------------

  /** In every state, an inserted id is never returned again, whatever calls follow, if and only if its resource is
      gone for good and no scan in flight has read it. */
  lemma NeverReturnedExactly(w: World, id: string)
    requires Inv(w) && id in w.inserted
    ensures NeverReturnedAgain(w, id) <==> !Obtainable(w, id) && !AlreadyRead(w, id)
  {
    if AlreadyRead(w, id) {
      var v :| HasRead(At(w, v), id);
      var steps := ScanAnswers(w, v, id);
      assert ReturnOf(Run(w, steps).log[|w.log|], id);
    } else if Obtainable(w, id) {
      var first := ObtainableIsPresent(w, id);
      hide Inv, Storable, Run, ReturnOf;
      var w1 := Run(w, first);
      var more := PresentIsListed(w1, id);
      RunAppends(w, first, more);
      assert ReturnOf(Run(w, first + more).log[|w.log|], id);
    } else {
      assert Lost(w, id);
      hide Inv, Storable, Run, ReturnOf, Lost;
      forall steps: seq<Step>, k | |w.log| <= k < |Run(w, steps).log| ensures !ReturnOf(Run(w, steps).log[k], id) {
        LostForever(w, steps, id);
      }
    }
  }

  /** The same for what goes through the index: an inserted id is never returned by a retrieve or a scan if and only if
      its resource is gone for good or nothing leads to it any more, and no scan in flight has read it. */
  lemma NeverReturnedByIdExactly(w: World, id: string)
    requires Inv(w) && id in w.inserted
    ensures NeverReturnedById(w, id) <==> !(Obtainable(w, id) && Reachable(w, id)) && !AlreadyRead(w, id)
  {
    if AlreadyRead(w, id) {
      var v :| HasRead(At(w, v), id);
      var steps := ScanAnswers(w, v, id);
      assert Run(w, steps).log[|w.log|].Returned? && ReturnOf(Run(w, steps).log[|w.log|], id);
    } else if Obtainable(w, id) && Reachable(w, id) {
      var steps := ObtainableIsReturned(w, id);
      assert Run(w, steps).log[|w.log|].Returned? && ReturnOf(Run(w, steps).log[|w.log|], id);
    } else {
      assert LostById(w, id);
      hide Inv, Storable, Run, ReturnOf, LostById;
      forall steps: seq<Step>, k | |w.log| <= k < |Run(w, steps).log| && Run(w, steps).log[k].Returned?
        ensures !ReturnOf(Run(w, steps).log[k], id)
      {
        LostByIdForever(w, steps, id);
      }
    }
  }

  lemma ObtainableIsReturned(w: World, id: string) returns (steps: seq<Step>)
    requires Inv(w) && id in w.inserted && Obtainable(w, id) && Reachable(w, id)
    ensures |w.log| < |Run(w, steps).log|
    ensures Run(w, steps).log[|w.log|].Returned? && ReturnOf(Run(w, steps).log[|w.log|], id)
  {
    var first := ObtainableIsPresent(w, id);
    hide Inv, Run, Storable, ReturnOf;
    var w1 := Run(w, first);
    var more: seq<Step>;
    if id in Index(w1.reg) {
      more := ListedIsReturned(w1, id);
    } else {
      var v :| Carries(At(w1, v), id);
      more := CarriedIsReturned(w1, v, id);
    }
    steps := first + more;
    RunAppends(w, first, more);
  }

  /** After a delete: nothing returns the id if and only if no update was holding its resource at the delete, so that it
      could put it back, and no scan had read it. What goes through the index does not return it either if, with the
      resource put back, nothing but the remove itself led to it. */
  lemma DeletedStaysDeleted(w: World, t: nat, id: string)
    requires Inv(w) && Deletes(w, t, id)
    ensures id in w.inserted
    ensures var held := HeldByUpdate(w, id) && Address(w.inserted[id].notifyTo).Some?;
            && (NeverReturnedAgain(Do(w, Go(t)), id) <==> !held && !AlreadyRead(w, id))
            && (NeverReturnedById(Do(w, Go(t)), id) <==>
                  !(held && (id in Index(w.reg) || CarriedByOther(w, t, id))) && !AlreadyRead(w, id))
  {
    DeleteLeavesOthers(w, t, id);
    hide Inv, PathFor, Do;
    var w' := Do(w, Go(t));
    StepKeeps(w, Go(t));
    NeverReturnedExactly(w', id);
    NeverReturnedByIdExactly(w', id);
    forall u ensures Carries(At(w', u), id) <==> u != t && Carries(At(w, u), id) {
      if u != t { OthersDoNotMove(w, Go(t), u); }
    }
    forall u ensures (Holding(At(w', u), id) || Inserting(At(w', u), id)) <==> Holding(At(w, u), id) {
      if u != t { OthersDoNotMove(w, Go(t), u); }
    }
    forall u ensures HasRead(At(w', u), id) <==> HasRead(At(w, u), id) {
      if u != t { OthersDoNotMove(w, Go(t), u); }
    }
  }

  lemma DeleteLeavesOthers(w: World, t: nat, id: string)
    requires Inv(w) && Deletes(w, t, id)
    ensures id in w.inserted && w.inserted[id].filter.Some?
    ensures forall u :: !Inserting(At(w, u), id)
    ensures var w' := Do(w, Go(t));
            && At(w', t) == RemoveReread(id) && w'.inserted == w.inserted && Index(w'.reg) == Index(w.reg)
            && PathFor(w', id) !in w'.reg && w'.log == w.log + [Deleted(id)]
  {
    hide Collection, LookupPath, NewResource, SerializeEndpoint;
    var p := At(w, t);
    assert ProcessOk(w, p) && id in map[id := p.collection];
    NeverTheIndex(w.inserted[id].filter, id);
    assert PathOk(w, w.inserted[id].filter, id);
  }

  // ---- An answered Unsubscribe ------------------------------------------------------------------------------

  /** The re-read of thread t is over and has found no subscriber: the receiver answers with an UnsubscribeResponse. */
  predicate AnswersNull(w: World, t: nat, id: string) {
    && (At(w, t).RetrieveRead? || At(w, t).RetrieveGet?) && At(w, t).id == id
    && Do(w, Go(t)).log == w.log + [Returned(map[])]
  }

  /** What an UnsubscribeResponse is worth over the registry. Nothing returns the id again if and only if its resource
      is gone, no call is about to put it, and no scan in flight has read it; what goes through the index does not
      return it either if nothing but the re-read itself leads to it. */
  lemma AnsweredUnsubscribe(w: World, t: nat, id: string)
    requires Inv(w) && id in w.inserted && AnswersNull(w, t, id)
    ensures var w' := Do(w, Go(t));
            && (NeverReturnedAgain(w', id) <==> !Obtainable(w, id) && !AlreadyRead(w, id))
            && (NeverReturnedById(w', id) <==>
                  !(Obtainable(w, id) && (id in Index(w.reg) || CarriedByOther(w, t, id))) && !AlreadyRead(w, id))
  {
    var w' := Do(w, Go(t));
    NullEndsRetrieve(w, t, id);
    StepKeeps(w, Go(t));
    assert !Holding(At(w, t), id) && !Inserting(At(w, t), id) && !Carries(At(w', t), id);
    assert !HasRead(At(w, t), id) && !HasRead(At(w', t), id);
    hide Inv, PathFor, Do, Index, Storable;
    NeverReturnedExactly(w', id);
    NeverReturnedByIdExactly(w', id);
    forall u | u != t ensures At(w', u) == At(w, u) {
      OthersDoNotMove(w, Go(t), u);
    }
  }

  lemma NullEndsRetrieve(w: World, t: nat, id: string)
    requires AnswersNull(w, t, id)
    ensures var w' := Do(w, Go(t)); w'.reg == w.reg && w'.inserted == w.inserted && At(w', t) == Idle
  {
    hide LookupPath, ReadFor, Index;
  }

  /** If the removal behind the answer deleted the resource, and no update of the id had begun, the answer is final but
      for scans in flight that had read the id before the delete. */
  lemma UndisturbedUnsubscribeIsFinal(steps: seq<Step>, i: nat, id: string)
    requires var w := Run(INITIAL, steps); i < |w.log| && w.log[i] == Deleted(id) && id !in w.updated
    ensures var w := Run(INITIAL, steps);
            && (NeverReturnedAgain(w, id) <==> !AlreadyRead(w, id))
            && forall more: seq<Step>, k :: |w.log| <= k < |Run(w, more).log| && ReturnOf(Run(w, more).log[k], id) ==>
                 Answer(Run(w, more).log[k])[id].at <= i
  {
    InitialInv();
    InitialFinal();
    RunKeeps(INITIAL, steps);
    DeletesAreFinalInEveryRun(INITIAL, steps);
    var w := Run(INITIAL, steps);
    hide Run, Inv, ReturnOf, Answer;
    assert Dead(w, id);
    DeadIsLost(w, id);
    NeverReturnedExactly(w, id);
    forall more: seq<Step>, k | |w.log| <= k < |Run(w, more).log| && ReturnOf(Run(w, more).log[k], id)
      ensures Answer(Run(w, more).log[k])[id].at <= i
    {
      OldAnswersOnly(w, more, id, i);
    }
  }

  lemma DeadIsLost(w: World, id: string)
    requires Dead(w, id)
    ensures id in w.inserted && !Obtainable(w, id)
  {
  }

  /** Once the resource is gone for good, only scans answer the id, with what they had read before. */
  lemma {:induction false} OldAnswersOnly(w: World, steps: seq<Step>, id: string, n: nat)
    requires Inv(w) && Dead(w, id) && forall u :: HasRead(At(w, u), id) ==> At(w, u).found[id].at <= n
    ensures forall k :: |w.log| <= k < |Run(w, steps).log| && ReturnOf(Run(w, steps).log[k], id) ==>
              Answer(Run(w, steps).log[k])[id].at <= n
    decreases |steps|
  {
    if steps != [] {
      var w1 := Do(w, steps[0]);
      hide Inv, Dead, Do, ReadNow;
      StepKeeps(w, steps[0]);
      DeadStays(w, steps[0], id);
      DeadIsNotRead(w, steps[0], id);
      ReadNowOrBefore(w, steps[0], id);
      forall u | HasRead(At(w1, u), id) ensures At(w1, u).found[id].at <= n {
        if u != steps[0].t {
          OthersDoNotMove(w, steps[0], u);
        }
      }
      OldAnswersOnly(w1, steps[1..], id, n);
      LogGrows(w1, steps[1..]);
      var last := Run(w, steps);
      forall k | |w.log| <= k < |last.log| && ReturnOf(last.log[k], id) ensures Answer(last.log[k])[id].at <= n {
        if k < |w1.log| {
          assert last.log[k] == last.log[..|w1.log|][k] == w1.log[k];
        }
      }
    }
  }

  /** A whole Unsubscribe by thread 2, up to the re-read that answers NULL. */
  function UnsubscribeSteps(id: string): seq<Step> {
    [Begin(2, CallRetrieve(id)), Go(2), Go(2)] + RemoveSteps(id)
  }

  function RemoveSteps(id: string): seq<Step> {
    [Begin(2, CallRemove(id)), Go(2), Go(2)] + [Go(2), Go(2), Begin(2, CallRetrieve(id))]
  }

  lemma UnsubscribeAnswers(w: World, id: string)
    requires Inv(w) && At(w, 2) == Idle && id in Index(w.reg) && id in w.inserted
    requires Storable(Registry, w.inserted[id]) && PathFor(w, id) in w.reg
    ensures var w' := Run(w, UnsubscribeSteps(id));
            && |w'.log| == |w.log| + 2 && ReturnOf(w'.log[|w.log|], id) && w'.log[|w.log| + 1] == Deleted(id)
            && w'.log[..|w.log|] == w.log
            && At(w', 2) == RetrieveRead(id) && id !in Index(w'.reg) && w'.inserted == w.inserted
            && forall u :: u != 2 ==> At(w', u) == At(w, u)
  {
    var a := [Begin(2, CallRetrieve(id)), Go(2), Go(2)];
    assert UnsubscribeSteps(id) == a + RemoveSteps(id);
    hide *;
    RunThree(w, a[0], a[1], a[2]);
    RunAppends(w, a, RemoveSteps(id));
    RunKeeps(w, a);
    RetrieveFinds(w, 2, id);
    SamePath(w, Run(w, a), id);
    RemoveAnswers(Run(w, a), id);
  }

  lemma RemoveAnswers(w: World, id: string)
    requires Inv(w) && At(w, 2) == Idle && id in Index(w.reg) && id in w.inserted && PathFor(w, id) in w.reg
    ensures var w' := Run(w, RemoveSteps(id));
            && w'.log == w.log + [Deleted(id)] && w'.inserted == w.inserted
            && At(w', 2) == RetrieveRead(id) && id !in Index(w'.reg) && forall u :: u != 2 ==> At(w', u) == At(w, u)
  {
    var b, c := [Begin(2, CallRemove(id)), Go(2), Go(2)], [Go(2), Go(2), Begin(2, CallRetrieve(id))];
    assert RemoveSteps(id) == b + c;
    hide *;
    RunThree(w, b[0], b[1], b[2]);
    RunThree(Run(w, b), c[0], c[1], c[2]);
    RunAppends(w, b, c);
    UnsubscribeDeletes(w, id);
    UnsubscribeRereads(Run(w, b), id);
  }

  lemma SamePath(w: World, w': World, id: string)
    requires id in w.inserted && w'.inserted == w.inserted
    ensures PathFor(w', id) == PathFor(w, id)
  {
  }

  lemma UnsubscribeDeletes(w: World, id: string)
    requires Inv(w) && At(w, 2) == Idle && id in Index(w.reg) && id in w.inserted && PathFor(w, id) in w.reg
    ensures var w' := Do(Do(Do(w, Begin(2, CallRemove(id))), Go(2)), Go(2));
            && w'.log == w.log + [Deleted(id)] && Index(w'.reg) == Index(w.reg) && TOPIC_INDEX in w'.reg
            && w'.inserted == w.inserted && At(w', 2) == RemoveReread(id) && forall u :: u != 2 ==>
                  At(w', u) == At(w, u)
  {
    var col := Index(w.reg)[id];
    assert col == Collection(w.inserted[id].filter) && TOPIC_INDEX in w.reg;
    NeverTheIndex(w.inserted[id].filter, id);
    RemoveComesToDelete(w, 2, id);
    hide Collection, LookupPath, ReadFor, Inv, SlashFree;
    DeleteHappens(Do(Do(w, Begin(2, CallRemove(id))), Go(2)), 2, id, col);
  }

  lemma DeleteHappens(w: World, t: nat, id: string, c: string)
    requires At(w, t) == RemoveDelete(id, c) && LookupPath(c, id) in w.reg
    ensures var w' := Do(w, Go(t));
            && w'.log == w.log + [Deleted(id)] && w'.reg == w.reg - {LookupPath(c, id)} && w'.inserted == w.inserted
            && At(w', t) == RemoveReread(id) && forall u :: u != t ==> At(w', u) == At(w, u)
  {
    hide LookupPath;
  }

  lemma UnsubscribeRereads(w: World, id: string)
    requires At(w, 2) == RemoveReread(id) && TOPIC_INDEX in w.reg
    ensures var w' := Do(Do(Do(w, Go(2)), Go(2)), Begin(2, CallRetrieve(id)));
            && w'.log == w.log && id !in Index(w'.reg) && w'.inserted == w.inserted && At(w', 2) == RetrieveRead(id)
            && forall u :: u != 2 ==> At(w', u) == At(w, u)
  {
    hide LookupPath, ExtractSubscriber;
    var w1 := Do(w, Go(2));
    assert At(w1, 2) == RemoveWrite(id, Index(w.reg));
  }

  /** An answered Unsubscribe by thread 2 at w: its handler found the id and its removal deleted the resource. */
  predicate Unsubscribed(w: World, id: string) {
    && AnswersNull(w, 2, id)
    && exists i :: 0 <= i < |w.log| - 1 && ReturnOf(w.log[i], id) && w.log[i + 1] == Deleted(id)
  }

  /** The answer need not be final: for any new subscriber there is a run with a Renew in flight in which it is listed
      again after the answer. */
  lemma AnsweredUnsubscribeCanBeListed(s: Record)
    requires s.id.Some? && SlashFree(s.id.value) && Storable(Registry, s)
    ensures exists steps :: var w := Run(INITIAL, steps);
              Unsubscribed(w, s.id.value) && !NeverReturnedAgain(Do(w, Go(2)), s.id.value)
  {
    var id := s.id.value;
    var w0, before := RenewInFlight(s);
    var steps := UnsubscribeInRun(w0, before, id);
    var w := Run(INITIAL, steps);
    RunKeepsFromInitial(steps);
    hide Run, Inv, PathFor, Do, Unsubscribed, NeverReturnedAgain, Storable;
    assert Obtainable(w, id) by { assert Putting(w, id); }
    UnsubscribedAnswers(w, id);
    AnsweredUnsubscribe(w, 2, id);
  }

  /** With another Subscribe in flight as well, it is also returned by a retrieve or a scan. */
  lemma AnsweredUnsubscribeCanFail(s: Record, other: Record)
    requires s.id.Some? && SlashFree(s.id.value) && Storable(Registry, s)
    requires other.id.Some? && SlashFree(other.id.value) && other.id != s.id
    ensures exists steps :: var w := Run(INITIAL, steps);
              Unsubscribed(w, s.id.value) && !NeverReturnedById(Do(w, Go(2)), s.id.value)
  {
    var id := s.id.value;
    var w0, before := RenewAndSubscribeInFlight(s, other);
    var steps := UnsubscribeInRun(w0, before, id);
    var w := Run(INITIAL, steps);
    RunKeepsFromInitial(steps);
    hide Run, Inv, PathFor, Do, Unsubscribed, NeverReturnedById, Storable, Carries;
    assert Obtainable(w, id) by { assert Putting(w, id); }
    assert CarriedByOther(w, 2, id) by { assert Carries(At(w, 3), id); }
    UnsubscribedAnswers(w, id);
    AnsweredUnsubscribe(w, 2, id);
  }

  lemma UnsubscribedAnswers(w: World, id: string)
    requires Unsubscribed(w, id)
    ensures AnswersNull(w, 2, id)
  {
  }

  /** An Unsubscribe after a run, with what other threads have in flight untouched. */
  lemma UnsubscribeInRun(w0: World, before: seq<Step>, id: string) returns (steps: seq<Step>)
    requires w0 == Run(INITIAL, before) && At(w0, 2) == Idle && id in Index(w0.reg) && id in w0.inserted
    requires Storable(Registry, w0.inserted[id]) && PathFor(w0, id) in w0.reg
    ensures var w := Run(INITIAL, steps);
            Unsubscribed(w, id) && w.inserted == w0.inserted && forall u :: u != 2 ==> At(w, u) == At(w0, u)
  {
    steps := before + UnsubscribeSteps(id);
    var w := Run(INITIAL, steps);
    hide Run, Inv, PathFor, UnsubscribeSteps, Storable;
    RunKeepsFromInitial(before);
    UnsubscribeAnswers(w0, id);
    RunAppends(INITIAL, before, UnsubscribeSteps(id));
    NotListedAnswersNull(w, 2, id);
    assert ReturnOf(w.log[|w0.log|], id) && w.log[|w0.log| + 1] == Deleted(id);
  }

  /** A run to the point where a Renew holds the resource. */
  lemma RenewInFlight(s: Record) returns (w: World, steps: seq<Step>)
    requires s.id.Some? && SlashFree(s.id.value) && Storable(Registry, s)
    ensures w == Run(INITIAL, steps) && (forall u :: u != 1 ==> At(w, u) == Idle) && s.id.value in Index(w.reg)
    ensures TOPIC_INDEX in w.reg && w.inserted == map[s.id.value := s] && PathFor(w, s.id.value) in w.reg
    ensures Holding(At(w, 1), s.id.value)
  {
    var s0 := InsertAlone(s);
    var w0 := Run(INITIAL, s0);
    RunKeepsFromInitial(s0);
    var s1 := [Begin(1, CallUpdate(s)), Go(1), Go(1)];
    hide Run, Do, Inv, Index, At;
    RunThree(w0, s1[0], s1[1], s1[2]);
    w := Run(w0, s1);
    IndexIsThere(w0);
    UpdateComesToHold(w0, 1, s);
    RunAppends(INITIAL, s0, s1);
    steps := s0 + s1;
  }

  lemma IndexIsThere(w: World)
    requires Inv(w)
    ensures TOPIC_INDEX in w.reg
  {
  }

  lemma UpdateComesToHold(w: World, t: nat, s: Record)
    requires At(w, t) == Idle && s.id.Some? && s.id.value in Index(w.reg)
        && LookupPath(Index(w.reg)[s.id.value], s.id.value) in w.reg
    ensures var w' := Do(Do(Do(w, Begin(t, CallUpdate(s))), Go(t)), Go(t));
            && Holding(At(w', t), s.id.value) && w'.reg == w.reg && w'.inserted == w.inserted && w'.log == w.log
            && forall u :: u != t ==> At(w', u) == At(w, u)
  {
    hide LookupPath, Index;
    var w2 := Do(Do(w, Begin(t, CallUpdate(s))), Go(t));
    assert At(w2, t) == UpdateGet(s, Index(w.reg)[s.id.value]);
  }

  lemma NotListedAnswersNull(w: World, t: nat, id: string)
    requires At(w, t) == RetrieveRead(id) && id !in Index(w.reg)
    ensures AnswersNull(w, t, id)
  {
    hide Index;
  }

  /** A run to the point where a Renew holds the resource and a Subscribe holds a copy of the index with the id. */
  lemma RenewAndSubscribeInFlight(s: Record, other: Record) returns (w: World, steps: seq<Step>)
    requires s.id.Some? && SlashFree(s.id.value) && Storable(Registry, s)
    requires other.id.Some? && SlashFree(other.id.value) && other.id != s.id
    ensures w == Run(INITIAL, steps) && At(w, 2) == Idle && s.id.value in Index(w.reg)
    ensures s.id.value in w.inserted && w.inserted[s.id.value] == s && PathFor(w, s.id.value) in w.reg
    ensures Holding(At(w, 1), s.id.value) && Carries(At(w, 3), s.id.value)
  {
    var w1, s1 := RenewInFlight(s);
    var s2 := InsertUpToWrite(w1, 3, other);
    w := Run(w1, s2);
    RunAppends(INITIAL, s1, s2);
    hide Run, Do;
    steps := s1 + s2;
  }

  lemma RemoveComesToDelete(w: World, t: nat, id: string)
    requires At(w, t) == Idle && id in Index(w.reg)
    ensures var w' := Do(Do(w, Begin(t, CallRemove(id))), Go(t));
            && At(w', t) == RemoveDelete(id, Index(w.reg)[id]) && w'.reg == w.reg && w'.inserted == w.inserted
            && w'.log == w.log && forall u :: u != t ==> At(w', u) == At(w, u)
  {
    hide LookupPath, ExtractSubscriber, Index;
  }

  /** A run to the point where a remove by thread 2 is about to delete a resource that a Renew holds. */
  lemma RenewMeetsRemove(s: Record) returns (w: World, steps: seq<Step>)
    requires s.id.Some? && SlashFree(s.id.value) && Storable(Registry, s)
    ensures Inv(w) && Run(INITIAL, steps) == Do(w, Go(2)) && Deletes(w, 2, s.id.value)
    ensures HeldByUpdate(w, s.id.value) && s.id.value in Index(w.reg) && w.inserted == map[s.id.value := s]
  {
    var id := s.id.value;
    var w1, s1 := RenewInFlight(s);
    w := Do(Do(w1, Begin(2, CallRemove(id))), Go(2));
    RunKeepsFromInitial(s1);
    RemoveComesToDelete(w1, 2, id);
    assert Index(w1.reg)[id] == Collection(s.filter);
    assert Holding(At(w, 1), id);
    hide Run, Do, Inv, Collection, LookupPath;
    StepKeeps(w1, Begin(2, CallRemove(id)));
    StepKeeps(Do(w1, Begin(2, CallRemove(id))), Go(2));
    RunThree(w1, Begin(2, CallRemove(id)), Go(2), Go(2));
    RunAppends(INITIAL, s1, [Begin(2, CallRemove(id)), Go(2), Go(2)]);
    steps := s1 + [Begin(2, CallRemove(id)), Go(2), Go(2)];
  }

  /** An update that read the resource before a remove deletes it puts it back, and it is returned again. */
  lemma UpdateCanResurrect(s: Record)
    requires s.id.Some? && SlashFree(s.id.value) && Storable(Registry, s)
    ensures exists steps, i, j :: var w := Run(INITIAL, steps);
                                  0 <= i < j < |w.log| && w.log[i] == Deleted(s.id.value)
                                      && ReturnOf(w.log[j], s.id.value)
  {
    var id := s.id.value;
    var w, before := RenewMeetsRemove(s);
    var w' := Do(w, Go(2));
    DeletedStaysDeleted(w, 2, id);
    DeleteLeavesOthers(w, 2, id);
    hide Do, Inv, Run, Deletes, Index;
    var more: seq<Step>, j :| |w'.log| <= j < |Run(w', more).log| && ReturnOf(Run(w', more).log[j], id);
    LogGrows(w', more);
    var last := Run(w', more);
    assert last.log[|w.log|] == last.log[..|w'.log|][|w.log|] == Deleted(id);
    RunAppends(INITIAL, before, more);
    assert Run(INITIAL, before + more) == last;
  }
}
