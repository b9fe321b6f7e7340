/** Which races of the registry operations lose something, and which do not. */
module RegistryRaces {
  import opened Options
  import opened Subscribers
  import opened Stores
  import opened RegistryPaths
  import opened RegistryStore
  import opened RegistryInterleaving

  /** What an event answers, by id. */
  function Answer(e: Event): map<string, Found> {
    if e.Deleted? then map[] else e.found
  }

  predicate ReturnOf(e: Event, id: string) {
    id in Answer(e)
  }

  /** A scan that has read the id and will answer it when it ends. */
  predicate HasRead(p: Process, id: string) {
    p.Scanning? && id in p.found
  }

  lemma {:induction false} LogGrows(w: World, steps: seq<Step>)
    ensures |w.log| <= |Run(w, steps).log| && Run(w, steps).log[..|w.log|] == w.log
    decreases |steps|
  {
    if steps != [] {
      var w1 := Do(w, steps[0]);
      StepGrowsLog(w, steps[0]);
      hide Do;
      LogGrows(w1, steps[1..]);
      assert Run(w, steps).log[..|w.log|] == Run(w, steps).log[..|w1.log|][..|w.log|];
    }
  }

  lemma {:induction false} RunAppends(w: World, steps: seq<Step>, more: seq<Step>)
    ensures Run(w, steps + more) == Run(Run(w, steps), more)
    decreases |steps|
  {
    if steps == [] {
      assert steps + more == more;
    } else {
      assert (steps + more)[0] == steps[0] && (steps + more)[1..] == steps[1..] + more;
      RunAppends(Do(w, steps[0]), steps[1..], more);
    }
  }

  lemma RunOne(w: World, a: Step)
    ensures Run(w, [a]) == Do(w, a)
  {
    assert [a][1..] == [];
  }

  lemma RunTwo(w: World, a: Step, b: Step)
    ensures Run(w, [a, b]) == Do(Do(w, a), b)
  {
    assert [a, b][1..] == [b];
    hide Do;
    RunOne(Do(w, a), b);
  }

  /** Reading depends on the registry, and its time on the log. */
  lemma SameReading(w: World, w': World, id: string, c: string, filter: Option<string>)
    requires w'.reg == w.reg && w'.log == w.log
    ensures ReadAll(w', filter) == ReadAll(w, filter) && ReadFor(w', id, c) == ReadFor(w, id, c)
  {
  }

  lemma RunThree(w: World, a: Step, b: Step, c: Step)
    ensures Run(w, [a, b, c]) == Do(Do(Do(w, a), b), c)
  {
    hide Do;
    assert [a, b, c][1..] == [b, c] && [b, c][1..] == [c] && [c][1..] == [];
    assert Run(Do(Do(w, a), b), [c]) == Run(Do(Do(Do(w, a), b), c), []);
    assert Run(Do(w, a), [b, c]) == Run(Do(Do(w, a), b), [c]);
  }

  // ---- One call on its own ----------------------------------------------------------------------------------

  function CallOf(op: Op): Call {
    match op
    case InsertOp(s) => CallInsert(s)
    case UpdateOp(s) => CallUpdate(s)
    case RemoveOp(id) => CallRemove(id)
  }

  lemma RunFive(w: World, a: Step, b: Step, c: Step, d: Step, e: Step)
    ensures Run(w, [a, b, c, d, e]) == Do(Do(Do(Do(Do(w, a), b), c), d), e)
  {
    hide Do;
    RunThree(w, a, b, c);
    RunAppends(w, [a, b, c], [d, e]);
    assert [a, b, c] + [d, e] == [a, b, c, d, e];
    RunThree(Do(Do(w, a), b), c, d, e);
    RunAppends(w, [a, b], [c, d, e]);
    assert [a, b] + [c, d, e] == [a, b, c, d, e];
    assert [a, b][1..] == [b] && [b][1..] == [];
    assert Run(Do(w, a), [b]) == Run(Do(Do(w, a), b), []);
  }

  /** The next registry call of a thread, which works or fails. */
  function Try(t: nat, works: bool): Step {
    if works then Go(t) else Fail(t, "")
  }

  /** An operation of which nobody interrupts the registry calls, with the ones that work; none has more than four. */
  function Alone(t: nat, op: Op, a: bool, b: bool, c: bool, d: bool): seq<Step> {
    [Begin(t, CallOf(op)), Try(t, a), Try(t, b), Try(t, c), Try(t, d)]
  }

  /** What is left then, whichever calls fail: that of the two writes that were reached and worked. A failing put does
      not stop an insert; a failing read or delete stops any operation. */
  function LandedAlone(reg: Resources, op: Op, a: bool, b: bool, c: bool, d: bool): Resources
    requires HasId(op)
  {
    match op
    case InsertOp(_) => Landed(reg, op, a, b && c)
    case UpdateOp(_) => Landed(reg, op, a && b && c, true)
    case RemoveOp(_) => Landed(reg, op, a && b, c && d)
  }

  /** Any operation that nothing interrupts, with any of its registry calls failing, leaves that registry, and is over
      after four calls. */
  lemma AloneWithFailures(w: World, t: nat, op: Op, a: bool, b: bool, c: bool, d: bool)
    requires At(w, t) == Idle && WellFormed(op) && (op.InsertOp? ==> op.s.id.value !in w.inserted)
    ensures var w' := Run(w, Alone(t, op, a, b, c, d));
            w'.reg == LandedAlone(w.reg, op, a, b, c, d) && w'.processes == w.processes[t := Idle]
  {
    hide Collection, LookupPath, InsertPath, NewResource, UpdatedResource, Do, Run;
    RunFive(w, Begin(t, CallOf(op)), Try(t, a), Try(t, b), Try(t, c), Try(t, d));
    match op
    case InsertOp(s) =>
      InsertAloneLands(w, t, s, a, b, c);
      StaysIdle(Do(Do(Do(Do(w, Begin(t, CallInsert(s))), Try(t, a)), Try(t, b)), Try(t, c)), t, d);
    case UpdateOp(s) =>
      UpdateAloneLands(w, t, s, a, b, c);
      StaysIdle(Do(Do(Do(Do(w, Begin(t, CallUpdate(s))), Try(t, a)), Try(t, b)), Try(t, c)), t, d);
    case RemoveOp(id) =>
      RemoveAloneDeletes(w, t, id, a, b);
      RemoveAloneWrites(Do(Do(Do(w, Begin(t, CallRemove(id))), Try(t, a)), Try(t, b)), t, id, c, d);
  }

  lemma StaysIdle(w: World, t: nat, works: bool)
    requires At(w, t) == Idle
    ensures Do(w, Try(t, works)).reg == w.reg && Do(w, Try(t, works)).processes == w.processes[t := Idle]
  {
  }

  /** What a registry call of a thread changes, and what its failure changes. */
  lemma TryMoves(w: World, t: nat, works: bool)
    ensures var w', e := Do(w, Try(t, works)), EffectOf(w, At(w, t));
            && w'.reg == (if works then e.reg else w.reg)
            && w'.processes == w.processes[t := if works then e.next else Failed(At(w, t), "")]
            && At(w', t) == if works then e.next else Failed(At(w, t), "")
  {
    hide EffectOf, Failed;
  }

  lemma InsertAloneLands(w: World, t: nat, s: Record, a: bool, b: bool, c: bool)
    requires At(w, t) == Idle && WellFormed(InsertOp(s)) && s.id.value !in w.inserted
    ensures var w' := Do(Do(Do(Do(w, Begin(t, CallInsert(s))), Try(t, a)), Try(t, b)), Try(t, c));
            w'.reg == Landed(w.reg, InsertOp(s), a, b && c) && w'.processes == w.processes[t := Idle]
  {
    hide Collection, LookupPath, InsertPath, NewResource;
    var w1 := Do(w, Begin(t, CallInsert(s)));
    assert At(w1, t) == InsertPut(s) && w1.processes == w.processes[t := InsertPut(s)] && w1.reg == w.reg;
    hide Do, At, PutSubscription;
    var w2 := Do(w1, Try(t, a));
    var w3 := Do(w2, Try(t, b));
    TryMoves(w1, t, a);
    TryMoves(w2, t, b);
    TryMoves(w3, t, c);
  }

  lemma UpdateAloneLands(w: World, t: nat, s: Record, a: bool, b: bool, c: bool)
    requires At(w, t) == Idle && WellFormed(UpdateOp(s))
    ensures var w' := Do(Do(Do(Do(w, Begin(t, CallUpdate(s))), Try(t, a)), Try(t, b)), Try(t, c));
            w'.reg == Landed(w.reg, UpdateOp(s), a && b && c, true) && w'.processes == w.processes[t := Idle]
  {
    hide Collection, LookupPath, UpdatedResource;
    var w1 := Do(w, Begin(t, CallUpdate(s)));
    assert At(w1, t) == UpdateRead(s) && w1.processes == w.processes[t := UpdateRead(s)] && w1.reg == w.reg;
    hide Do, At, Index;
    var w2 := Do(w1, Try(t, a));
    var w3 := Do(w2, Try(t, b));
    TryMoves(w1, t, a);
    TryMoves(w2, t, b);
    TryMoves(w3, t, c);
  }

  lemma RemoveAloneDeletes(w: World, t: nat, id: string, a: bool, b: bool)
    requires At(w, t) == Idle
    ensures var w' := Do(Do(Do(w, Begin(t, CallRemove(id))), Try(t, a)), Try(t, b));
            var deleted := a && b && Present(w.reg, id);
            && w'.reg == (if deleted then After(w.reg, RemoveOp(id), 1) else w.reg)
            && w'.processes == w.processes[t := if deleted then RemoveReread(id) else Idle]
  {
    hide Collection, LookupPath;
    var w1 := Do(w, Begin(t, CallRemove(id)));
    assert w1.processes == w.processes[t := RemoveRead(id)] && w1.reg == w.reg;
    var w2 := Do(w1, Try(t, a));
    assert w2.processes ==
        w.processes[t := if a && id in Index(w.reg) then RemoveDelete(id, Index(w.reg)[id]) else Idle];
  }

  lemma RemoveAloneWrites(w: World, t: nat, id: string, c: bool, d: bool)
    requires At(w, t) == RemoveReread(id) || At(w, t) == Idle
    ensures var w' := Do(Do(w, Try(t, c)), Try(t, d));
            && w'.reg == (if At(w, t) == RemoveReread(id) && c && d && TOPIC_INDEX in w.reg
                          then WriteIndex(w.reg, Index(w.reg) - {id}) else w.reg)
            && w'.processes == w.processes[t := Idle]
  {
    hide LookupPath;
    var w1 := Do(w, Try(t, c));
    assert w1.reg == w.reg;
    assert At(w1, t) == if At(w, t) == RemoveReread(id) && c && TOPIC_INDEX in w.reg
        then RemoveWrite(id, Index(w.reg)) else Idle;
  }

  /** With no failing call it is the sequential operation. */
  lemma AloneIsSequential(w: World, t: nat, op: Op)
    requires At(w, t) == Idle && WellFormed(op) && (op.InsertOp? ==> op.s.id.value !in w.inserted)
    ensures var w' := Run(w, [Begin(t, CallOf(op)), Go(t), Go(t), Go(t), Go(t)]);
            w'.reg == Done(w.reg, op) && w'.processes == w.processes[t := Idle]
  {
    hide Run, Collection, LookupPath, InsertPath, NewResource, UpdatedResource;
    AloneWithFailures(w, t, op, true, true, true, true);
    assert Alone(t, op, true, true, true, true) == [Begin(t, CallOf(op)), Go(t), Go(t), Go(t), Go(t)];
  }

  // ---- An id that was deleted -------------------------------------------------------------------------------

  /** The resource of the id is gone and no call in flight is about to put it back. */
  ghost predicate Dead(w: World, id: string) {
    && id in w.inserted
    && PathFor(w, id) !in w.reg
    && forall t :: !Inserting(At(w, t), id) && !Holding(At(w, t), id)
  }

  /** The registry call of the step reads the resource of the id. */
  predicate ReadNow(w: World, step: Step, id: string) {
    var p := At(w, step.t);
    || (step.Go? && p.RetrieveGet? && id in ReadFor(w, p.id, p.collection))
    || (step.Go? && p.Listing? && id in ReadAll(w, p.filter))
    || (step.Pick? && p.Scanning? && step.id in p.left && step.id in p.snapshot
          && id in ReadFor(w, step.id, p.snapshot[step.id]))
  }

  lemma DeadIsNotRead(w: World, step: Step, id: string)
    requires Inv(w) && Dead(w, id)
    ensures !ReadNow(w, step, id)
  {
    hide Collection, LookupPath, ExtractSubscriber;
    var p := At(w, step.t);
    assert ProcessOk(w, p);
    if p.RetrieveGet? {
      assert p.id in map[p.id := p.collection];
    }
    if p.Listing? && id in ReadAll(w, p.filter) {
      ListingReads(w.reg, Collection(p.filter), id);
      assert PathOk(w, p.filter, id);
    }
  }

  /** What a step answers, or has read when it is over, is read by it or was read by its scan before. */
  lemma ReadNowOrBefore(w: World, step: Step, id: string)
    ensures var w' := Do(w, step);
            && (forall k :: |w.log| <= k < |w'.log| && ReturnOf(w'.log[k], id) ==>
                  ReadNow(w, step, id)
                      || (HasRead(At(w, step.t), id) && Answer(w'.log[k])[id] == At(w, step.t).found[id]))
            && (HasRead(At(w', step.t), id) ==>
                  ReadNow(w, step, id)
                      || (HasRead(At(w, step.t), id) && At(w', step.t).found[id] == At(w, step.t).found[id]))
  {
    hide EffectOf, LookupPath, ExtractSubscriber, SlashFree, ReadFor, ReadAll;
    AnsweredByCall(w, At(w, step.t), id);
  }

  lemma AnsweredByCall(w: World, p: Process, id: string)
    ensures var e := EffectOf(w, p);
            && (e.event.Some? && ReturnOf(e.event.value, id) ==>
                  || (p.RetrieveGet? && id in ReadFor(w, p.id, p.collection))
                  || (p.Listing? && id in ReadAll(w, p.filter))
                  || (HasRead(p, id) && Answer(e.event.value)[id] == p.found[id]))
            && (HasRead(e.next, id) ==> e.next == p)
  {
    hide LookupPath, Index, PutSubscription, WriteIndex, WithEntry, UpdatedResource, ReadFor, ReadAll;
  }

  /** No write of any other call reaches the path of the id. */
  lemma DeadPathStaysEmpty(w: World, step: Step, id: string)
    requires Inv(w) && Dead(w, id)
    ensures id in Do(w, step).inserted && Do(w, step).inserted[id] == w.inserted[id]
    ensures PathFor(w, id) !in Do(w, step).reg
  {
    hide Collection, LookupPath, InsertPath, NewResource, ExtractSubscriber, UpdatedResource;
    var g := w.inserted[id].filter;
    assert IsCollection(Collection(g));
    NeverTheIndex(g, id);
    if step.Go? {
      var p := At(w, step.t);
      assert ProcessOk(w, p);
      match p
      case InsertPut(s) =>
        assert Inserting(p, s.id.value) && s.id.value != id;
        InsertPathIsOwn(s.filter, s.id.value, Collection(g), id);
      case UpdatePut(s, c, held) =>
        assert Holding(p, s.id.value) && s.id.value in map[s.id.value := c];
        assert s.id.value in w.inserted && SlashFree(s.id.value);
        Apart(Collection(g), id, c, s.id.value);
      case _ =>
    }
  }

  /** No call comes to the point of putting the resource back. */
  lemma DeadStaysUnheld(w: World, step: Step, id: string)
    requires Inv(w) && Dead(w, id)
    ensures forall u :: !Inserting(At(Do(w, step), u), id) && !Holding(At(Do(w, step), u), id)
  {
    hide Collection, LookupPath, InsertPath, NewResource, ExtractSubscriber, UpdatedResource, PathOk;
    var p := At(w, step.t);
    assert ProcessOk(w, p);
    if p.UpdateGet? {
      assert p.s.id.value in map[p.s.id.value := p.collection];
    }
    var w' := Do(w, step);
    assert !Inserting(At(w', step.t), id) && !Holding(At(w', step.t), id);
    hide Do, Inv;
    forall u | u != step.t ensures !Inserting(At(w', u), id) && !Holding(At(w', u), id) {
      OthersDoNotMove(w, step, u);
    }
  }

  lemma DeadStays(w: World, step: Step, id: string)
    requires Inv(w) && Dead(w, id)
    ensures Dead(Do(w, step), id)
  {
    DeadPathStaysEmpty(w, step, id);
    DeadStaysUnheld(w, step, id);
    hide Do;
  }

  /** The step at which thread t deletes the resource of an id. */
  predicate Deletes(w: World, t: nat, id: string) {
    At(w, t).RemoveDelete? && At(w, t).id == id && LookupPath(At(w, t).collection, id) in w.reg
  }

  ghost predicate HeldByUpdate(w: World, id: string) {
    exists u :: Holding(At(w, u), id)
  }

  lemma DeleteKills(w: World, t: nat, id: string)
    requires Inv(w) && Deletes(w, t, id) && !HeldByUpdate(w, id)
    ensures Dead(Do(w, Go(t)), id)
    ensures Do(w, Go(t)).log == w.log + [Deleted(id)]
  {
    hide Collection, LookupPath;
    var p := At(w, t);
    assert ProcessOk(w, p) && id in map[id := p.collection];
    var w' := Do(w, Go(t));
    forall u ensures !Inserting(At(w', u), id) && !Holding(At(w', u), id) {
      if u != t {
        assert At(w', u) == At(w, u);
      }
    }
  }

  /** No scan has a record from the future. */
  ghost predicate Timely(w: World) {
    forall u, id :: HasRead(At(w, u), id) ==> At(w, u).found[id].at <= |w.log|
  }

  /** The events of a whole run: after the delete of an id that the run never updates, it is never read again; a scan
      that answers it later had read it before. */
  ghost predicate DeletesAreFinal(w: World) {
    forall i, j, id :: 0 <= i < j < |w.log| && w.log[i] == Deleted(id) && id !in w.updated && ReturnOf(w.log[j], id) ==>
      Answer(w.log[j])[id].at <= i
  }

  ghost predicate ScansAreOld(w: World) {
    forall i, u, id :: 0 <= i < |w.log| && w.log[i] == Deleted(id) && id !in w.updated && HasRead(At(w, u), id) ==>
      At(w, u).found[id].at <= i
  }

  ghost predicate DeletedAreDead(w: World) {
    forall i, id :: 0 <= i < |w.log| && w.log[i] == Deleted(id) && id !in w.updated ==> Dead(w, id)
  }

  ghost predicate Final(w: World) {
    Timely(w) && DeletesAreFinal(w) && ScansAreOld(w) && DeletedAreDead(w)
  }

  lemma TimelyStays(w: World, step: Step)
    requires Timely(w)
    ensures Timely(Do(w, step))
  {
    var w' := Do(w, step);
    StepGrowsLog(w, step);
    forall u, id | HasRead(At(w', u), id) ensures At(w', u).found[id].at <= |w'.log| {
      if u != step.t {
        OthersDoNotMove(w, step, u);
        assert HasRead(At(w, u), id);
      } else {
        ReadIsTimely(w, step, id);
      }
    }
  }

  lemma ReadIsTimely(w: World, step: Step, id: string)
    requires HasRead(At(Do(w, step), step.t), id)
    ensures var at := At(Do(w, step), step.t).found[id].at;
            at == |w.log| || (HasRead(At(w, step.t), id) && at == At(w, step.t).found[id].at)
  {
    hide EffectOf, LookupPath, ExtractSubscriber, SlashFree, ReadAll;
    AnsweredByCall(w, At(w, step.t), id);
  }

  lemma DeletedStaysDead(w: World, step: Step)
    requires Inv(w) && DeletedAreDead(w)
    ensures DeletedAreDead(Do(w, step))
  {
    hide Inv, Dead, Do;
    var w' := Do(w, step);
    StepGrowsLog(w, step);
    forall i, id | 0 <= i < |w'.log| && w'.log[i] == Deleted(id) && id !in w'.updated ensures Dead(w', id) {
      if i < |w.log| {
        assert w.log[i] == w'.log[i];
        DeadStays(w, step, id);
      } else {
        NotHeld(w, id);
        DeleteKills(w, step.t, id);
      }
    }
  }

  lemma AnswersStayOld(w: World, step: Step)
    requires Inv(w) && Final(w)
    ensures DeletesAreFinal(Do(w, step)) && ScansAreOld(Do(w, step))
  {
    hide Inv, Dead, Do, ReadNow;
    var w' := Do(w, step);
    StepGrowsLog(w, step);
    forall i, j, id | 0 <= i < j < |w'.log| && w'.log[i] == Deleted(id) && id !in w'.updated && ReturnOf(w'.log[j], id)
      ensures Answer(w'.log[j])[id].at <= i
    {
      assert w.log[i] == w'.log[i];
      if j < |w.log| {
        assert w.log[j] == w'.log[j];
      } else {
        DeadIsNotRead(w, step, id);
        ReadNowOrBefore(w, step, id);
      }
    }
    forall i, u, id | 0 <= i < |w'.log| && w'.log[i] == Deleted(id) && id !in w'.updated && HasRead(At(w', u), id)
      ensures At(w', u).found[id].at <= i
    {
      if u != step.t {
        OthersDoNotMove(w, step, u);
        assert HasRead(At(w, u), id);
      }
      if i < |w.log| {
        assert w.log[i] == w'.log[i];
        DeadIsNotRead(w, step, id);
        ReadNowOrBefore(w, step, id);
      } else {
        DeleteEnds(w, step, id);
      }
    }
  }

  /** The thread that deletes is not a scan. */
  lemma DeleteEnds(w: World, step: Step, id: string)
    requires step.Go? && Deletes(w, step.t, id)
    ensures !HasRead(At(Do(w, step), step.t), id)
  {
    hide LookupPath;
  }

  lemma FinalStays(w: World, step: Step)
    requires Inv(w) && Final(w)
    ensures Final(Do(w, step))
  {
    AnswersStayOld(w, step);
    TimelyStays(w, step);
    DeletedStaysDead(w, step);
    hide Inv, Do, Timely, DeletesAreFinal, ScansAreOld, DeletedAreDead;
  }

  lemma StepGrowsLog(w: World, step: Step)
    ensures var w' := Do(w, step);
            && w.updated <= w'.updated
            && |w.log| <= |w'.log| <= |w.log| + 1 && w'.log[..|w.log|] == w.log
            && (|w'.log| > |w.log| && w'.log[|w.log|].Deleted? ==> step.Go? && Deletes(w, step.t, w'.log[|w.log|].id))
  {
    hide LookupPath, SlashFree, EffectOf, ReadFor, Failed;
    DeletedIsLogged(w, At(w, step.t));
  }

  /** Only the delete of a resource is logged as one. */
  lemma DeletedIsLogged(w: World, p: Process)
    ensures var e := EffectOf(w, p).event;
            e.Some? && e.value.Deleted? ==>
              p.RemoveDelete? && p.id == e.value.id && LookupPath(p.collection, p.id) in w.reg
  {
    hide LookupPath, Index, PutSubscription, WriteIndex, WithEntry, UpdatedResource, ReadFor, ReadAll;
  }

  lemma NotHeld(w: World, id: string)
    requires Inv(w) && id !in w.updated
    ensures !HeldByUpdate(w, id)
  {
    hide Collection, LookupPath, PathOk;
    forall u ensures !Holding(At(w, u), id) {
      assert ProcessOk(w, At(w, u));
    }
  }

  /** In every interleaving of inserts, removes, retrieves, scans, listings, and updates of other ids: once the delete
      of an id's resource has succeeded, nobody reads it any more; a scan that answers it had read it before. */
  lemma {:induction false} DeletesAreFinalInEveryRun(w: World, steps: seq<Step>)
    requires Inv(w) && Final(w)
    ensures Final(Run(w, steps))
    decreases |steps|
  {
    hide Inv, Final;
    if steps != [] {
      StepKeeps(w, steps[0]);
      FinalStays(w, steps[0]);
      DeletesAreFinalInEveryRun(Do(w, steps[0]), steps[1..]);
    }
  }

  lemma InitialFinal()
    ensures Final(INITIAL)
  {
  }

  /** The same from the empty registry, with what answered records and index entries may say. */
  lemma EveryRun(steps: seq<Step>)
    ensures var w := Run(INITIAL, steps);
            && DeletesAreFinal(w)
            && (forall i, id :: 0 <= i < |w.log| && ReturnOf(w.log[i], id) ==> OwnRecord(w, id, Answer(w.log[i])[id].r))
            && NamesOwn(Index(w.reg), w.inserted)
  {
    InitialInv();
    InitialFinal();
    DeletesAreFinalInEveryRun(INITIAL, steps);
    RunKeeps(INITIAL, steps);
    var w := Run(INITIAL, steps);
    hide Run, OwnRecord;
    forall i, id | 0 <= i < |w.log| && ReturnOf(w.log[i], id) ensures OwnRecord(w, id, Answer(w.log[i])[id].r) {
      assert EventOk(w, w.log[i]);
    }
  }

  // ---- An id that is listed ---------------------------------------------------------------------------------

  /** A call that will write back a copy of the index that lacks the id. */
  predicate StaleWrite(p: Process, id: string) {
    || (p.InsertWrite? && p.s.id != Some(id) && id !in p.snapshot)
    || (p.RemoveWrite? && p.id != id && id !in p.snapshot)
  }

  predicate Removing(p: Process, id: string) {
    (p.RemoveRead? || p.RemoveDelete? || p.RemoveReread? || p.RemoveWrite?) && p.id == id
  }

  ghost predicate NobodyRemoves(w: World, id: string) {
    forall t :: !Removing(At(w, t), id)
  }

  ghost predicate NobodyIsStale(w: World, id: string) {
    forall t :: !StaleWrite(At(w, t), id)
  }

  predicate StartsRemove(step: Step, id: string) {
    step.Begin? && step.call == CallRemove(id)
  }

  ghost predicate StaysListed(w: World, id: string) {
    forall steps: seq<Step> :: (forall i :: 0 <= i < |steps| ==> !StartsRemove(steps[i], id)) ==>
        id in Index(Run(w, steps).reg)
  }

  /** The id stays in the index over one step. */
  lemma IndexKeeps(w: World, step: Step, id: string)
    requires Inv(w) && id in Index(w.reg) && NobodyRemoves(w, id) && NobodyIsStale(w, id)
    ensures id in Index(Do(w, step).reg)
  {
    hide Collection, LookupPath, InsertPath, NewResource, ExtractSubscriber, UpdatedResource, PathOk;
    if step.Go? {
      var p := At(w, step.t);
      assert ProcessOk(w, p);
      match p
      case InsertPut(s) =>
        assert IsCollection(Collection(s.filter));
        InsertPathIsOwn(s.filter, s.id.value, Collection(s.filter), s.id.value);
      case UpdatePut(s, c, held) =>
        assert s.id.value in map[s.id.value := c];
        NeverTheIndex(w.inserted[s.id.value].filter, s.id.value);
      case RemoveDelete(other, c) =>
        assert other in map[other := c];
        NeverTheIndex(w.inserted[other].filter, other);
      case RemoveWrite(other, snapshot) =>
        assert !Removing(p, id) && !StaleWrite(p, id);
      case InsertWrite(s, snapshot) =>
        assert !StaleWrite(p, id);
      case _ =>
    }
  }

  lemma NobodyTurnsStale(w: World, step: Step, id: string)
    requires id in Index(w.reg) && NobodyRemoves(w, id) && NobodyIsStale(w, id)
    requires !StartsRemove(step, id)
    ensures NobodyRemoves(Do(w, step), id) && NobodyIsStale(Do(w, step), id)
  {
    assert !Removing(At(w, step.t), id) && !StaleWrite(At(w, step.t), id);
    hide Do, Index, Removing, StaleWrite;
    MoverTurnsNotStale(w, step, id);
    forall u | u != step.t ensures !Removing(At(Do(w, step), u), id) && !StaleWrite(At(Do(w, step), u), id) {
      OthersDoNotMove(w, step, u);
    }
  }

  lemma MoverTurnsNotStale(w: World, step: Step, id: string)
    requires id in Index(w.reg) && !Removing(At(w, step.t), id) && !StaleWrite(At(w, step.t), id)
        && !StartsRemove(step, id)
    ensures !Removing(At(Do(w, step), step.t), id) && !StaleWrite(At(Do(w, step), step.t), id)
  {
    hide LookupPath, Index, ReadFor, SlashFree, EffectOf;
    CallTurnsNotStale(w, At(w, step.t), id);
  }

  lemma CallTurnsNotStale(w: World, p: Process, id: string)
    requires id in Index(w.reg) && !Removing(p, id) && !StaleWrite(p, id)
    ensures !Removing(EffectOf(w, p).next, id) && !StaleWrite(EffectOf(w, p).next, id)
  {
    hide LookupPath, Index, ReadFor, ReadAll, PutSubscription, WriteIndex, WithEntry, UpdatedResource;
  }

  lemma OthersDoNotMove(w: World, step: Step, u: nat)
    requires u != step.t
    ensures At(Do(w, step), u) == At(w, u)
  {
    hide EffectOf, LookupPath, ReadFor, SlashFree, Failed;
  }

  lemma ListingStays(w: World, step: Step, id: string)
    requires Inv(w) && id in Index(w.reg) && NobodyRemoves(w, id) && NobodyIsStale(w, id)
    requires !StartsRemove(step, id)
    ensures var w' := Do(w, step); id in Index(w'.reg) && NobodyRemoves(w', id) && NobodyIsStale(w', id)
  {
    IndexKeeps(w, step, id);
    NobodyTurnsStale(w, step, id);
  }

  lemma {:induction false} ListingStaysForever(w: World, steps: seq<Step>, id: string)
    requires Inv(w) && id in Index(w.reg) && NobodyRemoves(w, id) && NobodyIsStale(w, id)
    requires forall i :: 0 <= i < |steps| ==> !StartsRemove(steps[i], id)
    ensures id in Index(Run(w, steps).reg)
    decreases |steps|
  {
    hide Inv, NobodyRemoves, NobodyIsStale, Do;
    if steps != [] {
      StepKeeps(w, steps[0]);
      ListingStays(w, steps[0], id);
      ListingStaysForever(Do(w, steps[0]), steps[1..], id);
    }
  }

  /** A listed id that nobody removes stays listed in every continuation exactly when no call in flight holds a copy
      of the index that lacks it. */
  lemma EntryLostOnlyToStaleCopies(w: World, id: string)
    requires Inv(w) && id in Index(w.reg) && NobodyRemoves(w, id)
    ensures StaysListed(w, id) <==> NobodyIsStale(w, id)
  {
    if NobodyIsStale(w, id) {
      forall steps: seq<Step> | forall i :: 0 <= i < |steps| ==> !StartsRemove(steps[i], id)
        ensures id in Index(Run(w, steps).reg)
      {
        ListingStaysForever(w, steps, id);
      }
    } else {
      hide Collection, LookupPath, PathOk;
      var t :| StaleWrite(At(w, t), id);
      assert ProcessOk(w, At(w, t));
      var steps := [Go(t)];
      assert steps[1..] == [] && Run(w, steps) == Do(w, Go(t));
      assert id !in Index(Run(w, steps).reg);
      assert forall i :: 0 <= i < |steps| ==> !StartsRemove(steps[i], id);
    }
  }

  // ---- The losing races happen ------------------------------------------------------------------------------

  /** An insert on its own, up to its last write. */
  lemma InsertUpToWrite(w: World, t: nat, s: Record) returns (steps: seq<Step>)
    requires At(w, t) == Idle && TOPIC_INDEX in w.reg
    requires s.id.Some? && SlashFree(s.id.value) && s.id.value !in w.inserted
    ensures var w' := Run(w, steps);
            && At(w', t) == InsertWrite(s, Index(w.reg)) && (forall u :: u != t ==> At(w', u) == At(w, u))
            && TOPIC_INDEX in w'.reg && Index(w'.reg) == Index(w.reg)
            && (forall p :: p in w.reg ==> p in w'.reg) && w'.log == w.log
            && w'.inserted == w.inserted[s.id.value := s]
  {
    NeverTheIndex(s.filter, s.id.value);
    hide Collection, LookupPath, InsertPath, NewResource;
    var w1 := Do(w, Begin(t, CallInsert(s)));
    assert At(w1, t) == InsertPut(s);
    var w2 := Do(w1, Go(t));
    assert At(w2, t) == InsertRead(s) && Index(w2.reg) == Index(w.reg);
    var w3 := Do(w2, Go(t));
    steps := [Begin(t, CallInsert(s)), Go(t), Go(t)];
    RunThree(w, Begin(t, CallInsert(s)), Go(t), Go(t));
  }

  /** Two inserts that read the index before either writes it: both succeed, and one of them is not listed. */
  lemma InsertsCanLoseAnEntry(a: Record, b: Record)
    requires a.id.Some? && b.id.Some? && a.id != b.id && SlashFree(a.id.value) && SlashFree(b.id.value)
    ensures exists steps :: var w := Run(INITIAL, steps);
                            && At(w, 0) == Idle && At(w, 1) == Idle && a.id.value in w.inserted
                                  && b.id.value in w.inserted
                            && a.id.value !in Index(w.reg) && b.id.value in Index(w.reg)
  {
    var s0 := InsertUpToWrite(INITIAL, 0, a);
    var w0 := Run(INITIAL, s0);
    var s1 := InsertUpToWrite(w0, 1, b);
    var w1 := Run(w0, s1);
    assert At(w1, 0) == At(w0, 0) == InsertWrite(a, map[]) && At(w1, 1) == InsertWrite(b, map[]);
    hide Run, Do, Index, At;
    LaterCopyWins(w1, a, b);
    RunAppends(INITIAL, s0, s1);
    RunAppends(INITIAL, s0 + s1, [Go(0), Go(1)]);
    assert [Go(0), Go(1)][1..] == [Go(1)] && [Go(1)][1..] == [];
    assert Run(INITIAL, s0 + s1 + [Go(0), Go(1)]) == Run(w1, [Go(0), Go(1)]);
  }

  lemma LaterCopyWins(w: World, a: Record, b: Record)
    requires At(w, 0) == InsertWrite(a, map[]) && At(w, 1) == InsertWrite(b, map[])
    requires a.id.Some? && b.id.Some? && a.id != b.id
    ensures var w' := Run(w, [Go(0), Go(1)]);
            && At(w', 0) == Idle && At(w', 1) == Idle && w'.inserted == w.inserted
            && Index(w'.reg) == map[b.id.value := Collection(b.filter)]
  {
    hide Collection;
    assert [Go(0), Go(1)][1..] == [Go(1)] && [Go(1)][1..] == [];
    var w1 := Do(w, Go(0));
    assert At(w1, 1) == InsertWrite(b, map[]) && At(w1, 0) == Idle;
    assert Run(w, [Go(0), Go(1)]) == Run(w1, [Go(1)]) == Do(w1, Go(1));
  }

  lemma RunKeepsFromInitial(steps: seq<Step>)
    ensures Inv(Run(INITIAL, steps))
  {
    InitialInv();
    RunKeeps(INITIAL, steps);
  }

  lemma InsertAlone(s: Record) returns (steps: seq<Step>)
    requires s.id.Some? && SlashFree(s.id.value) && s.filter.Some?
    ensures var w := Run(INITIAL, steps);
            && (forall u :: At(w, u) == Idle) && w.inserted == map[s.id.value := s]
            && Index(w.reg) == map[s.id.value := Collection(s.filter)]
            && LookupPath(Collection(s.filter), s.id.value) in w.reg
  {
    NeverTheIndex(s.filter, s.id.value);
    hide Collection, LookupPath, NewResource;
    var s0 := [Begin(0, CallInsert(s)), Go(0), Go(0)];
    RunThree(INITIAL, s0[0], s0[1], s0[2]);
    assert At(Run(INITIAL, s0), 0) == InsertWrite(s, map[]);
    assert [Go(0)][1..] == [];
    RunAppends(INITIAL, s0, [Go(0)]);
    steps := s0 + [Go(0)];
  }
}
