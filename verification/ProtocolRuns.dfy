/** Runs of the protocol: what serialised handlers guarantee, what they protect from, and which filters get stored. */
module ProtocolRuns {
  import opened Options
  import opened Subscribers
  import opened Stores
  import opened Xml
  import opened Requests
  import opened Protocol

  // ---- Serialised handlers ----------------------------------------------------------------------------------

  /** The store calls that request handlers make; the other calls are the message receivers' re-reads. */
  predicate HandlerCall(p: Process) {
    p.Inserting? || p.RenewReading? || p.RenewWriting? || p.UnsubscribeReading? || p.UnsubscribeRemoving?
  }

  /** A handler makes no store call while another one is between its read and its write; re-reads come at any time. */
  ghost predicate Serialised(w: World, step: Step) {
    step.Go? && HandlerCall(At(w, step.t)) ==>
      forall u :: u != step.t ==> !At(w, u).RenewWriting? && !At(w, u).UnsubscribeRemoving?
  }

  ghost predicate SerialisedRun(w: World, steps: seq<Step>)
    decreases |steps|
  {
    steps == [] || (Serialised(w, steps[0]) && SerialisedRun(Do(w, steps[0]), steps[1..]))
  }

  predicate UpToDate(w: World, p: Process) {
    p.RenewWriting? && p.id in w.store ==> p.base == w.store[p.id]
  }

  ghost predicate CopiesUpToDate(w: World) {
    forall t :: UpToDate(w, At(w, t))
  }

  lemma SerialisedKeepsCopies(w: World, step: Step)
    requires CopiesUpToDate(w) && Serialised(w, step)
    ensures CopiesUpToDate(Do(w, step)) && !TakesBack(w, step)
  {
    var w' := Do(w, step);
    hide Merged, Edited, Insert, Refusal, NewSubscriber;
    assert UpToDate(w, At(w, step.t));
    forall u ensures UpToDate(w', At(w', u)) {
      assert UpToDate(w, At(w, u));
    }
  }

  /** The renewed flag tells whether a Renew took effect, where the store keeps the flag. */
  predicate FlagRight(w: World, id: string)
    requires id in w.store
  {
    w.store[id].renewed == (w.backend.Sqlite? && WasRenewed(w.log, id))
  }

  predicate FlagsRight(w: World) {
    forall id :: id in w.store ==> FlagRight(w, id)
  }

  predicate ReportRight(log: seq<Entry>, i: nat, reported: bool)
    requires i < |log|
  {
    match log[i].event
    case StatusResponse(id, e) => e == LastRenewal(log[..i], id, reported).OrElse(Some(FOREVER))
    case RenewResponse(id, e) => e == LastRenewal(log[..i], id, reported).OrElse(Some(FOREVER))
    case _ => true
  }

  predicate ReportsRight(log: seq<Entry>, reported: bool) {
    forall i :: 0 <= i < |log| ==> ReportRight(log, i, reported)
  }

  lemma WasRenewedNext(log: seq<Entry>, e: Entry, id: string)
    ensures WasRenewed(log + [e], id) <==>
        WasRenewed(log, id) || (e.event.Renewed? && e.event.took && e.event.id == id)
  {
    var next := log + [e];
    assert next[|log|] == e && forall i :: 0 <= i < |log| ==> next[i] == log[i];
  }

  /** How a store call changes the renewed flag of one subscription. */
  lemma EffectOnFlagField(w: World, p: Process, o: Outcome, id: string)
    requires StoreOk(w) && ProcessOk(w, p) && id in EffectOf(w, p, o).store
    ensures EffectOf(w, p, o).store[id].renewed ==
            if id !in w.store then false
            else (p.RenewWriting? && p.id == id && o == Works && w.backend.Sqlite?) || w.store[id].renewed
  {
    if p.Inserting? {
      InsertedIsCopy(w.backend, p.s);
    }
    if p.RenewWriting? && p.id in w.store {
      WriteBack(w.backend, w.store[p.id], p.base, w.inserted[p.id], p.expires);
    }
    hide Kept, Merged, Edited, SameButExpiry, Refusal;
  }

  lemma EffectOnWasRenewed(w: World, t: nat, o: Outcome, id: string)
    ensures WasRenewed(Advance(w, t, o).log, id) <==>
            WasRenewed(w.log, id) || (At(w, t).RenewWriting? && At(w, t).id == id && o == Works && id in w.store)
  {
    var e := EffectOf(w, At(w, t), o);
    if e.event.Some? {
      WasRenewedNext(w.log, Entry(e.event.value, e.store), id);
    } else {
      assert w.log + [] == w.log;
    }
    hide WasRenewed, Merged, Edited, Insert;
  }

  lemma EffectOnFlag(w: World, t: nat, o: Outcome, id: string)
    requires Inv(w) && LogOk(w) && id in Advance(w, t, o).store
    requires id in w.store ==> FlagRight(w, id)
    ensures FlagRight(Advance(w, t, o), id)
  {
    var p := At(w, t);
    assert ProcessOk(w, p);
    EffectOnFlagField(w, p, o, id);
    EffectOnWasRenewed(w, t, o, id);
    if id in w.store {
      assert Copy(w.backend, w.inserted, id, w.store[id]);
    } else {
      EffectBringsNewIdsOnly(w, p, o);
      assert !WasRenewed(w.log, id);
    }
    hide EffectOf, WasRenewed, LogOk, Inv, ProcessOk, Kept;
  }

  lemma StepKeepsFlags(w: World, step: Step)
    requires Inv(w) && LogOk(w) && FlagsRight(w)
    ensures FlagsRight(Do(w, step))
  {
    hide Inv, LogOk, WasRenewed, EffectOf, NewSubscriber, Refusal;
    if step.Go? {
      var w' := Do(w, step);
      assert w' == Advance(w, step.t, step.o);
      hide Do;
      forall id | id in w'.store ensures FlagRight(w', id) {
        EffectOnFlag(w, step.t, step.o, id);
      }
    } else {
      StartKeepsFlags(w, step.t, step.request);
    }
  }

  lemma StartKeepsFlags(w: World, t: nat, request: Request)
    requires FlagsRight(w)
    ensures FlagsRight(Start(w, t, request))
  {
    var w' := Start(w, t, request);
    hide WasRenewed, NewSubscriber, Refusal;
    forall id | id in w'.store ensures FlagRight(w', id) {
      if w'.log != w.log {
        WasRenewedNext(w.log, Entry(Fault(request.id), w.store), id);
      }
    }
  }

  lemma ReportsStay(w: World, w': World, e: Option<Event>, reported: bool)
    requires ReportsRight(w.log, reported) && ExpiriesRight(w, reported)
    requires w'.log == w.log + (if e.Some? then [Entry(e.value, w'.store)] else [])
    requires e.Some? && (e.value.StatusResponse? || e.value.RenewResponse?) ==>
        e.value.id in w.store && e.value.expires == w.store[e.value.id].expires
    ensures ReportsRight(w'.log, reported)
  {
    hide LastRenewal;
    forall i | 0 <= i < |w'.log| ensures ReportRight(w'.log, i, reported) {
      assert w'.log[..i] == w.log[..i];
      if i < |w.log| {
        assert ReportRight(w.log, i, reported) && w'.log[i] == w.log[i];
      } else {
        assert w.log[..i] == w.log;
        assert e.value.StatusResponse? || e.value.RenewResponse? ==> ExpiryRight(w, e.value.id, reported);
      }
    }
  }

  lemma StepKeepsReports(w: World, step: Step, reported: bool)
    requires ReportsRight(w.log, reported) && ExpiriesRight(w, reported)
    ensures ReportsRight(Do(w, step).log, reported)
  {
    var w' := Do(w, step);
    hide ReportsRight, ExpiriesRight, NewSubscriber, Refusal, Merged, Edited, Insert;
    if step.Go? {
      var e := EffectOf(w, At(w, step.t), step.o);
      ReportsStay(w, w', e.event, reported);
    } else if w'.log != w.log {
      ReportsStay(w, w', Some(Fault(step.request.id)), reported);
    }
  }

  ghost predicate AllRight(w: World, reported: bool) {
    && Inv(w) && LogOk(w) && CopiesUpToDate(w)
    && ExpiriesRight(w, reported) && FlagsRight(w) && ReportsRight(w.log, reported)
  }

  /** No write of an Expires other than the stored one is lost. */
  predicate LosesNothing(w: World, steps: seq<Step>)
    decreases |steps|
  {
    steps == [] || (!LosesExpiry(w, steps[0]) && LosesNothing(Do(w, steps[0]), steps[1..]))
  }

  lemma {:induction false} SerialisedRunKeeps(w: World, steps: seq<Step>, reported: bool)
    requires AllRight(w, reported) && SerialisedRun(w, steps) && (reported ==> LosesNothing(w, steps))
    ensures AllRight(Run(w, steps), reported)
    decreases |steps|
  {
    hide Inv, LogOk, CopiesUpToDate, ExpiriesRight, FlagsRight, ReportsRight, Serialised, TakesBack, LosesExpiry, Do;
    if steps != [] {
      var step := steps[0];
      StepKeeps(w, step);
      StepKeepsLog(w, step);
      SerialisedKeepsCopies(w, step);
      StepKeepsExpiries(w, step, reported);
      StepKeepsFlags(w, step);
      StepKeepsReports(w, step, reported);
      SerialisedRunKeeps(Do(w, step), steps[1..], reported);
    }
  }

  lemma InitialIsRight(b: Backend, filtering: bool, reported: bool)
    ensures AllRight(Initial(b, filtering), reported)
  {
    InitialOk(b, filtering);
    hide Inv, LogOk;
  }

  /** What was subscribed under an id, with the last renewal. */
  function Described(w: World, id: string, reported: bool): Record
    requires id in w.inserted
  {
    Kept(w.backend, w.inserted[id]).(expires := LastRenewal(w.log, id, reported).OrElse(Some(FOREVER)),
                                     renewed := w.backend.Sqlite? && WasRenewed(w.log, id))
  }

  /** With serialised handlers, whatever the order of the requests: a stored subscription is what was subscribed, with
      the Expires of the last Renew that carried one and took effect (or "*") and the renewed flag; and that is the
      expiry that every GetStatusResponse and RenewResponse reported. If no write of an Expires other than the stored
      one was lost, it is also that of the last Renew that was reported as a success. */
  lemma SerialisedHandlers(b: Backend, filtering: bool, steps: seq<Step>, reported: bool)
    requires SerialisedRun(Initial(b, filtering), steps)
    requires reported ==> LosesNothing(Initial(b, filtering), steps)
    ensures var w := Run(Initial(b, filtering), steps);
            && (forall id :: id in w.store ==> (id in w.inserted && w.store[id] == Described(w, id, reported)))
            && ReportsRight(w.log, reported)
  {
    var w0 := Initial(b, filtering);
    InitialIsRight(b, filtering, reported);
    SerialisedRunKeeps(w0, steps, reported);
    InitialOk(b, filtering);
    RunKeeps(w0, steps);
    var w := Run(w0, steps);
    assert w.backend == b;
    hide Run, SerialisedRun, ReportsRight, LogOk, LastRenewal, WasRenewed, Kept, CopiesUpToDate, LosesNothing;
    forall id | id in w.store ensures id in w.inserted && w.store[id] == Described(w, id, reported) {
      assert Copy(b, w.inserted, id, w.store[id]) && ExpiryRight(w, id, reported) && FlagRight(w, id);
    }
  }

  /** That condition is exact: with serialised handlers, every expiry is always that of the last Renew reported as a
      success (or "*") if and only if no such write is lost. */
  lemma {:induction false} ReportedRenewalsIff(w: World, steps: seq<Step>)
    requires Inv(w) && LogOk(w) && CopiesUpToDate(w) && ExpiriesRight(w, true) && SerialisedRun(w, steps)
    ensures (forall k :: 0 <= k <= |steps| ==> ExpiriesRight(Run(w, steps[..k]), true)) <==> LosesNothing(w, steps)
  {
    PrefixesAreHarmless(w, steps);
    ExpiriesRightIff(w, steps, true);
    hide Run, ExpiriesRight, LosesNothing, Harmless, Inv, LogOk, SerialisedRun, CopiesUpToDate;
  }

  lemma {:induction false} PrefixesAreHarmless(w: World, steps: seq<Step>)
    requires CopiesUpToDate(w) && SerialisedRun(w, steps)
    ensures LosesNothing(w, steps) <==> forall k :: 0 <= k < |steps| ==> Harmless(Run(w, steps[..k]), steps[k], true)
    decreases |steps|
  {
    hide CopiesUpToDate, Serialised, TakesBack, LosesExpiry, Do;
    if steps != [] {
      var w', rest := Do(w, steps[0]), steps[1..];
      SerialisedKeepsCopies(w, steps[0]);
      PrefixesAreHarmless(w', rest);
      RunOfPrefixes(w, steps);
      assert steps[..0] == [];
      forall k | 0 <= k < |rest| ensures Run(w', rest[..k]) == Run(w, steps[..k + 1]) && rest[k] == steps[k + 1] {
      }
      hide Run, Harmless;
      assert LosesNothing(w, steps) <==> Harmless(Run(w, steps[..0]), steps[0], true) && LosesNothing(w', rest);
      if forall k :: 0 <= k < |steps| ==> Harmless(Run(w, steps[..k]), steps[k], true) {
        forall k | 0 <= k < |rest| ensures Harmless(Run(w', rest[..k]), rest[k], true) {
          assert Harmless(Run(w, steps[..k + 1]), steps[k + 1], true);
        }
      }
      if LosesNothing(w, steps) {
        forall k | 0 <= k < |steps| ensures Harmless(Run(w, steps[..k]), steps[k], true) {
          assert k > 0 ==> Harmless(Run(w', rest[..k - 1]), rest[k - 1], true);
        }
      }
    }
  }

  /** A Renew with a new Expires whose write is lost: it is reported as a success, and answered with the old expiry. */
  lemma LostRenewIsReported(w: World, t: nat, id: string, expires: string)
    requires Inv(w) && id in w.store && At(w, t) == Idle && w.store[id].expires != Some(expires)
    ensures var w' := Run(w, LostRenew(t, id, expires));
            && w'.store == w.store && LastRenewal(w'.log, id, true) == Some(expires)
            && w'.log == w.log + [Entry(Renewed(id, Some(expires), false), w.store),
                                  Entry(RenewResponse(id, w.store[id].expires), w.store)]
            && !ExpiriesRight(w', true)
  {
    var steps := LostRenew(t, id, expires);
    var w' := Run(w, steps);
    var e, f := Entry(Renewed(id, Some(expires), false), w.store),
        Entry(RenewResponse(id, w.store[id].expires), w.store);
    hide LastRenewal, Inv, Run, Do;
    RunThree(w, steps[0], steps[1], steps[2]);
    RunAppends(w, steps[..3], [steps[3]]);
    assert steps == steps[..3] + [steps[3]] && steps[..3] == [steps[0], steps[1], steps[2]];
    RunOne(Run(w, steps[..3]), steps[3]);
    WriteIsLost(w, t, id, expires);
    LastRenewalOfNext(w.log, e, id, true);
    LastRenewalOfNext(w.log + [e], f, id, true);
    assert w.log + [e] + [f] == w.log + [e, f];
    assert w'.log == w.log + [e, f] && w'.store == w.store;
    assert !ExpiryRight(w', id, true);
  }

  lemma WriteIsLost(w: World, t: nat, id: string, expires: string)
    requires id in w.store && At(w, t) == Idle
    ensures var w' := Do(Do(Do(Do(w, Begin(t, Renew(id, Some(expires)))), Go(t, Works)), Go(t, Lost)), Go(t, Works));
            && w'.store == w.store
            && w'.log == w.log + [Entry(Renewed(id, Some(expires), false), w.store),
                                  Entry(RenewResponse(id, w.store[id].expires), w.store)]
  {
    hide Merged, Edited;
    var w2 := Do(Do(w, Begin(t, Renew(id, Some(expires)))), Go(t, Works));
    assert At(w2, t) == RenewWriting(id, Some(expires), w.store[id]) && w2.store == w.store && w2.log == w.log;
    var w3 := Do(w2, Go(t, Lost));
    assert At(w3, t) == RenewRereading(id) && w3.store == w.store;
    assert w3.log == w.log + [Entry(Renewed(id, Some(expires), false), w.store)];
  }

  function LostRenew(t: nat, id: string, expires: string): seq<Step> {
    [Begin(t, Renew(id, Some(expires))), Go(t, Works), Go(t, Lost), Go(t, Works)]
  }

  // ---- Handlers that are not serialised ---------------------------------------------------------------------

  function StaleRenew(t: nat, u: nat, id: string, expires: string): seq<Step> {
    [Begin(t, Renew(id, None)), Go(t, Works), Begin(u, Renew(id, Some(expires))), Go(u, Works), Go(u, Works),
        Go(t, Works)]
  }

  lemma RunSix(w: World, steps: seq<Step>)
    requires |steps| == 6
    ensures Run(w, steps) == Do(Do(Do(Do(Do(Do(w, steps[0]), steps[1]), steps[2]), steps[3]), steps[4]), steps[5])
  {
    hide Do;
    var r1, r2, r3, r4 := steps[1..], steps[2..], steps[3..], steps[4..];
    var r5 := steps[5..];
    assert r1[1..] == r2 && r2[1..] == r3 && r3[1..] == r4 && r4[1..] == r5 && r5[1..] == [];
    var w1 := Do(w, steps[0]);
    var w2 := Do(w1, steps[1]);
    var w3 := Do(w2, steps[2]);
    var w4 := Do(w3, steps[3]);
    var w5 := Do(w4, steps[4]);
    assert Run(w5, r5) == Do(w5, steps[5]);
    assert Run(w4, r4) == Run(w5, r5);
    assert Run(w3, r3) == Run(w4, r4);
    assert Run(w2, r2) == Run(w3, r3);
    assert Run(w1, r1) == Run(w2, r2);
  }

  /** A Renew without Expires that overlaps another Renew of the same id takes the other's expiry back, although both
      take effect and are reported as a success. */
  lemma StaleRenewLosesExpiry(w: World, t: nat, u: nat, id: string, expires: string)
    requires Inv(w) && id in w.store && t != u && At(w, t) == At(w, u) == Idle
    ensures var w' := Run(w, StaleRenew(t, u, id, expires));
            && id in w'.store && w'.store[id].expires == w.store[id].expires
            && forall reported :: LastRenewal(w'.log, id, reported) == Some(expires)
  {
    assert Copy(w.backend, w.inserted, id, w.store[id]);
    var r, s := w.store[id], w.inserted[id];
    hide Merged, Edited, Kept, LastRenewal, Inv, Legal, Do, Run;
    RunSix(w, StaleRenew(t, u, id, expires));
    BothRead(w, t, u, id, expires);
    var w4 := Do(Do(Do(Do(w, Begin(t, Renew(id, None))), Go(t, Works)), Begin(u, Renew(id, Some(expires)))),
        Go(u, Works));
    BothWrite(w4, t, u, id, expires, r, s);
  }

  /** Both read the same record. */
  lemma BothRead(w: World, t: nat, u: nat, id: string, expires: string)
    requires id in w.store && t != u && At(w, t) == At(w, u) == Idle
    ensures var w1 := Do(Do(w, Begin(t, Renew(id, None))), Go(t, Works));
            var w' := Do(Do(w1, Begin(u, Renew(id, Some(expires)))), Go(u, Works));
            && At(w', u) == RenewWriting(id, Some(expires), w.store[id])
                  && At(w', t) == RenewWriting(id, None, w.store[id])
            && w'.store == w.store && w'.log == w.log && w'.backend == w.backend
  {
    hide Merged, Edited, Kept;
    var w2 := Do(Do(w, Begin(t, Renew(id, None))), Go(t, Works));
    assert At(w2, t) == RenewWriting(id, None, w.store[id]) && At(w2, u) == Idle && w2.store == w.store
        && w2.log == w.log;
  }

  /** The one without Expires writes last. */
  lemma BothWrite(w: World, t: nat, u: nat, id: string, expires: string, r: Record, s: Record)
    requires id in w.store && t != u && w.store[id] == r && SameButExpiry(w.backend, r, s) && r.expires.Some?
    requires At(w, u) == RenewWriting(id, Some(expires), r) && At(w, t) == RenewWriting(id, None, r)
    ensures var w' := Do(Do(w, Go(u, Works)), Go(t, Works));
            && id in w'.store && w'.store[id].expires == r.expires
            && forall reported :: LastRenewal(w'.log, id, reported) == Some(expires)
  {
    hide Merged, Edited, Kept, LastRenewal;
    var w5 := Do(w, Go(u, Works));
    var w6 := Do(w5, Go(t, Works));
    WriteBack(w.backend, r, r, s, Some(expires));
    var r5 := Merged(w.backend, r, Edited(r, Some(expires)));
    assert w5.store[id] == r5 && At(w5, t) == RenewWriting(id, None, r);
    assert SameButExpiry(w.backend, r5, s);
    WriteBack(w.backend, r5, r, s, None);
    forall reported ensures LastRenewal(w6.log, id, reported) == Some(expires) {
      LastRenewalOfNext(w.log, Entry(Renewed(id, Some(expires), true), w5.store), id, reported);
      LastRenewalOfNext(w5.log, Entry(Renewed(id, None, true), w6.store), id, reported);
    }
  }

  // ---- Filters ----------------------------------------------------------------------------------------------

  /** In every run, over the registry: a stored subscriber with a filter has a dialect that the validation accepts;
      writing a subscriber back on Renew keeps it so. The SQLite table holds no dialect at all. */
  lemma StoredDialects(b: Backend, filtering: bool, steps: seq<Step>, id: string)
    requires id in Run(Initial(b, filtering), steps).store
    ensures var r := Run(Initial(b, filtering), steps).store[id];
            && (b.Registry? && r.filter.Some? ==> DialectAccepted(filtering, r.filterDialect))
            && (b.Sqlite? ==> r.filterDialect == None)
  {
    InitialOk(b, filtering);
    RunKeeps(Initial(b, filtering), steps);
    var w := Run(Initial(b, filtering), steps);
    hide Run, LogOk;
    assert Copy(w.backend, w.inserted, id, w.store[id]) && Legal(w.filtering, id, w.inserted[id]);
  }

  /** A Subscribe request that is refused changes nothing in the store, and nothing later comes of it. */
  lemma RefusedSubscribe(w: World, t: nat, id: string, element: Option<Node>)
    requires Inv(w) && At(w, t) == Idle && id !in w.minted && Refusal(w.filtering, NewSubscriber(id, element)).Some?
    ensures var w' := Do(w, Begin(t, Subscribe(id, element)));
            w'.store == w.store && w'.inserted == w.inserted && At(w', t) == Idle
                && w'.log == w.log + [Entry(Fault(id), w.store)]
    ensures forall steps :: id !in Run(Do(w, Begin(t, Subscribe(id, element))), steps).inserted
  {
    var w' := Do(w, Begin(t, Subscribe(id, element)));
    StepKeeps(w, Begin(t, Subscribe(id, element)));
    hide Refusal, NewSubscriber, Run;
    forall u ensures !(At(w', u).Inserting? && At(w', u).id == id) {
      assert ProcessOk(w, At(w, u));
    }
    forall steps ensures id !in Run(w', steps).inserted {
      assert NobodyInserts(w', id);
      NeverInserted(w', steps, id);
    }
  }

  ghost predicate NobodyInserts(w: World, id: string) {
    id in w.minted && id !in w.inserted && forall u :: !(At(w, u).Inserting? && At(w, u).id == id)
  }

  lemma EffectInsertsOwn(w: World, p: Process, o: Outcome)
    ensures var e := EffectOf(w, p, o);
            && !e.next.Inserting?
            && (e.inserted == w.inserted || (p.Inserting? && e.inserted == w.inserted[p.id := p.s]))
  {
    hide Merged, Edited, Insert, Insertable, Updatable, Remove;
  }

  lemma NobodyInsertsStays(w: World, step: Step, id: string)
    requires NobodyInserts(w, id)
    ensures NobodyInserts(Do(w, step), id)
  {
    var w' := Do(w, step);
    hide Refusal, NewSubscriber, EffectOf;
    assert !(At(w, step.t).Inserting? && At(w, step.t).id == id);
    if step.Go? {
      EffectInsertsOwn(w, At(w, step.t), step.o);
    }
    assert forall u :: u != step.t ==> At(w', u) == At(w, u);
  }

  lemma {:induction false} NeverInserted(w: World, steps: seq<Step>, id: string)
    requires NobodyInserts(w, id)
    ensures id !in Run(w, steps).inserted
    decreases |steps|
  {
    if steps != [] {
      NobodyInsertsStays(w, steps[0], id);
      hide Do;
      NeverInserted(Do(w, steps[0]), steps[1..], id);
    }
  }

  // ---- One request alone ------------------------------------------------------------------------------------

  lemma RunOne(w: World, a: Step)
    ensures Run(w, [a]) == Do(w, a)
  {
    assert [a][1..] == [];
  }

  lemma RunTwo(w: World, a: Step, b: Step)
    ensures Run(w, [a, b]) == Do(Do(w, a), b)
  {
    assert [a, b][1..] == [b] && [b][1..] == [];
    hide Do;
    assert Run(Do(w, a), [b]) == Run(Do(Do(w, a), b), []);
  }

  lemma {:induction false} RunAppends(w: World, steps: seq<Step>, more: seq<Step>)
    ensures Run(w, steps + more) == Run(Run(w, steps), more)
    decreases |steps|
  {
    if steps == [] {
      assert steps + more == more;
    } else {
      assert (steps + more)[0] == steps[0] && (steps + more)[1..] == steps[1..] + more;
      RunAppends(Do(w, steps[0]), steps[1..], more);
    }
  }

  lemma RunThree(w: World, a: Step, b: Step, c: Step)
    ensures Run(w, [a, b, c]) == Do(Do(Do(w, a), b), c)
  {
    assert [a, b, c][1..] == [b, c];
    hide Do;
    RunTwo(Do(w, a), b, c);
  }

  /** The calls of a handler that nobody interrupts change the store as the handler as a whole does. */
  lemma SubscribeAlone(w: World, t: nat, id: string, element: Option<Node>, inserted: Outcome)
    requires At(w, t) == Idle && id !in w.minted
    ensures Run(w, [Begin(t, Subscribe(id, element)), Go(t, inserted)]).store
         == AfterSubscribe(w.backend, w.filtering, w.store, NewSubscriber(id, element), inserted)
  {
    RunTwo(w, Begin(t, Subscribe(id, element)), Go(t, inserted));
    NewSubscriberIsLegal(id, element);
    hide NewSubscriber, Refusal, Run, Kept, Insert, Insertable;
  }

  lemma RenewAlone(w: World, t: nat, id: string, expires: Option<string>, read: Outcome, written: Outcome)
    requires At(w, t) == Idle
    ensures Run(w, [Begin(t, Renew(id, expires)), Go(t, read), Go(t, written)]).store
         == AfterRenew(w.backend, w.store, id, expires, read, written)
  {
    RunThree(w, Begin(t, Renew(id, expires)), Go(t, read), Go(t, written));
    hide Run, Merged, Edited;
  }

  lemma UnsubscribeAlone(w: World, t: nat, id: string, read: Outcome, removed: Outcome)
    requires At(w, t) == Idle
    ensures Run(w, [Begin(t, Unsubscribe(id)), Go(t, read), Go(t, removed)]).store
        == AfterUnsubscribe(w.store, id, read, removed)
  {
    RunThree(w, Begin(t, Unsubscribe(id)), Go(t, read), Go(t, removed));
    hide Run;
  }
}
