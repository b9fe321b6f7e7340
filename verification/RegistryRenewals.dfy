/** Renewals over the registry, one registry call at a time: what overlapping write-backs can change, and what not. */
module RegistryRenewals {
  import opened Options
  import opened Subscribers
  import opened Stores
  import opened Requests
  import opened RegistryPaths
  import opened RegistryStore
  import opened RegistryInterleaving
  import opened RegistryRaces

  /** The Expires that the Renews of a run carry, each with the id it is for. */
  type Expiries = set<(string, string)>

  /** The expiry is the inserted one, or one that a Renew of the id carried. */
  predicate ExpiryFrom(carried: Expiries, s: Record, e: Option<string>) {
    e == Some(s.expires.GetOr("*")) || (e.Some? && s.id.Some? && (s.id.value, e.value) in carried)
  }

  /** The filter and dialect are those of the inserted subscriber s, and the expiry is one that renewing it can give. */
  predicate Renewal(carried: Expiries, r: Record, s: Record) {
    r.filter == s.filter && r.filterDialect == s.filterDialect && ExpiryFrom(carried, s, r.expires)
  }

  predicate Keeps(carried: Expiries, res: Resource, s: Record) {
    && Property(res.properties, "filterValue") == s.filter
    && Property(res.properties, "filterDialect") == s.filterDialect
    && ExpiryFrom(carried, s, Property(res.properties, "expires"))
  }

  predicate Inserted(carried: Expiries, inserted: map<string, Record>, s: Record) {
    s.id.Some? && s.id.value in inserted && Renewal(carried, s, inserted[s.id.value])
  }

  predicate AllRenewals(carried: Expiries, inserted: map<string, Record>, found: map<string, Found>) {
    forall id :: id in found ==> id in inserted && Renewal(carried, found[id].r, inserted[id])
  }

  /** A pending update writes the filter and dialect of its id, to a resource that has them; a scan has read such. */
  predicate CallKeeps(carried: Expiries, inserted: map<string, Record>, p: Process) {
    match p
    case UpdateRead(s) => Inserted(carried, inserted, s)
    case UpdateGet(s, _) => Inserted(carried, inserted, s)
    case UpdatePut(s, _, held) => Inserted(carried, inserted, s) && Keeps(carried, held, inserted[s.id.value])
    case Scanning(_, _, found) => AllRenewals(carried, inserted, found)
    case _ => true
  }

  predicate EventKeeps(carried: Expiries, inserted: map<string, Record>, e: Event) {
    AllRenewals(carried, inserted, Answer(e))
  }

  predicate ResourceKeeps(carried: Expiries, w: World, id: string)
    requires id in w.inserted
  {
    PathFor(w, id) in w.reg ==> Keeps(carried, w.reg[PathFor(w, id)], w.inserted[id])
  }

  ghost predicate AllKept(carried: Expiries, w: World) {
    && (forall id :: id in w.inserted ==> ResourceKeeps(carried, w, id))
    && (forall u :: CallKeeps(carried, w.inserted, At(w, u)))
    && (forall i :: 0 <= i < |w.log| ==> EventKeeps(carried, w.inserted, w.log[i]))
  }

  /** The subscriber is what a retrieve or a scan answered for the id, edited as Renew does. */
  ghost predicate WrittenBack(carried: Expiries, log: seq<Event>, s: Record, id: string, expires: Option<string>) {
    && (expires.Some? ==> (id, expires.value) in carried)
    && exists i :: 0 <= i < |log| && log[i].Returned? && ReturnOf(log[i], id)
        && s == Edited(log[i].found[id].r, expires)
  }

  /** Every update that begins is such a Renew. */
  ghost predicate WritesBack(carried: Expiries, w: World, step: Step) {
    step.Begin? && step.call.CallUpdate? ==>
      exists id, expires :: WrittenBack(carried, w.log, step.call.s, id, expires)
  }

  ghost predicate RenewalsOnly(carried: Expiries, w: World, steps: seq<Step>)
    decreases |steps|
  {
    steps == [] || (WritesBack(carried, w, steps[0]) && RenewalsOnly(carried, Do(w, steps[0]), steps[1..]))
  }

  // ---- Resources --------------------------------------------------------------------------------------------

  lemma NewKeeps(carried: Expiries, s: Record)
    ensures Keeps(carried, NewResource(s), s)
  {
  }

  lemma UpdatedKeeps(carried: Expiries, res: Resource, edited: Record, s: Record)
    requires Keeps(carried, res, s) && Renewal(carried, edited, s)
    ensures Keeps(carried, UpdatedResource(res, edited), s)
  {
  }

  lemma ExtractedKeeps(carried: Expiries, res: Resource, s: Record)
    requires Keeps(carried, res, s)
    ensures ExtractSubscriber(res).Some? ==> Renewal(carried, ExtractSubscriber(res).value, s)
  {
  }

  lemma ResourceStays(carried: Expiries, w: World, step: Step, id: string)
    requires Inv(w) && AllKept(carried, w) && id in w.inserted
    ensures var w' := Do(w, step);
            id in w'.inserted && w'.inserted[id] == w.inserted[id] && ResourceKeeps(carried, w', id)
  {
    hide Collection, LookupPath, InsertPath, NewResource, ExtractSubscriber, UpdatedResource, Keeps, Renewal;
    hide ReadFor, ReadAll, AllRenewals;
    var g := w.inserted[id].filter;
    assert IsCollection(Collection(g)) && ResourceKeeps(carried, w, id);
    NeverTheIndex(g, id);
    if step.Go? {
      var p := At(w, step.t);
      assert ProcessOk(w, p) && CallKeeps(carried, w.inserted, p);
      match p
      case InsertPut(s) =>
        NewKeeps(carried, s);
        InsertPathIsOwn(s.filter, s.id.value, Collection(g), id);
      case UpdatePut(s, c, held) =>
        assert s.id.value in map[s.id.value := c];
        UpdatedKeeps(carried, held, s, w.inserted[s.id.value]);
        Apart(Collection(g), id, c, s.id.value);
      case _ =>
    }
  }

  /** The resource of an id whose insert begins is not there yet. */
  lemma NewIdHasNoResource(w: World, step: Step, id: string)
    requires Inv(w) && id !in w.inserted && id in Do(w, step).inserted
    ensures PathFor(Do(w, step), id) !in Do(w, step).reg
  {
    StepKeeps(w, step);
    var w' := Do(w, step);
    assert Inserting(At(w', step.t), id) by {
      hide Inv, LookupPath, EffectOf, ReadFor;
    }
  }

  // ---- Pending calls and answers ----------------------------------------------------------------------------

  /** What is read of one id. */
  lemma ReadForKeeps(carried: Expiries, w: World, id: string, c: string)
    requires Inv(w) && AllKept(carried, w) && NamesOwn(map[id := c], w.inserted)
    ensures AllRenewals(carried, w.inserted, ReadFor(w, id, c))
  {
    assert id in map[id := c] && ResourceKeeps(carried, w, id);
    hide Inv, AllKept, Collection, LookupPath, ExtractSubscriber, Keeps, Renewal;
    var path := LookupPath(c, id);
    if path in w.reg {
      ExtractedKeeps(carried, w.reg[path], w.inserted[id]);
      if ExtractSubscriber(w.reg[path]).Some? {
        RenewalOfAny(carried, ExtractSubscriber(w.reg[path]).value, w.inserted[id], Some(id));
      }
    }
  }

  lemma RenewalOfAny(carried: Expiries, r: Record, s: Record, id: Option<string>)
    requires Renewal(carried, r, s)
    ensures Renewal(carried, r.(id := id), s)
  {
  }

  lemma ReadAllKeeps(carried: Expiries, w: World, filter: Option<string>)
    requires Inv(w) && AllKept(carried, w)
    ensures AllRenewals(carried, w.inserted, ReadAll(w, filter))
  {
    var found := ReadAll(w, filter);
    forall id | id in found ensures id in w.inserted && Renewal(carried, found[id].r, w.inserted[id]) {
      ListingReads(w.reg, Collection(filter), id);
      assert PathOk(w, filter, id) && ResourceKeeps(carried, w, id);
      hide Inv, AllKept, Collection, LookupPath, ExtractSubscriber, Keeps, Renewal;
      ExtractedKeeps(carried, w.reg[PathFor(w, id)], w.inserted[id]);
    }
  }

  /** A registry call of a pending update or of a read. */
  lemma CallStays(carried: Expiries, w: World, p: Process)
    requires Inv(w) && AllKept(carried, w) && ProcessOk(w, p) && CallKeeps(carried, w.inserted, p)
    ensures var e := EffectOf(w, p);
            && CallKeeps(carried, w.inserted, e.next)
            && (e.event.Some? ==> EventKeeps(carried, w.inserted, e.event.value))
  {
    if p.UpdateGet? {
      assert p.s.id.value in map[p.s.id.value := p.collection] && ResourceKeeps(carried, w, p.s.id.value);
    }
    if p.RetrieveGet? {
      ReadForKeeps(carried, w, p.id, p.collection);
    }
    if p.Listing? {
      ReadAllKeeps(carried, w, p.filter);
    }
    hide Inv, AllKept, ProcessOk, Collection, LookupPath, PutSubscription, WriteIndex, WithEntry;
    hide UpdatedResource, Index, Keeps, Renewal, ReadFor, ReadAll;
  }

  /** A step that is no registry call, or reads one entry of a scan. */
  lemma OtherStays(carried: Expiries, w: World, step: Step)
    requires Inv(w) && AllKept(carried, w) && WritesBack(carried, w, step) && !step.Go?
    ensures CallKeeps(carried, Do(w, step).inserted, At(Do(w, step), step.t)) && Do(w, step).log == w.log
  {
    assert CallKeeps(carried, w.inserted, At(w, step.t));
    if step.Begin? && step.call.CallUpdate? {
      WriteBackStarts(carried, w, step.call.s);
    }
    if step.Pick? {
      PickStays(carried, w, step.t, step.id);
    }
    hide Inv, AllKept, WritesBack, ReadFor, Keeps, Renewal, SlashFree, AllRenewals;
  }

  lemma PickStays(carried: Expiries, w: World, t: nat, id: string)
    requires Inv(w) && AllKept(carried, w)
    ensures var w' := Do(w, Pick(t, id)); CallKeeps(carried, w'.inserted, At(w', t)) && w'.log == w.log
  {
    var p := At(w, t);
    assert CallKeeps(carried, w.inserted, p) && ProcessOk(w, p);
    if p.Scanning? && id in p.left && id in p.snapshot {
      assert NamesOwn(map[id := p.snapshot[id]], w.inserted);
      ReadForKeeps(carried, w, id, p.snapshot[id]);
    }
    hide Inv, AllKept, ReadFor, Keeps, Renewal, ProcessOk;
  }

  lemma WriteBackStarts(carried: Expiries, w: World, s: Record)
    requires Inv(w) && AllKept(carried, w) && exists id, expires :: WrittenBack(carried, w.log, s, id, expires)
    ensures Inserted(carried, w.inserted, s)
  {
    var id, expires :| WrittenBack(carried, w.log, s, id, expires);
    var i :| 0 <= i < |w.log| && w.log[i].Returned? && ReturnOf(w.log[i], id)
        && s == Edited(w.log[i].found[id].r, expires);
    assert EventKeeps(carried, w.inserted, w.log[i]) && EventOk(w, w.log[i]);
    assert w.inserted[id].id == Some(id);
    hide Inv, AllKept, OwnRecord;
  }

  lemma CallStaysOverInsert(carried: Expiries, inserted: map<string, Record>, inserted': map<string, Record>,
      p: Process)
    requires CallKeeps(carried, inserted, p)
    requires forall id :: id in inserted ==> id in inserted' && inserted'[id] == inserted[id]
    ensures CallKeeps(carried, inserted', p)
  {
    hide Keeps, Renewal;
  }

  lemma CallsStayKept(carried: Expiries, w: World, step: Step)
    requires Inv(w) && AllKept(carried, w) && WritesBack(carried, w, step)
    ensures var w' := Do(w, step);
            && CallKeeps(carried, w'.inserted, At(w', step.t))
            && forall k :: |w.log| <= k < |w'.log| ==> EventKeeps(carried, w'.inserted, w'.log[k])
  {
    if step.Go? {
      var p := At(w, step.t);
      assert CallKeeps(carried, w.inserted, p) && ProcessOk(w, p);
      CallStays(carried, w, p);
    } else {
      OtherStays(carried, w, step);
    }
    hide Inv, AllKept, WritesBack, EffectOf, CallKeeps, EventKeeps, ReadFor, ProcessOk, SlashFree;
  }

  lemma ResourcesStayKept(carried: Expiries, w: World, step: Step)
    requires Inv(w) && AllKept(carried, w)
    ensures var w' := Do(w, step);
            && (forall id :: id in w.inserted ==> id in w'.inserted && w'.inserted[id] == w.inserted[id])
            && (forall id :: id in w'.inserted ==> ResourceKeeps(carried, w', id))
  {
    var w' := Do(w, step);
    hide Inv, AllKept, Do, PathFor, Keeps;
    forall id | id in w.inserted
        ensures id in w'.inserted && w'.inserted[id] == w.inserted[id] && ResourceKeeps(carried, w', id) {
      ResourceStays(carried, w, step, id);
    }
    forall id | id in w'.inserted ensures ResourceKeeps(carried, w', id) {
      if id !in w.inserted { NewIdHasNoResource(w, step, id); }
    }
  }

  lemma StepKeepsAll(carried: Expiries, w: World, step: Step)
    requires Inv(w) && AllKept(carried, w) && WritesBack(carried, w, step)
    ensures AllKept(carried, Do(w, step))
  {
    var w' := Do(w, step);
    ResourcesStayKept(carried, w, step);
    CallsStayKept(carried, w, step);
    StepGrowsLog(w, step);
    hide Inv, Do, PathFor, Renewal, ResourceKeeps, WritesBack, CallKeeps;
    forall u ensures CallKeeps(carried, w'.inserted, At(w', u)) {
      if u != step.t {
        OthersDoNotMove(w, step, u);
        CallStaysOverInsert(carried, w.inserted, w'.inserted, At(w, u));
      }
    }
    forall i | 0 <= i < |w'.log| ensures EventKeeps(carried, w'.inserted, w'.log[i]) {
      if i < |w.log| { assert w'.log[i] == w.log[i] && EventKeeps(carried, w.inserted, w.log[i]); }
    }
  }

  lemma {:induction false} RenewalsKeepAll(carried: Expiries, w: World, steps: seq<Step>)
    requires Inv(w) && AllKept(carried, w) && RenewalsOnly(carried, w, steps)
    ensures Inv(Run(w, steps)) && AllKept(carried, Run(w, steps))
    decreases |steps|
  {
    hide Inv, AllKept, WritesBack, Do;
    if steps != [] {
      StepKeeps(w, steps[0]);
      StepKeepsAll(carried, w, steps[0]);
      RenewalsKeepAll(carried, Do(w, steps[0]), steps[1..]);
    }
  }

  /** What is answered for an id has the address, filter and dialect that were inserted with it, and the expiry
      inserted with it ("*" for none) or one that a Renew of that id carried. */
  ghost predicate AnswersRenewals(carried: Expiries, w: World, e: Event) {
    forall id :: ReturnOf(e, id) ==>
      var r := Answer(e)[id].r;
      id in w.inserted && r.notifyTo == w.inserted[id].notifyTo && Renewal(carried, r, w.inserted[id])
  }

  ghost predicate AllAnswersRenewals(carried: Expiries, w: World) {
    forall i :: 0 <= i < |w.log| ==> AnswersRenewals(carried, w, w.log[i])
  }

  /** That is so in every interleaving of inserts, removes, reads and renewals, with any registry call failing. */
  lemma RenewalsChangeExpiryOnly(carried: Expiries, steps: seq<Step>)
    requires RenewalsOnly(carried, INITIAL, steps)
    ensures AllAnswersRenewals(carried, Run(INITIAL, steps))
  {
    InitialInv();
    RenewalsKeepAll(carried, INITIAL, steps);
    var w := Run(INITIAL, steps);
    hide Run, Renewal, RenewalsOnly;
    forall i | 0 <= i < |w.log| ensures AnswersRenewals(carried, w, w.log[i]) {
      assert EventOk(w, w.log[i]) && EventKeeps(carried, w.inserted, w.log[i]);
    }
  }

  predicate OnlyAccepted(w: World, filtering: bool) {
    forall id :: id in w.inserted ==> Refusal(filtering, w.inserted[id]).None?
  }

  /** So if only accepted subscribers are inserted, what is answered has an accepted dialect with its filter. */
  lemma ReturnedDialectsAreAccepted(carried: Expiries, steps: seq<Step>, filtering: bool)
    requires RenewalsOnly(carried, INITIAL, steps) && OnlyAccepted(Run(INITIAL, steps), filtering)
    ensures var w := Run(INITIAL, steps);
            forall i, id :: 0 <= i < |w.log| && ReturnOf(w.log[i], id) ==>
              var r := Answer(w.log[i])[id].r;
              r.filter.Some? ==> DialectAccepted(filtering, r.filterDialect)
  {
    RenewalsChangeExpiryOnly(carried, steps);
    var w := Run(INITIAL, steps);
    hide Run, RenewalsOnly, DialectAccepted, ExpiryFrom;
    forall i, id | 0 <= i < |w.log| && ReturnOf(w.log[i], id) && Answer(w.log[i])[id].r.filter.Some?
        ensures DialectAccepted(filtering, Answer(w.log[i])[id].r.filterDialect) {
      assert AnswersRenewals(carried, w, w.log[i]);
      assert Refusal(filtering, w.inserted[id]).None?;
    }
  }
}
