/** When the scan of the index is safe: the source sets the id of every subscriber it extracts, also where extracting
    one from an indexed resource gave NULL. */
module RegistryScans {
  import opened Options
  import opened Subscribers
  import opened Stores
  import opened RegistryPaths
  import opened RegistryStore
  import opened RegistryInterleaving
  import opened RegistryRaces

  /** The scan is about to read the entry of the id, and to find a resource that is no subscriber. */
  predicate MeetsNull(w: World, p: Process, id: string) {
    && p.Scanning? && id in p.left && id in p.snapshot
    && LookupPath(p.snapshot[id], id) in w.reg && ExtractSubscriber(w.reg[LookupPath(p.snapshot[id], id)]).None?
  }

  /** Only subscribers of some kind were inserted. */
  ghost predicate OfKind(w: World, kind: iset<Record>) {
    forall id :: id in w.inserted ==> w.inserted[id] in kind
  }

  /** No run over subscribers of the kind brings a scan to a NULL. */
  ghost predicate ScansAreSafe(kind: iset<Record>) {
    forall steps: seq<Step>, t, id :: OfKind(Run(INITIAL, steps), kind) ==>
      !MeetsNull(Run(INITIAL, steps), At(Run(INITIAL, steps), t), id)
  }

  /** Subscribers that can be inserted and are put into a collection, but have no address. */
  predicate Unreadable(s: Record) {
    s.id.Some? && SlashFree(s.id.value) && s.filter.Some? && Address(s.notifyTo).None?
  }

  /** In every interleaving: a scan meets a NULL exactly where the resource of a subscriber without an address is. */
  lemma NullHasNoAddress(w: World, t: nat, id: string)
    requires Inv(w) && At(w, t).Scanning? && id in At(w, t).left && id in At(w, t).snapshot
    ensures id in w.inserted
    ensures MeetsNull(w, At(w, t), id) <==> PathFor(w, id) in w.reg && Unreadable(w.inserted[id])
  {
    hide Collection, LookupPath, NewResource, SerializeEndpoint, ExtractSubscriber;
    assert ProcessOk(w, At(w, t));
    assert PathOk(w, w.inserted[id].filter, id);
    if PathFor(w, id) in w.reg {
      OwnResourceReads(w, id, w.reg[PathFor(w, id)]);
    }
  }

  /** A scan meets the resource of a subscriber without an address right after its Subscribe. */
  lemma ScanMeetsNull(s: Record) returns (steps: seq<Step>)
    requires Unreadable(s)
    ensures var w := Run(INITIAL, steps); w.inserted == map[s.id.value := s] && MeetsNull(w, At(w, 1), s.id.value)
  {
    var before := InsertAlone(s);
    var w := Run(INITIAL, before);
    steps := before + [Begin(1, CallScan), Go(1)];
    RunAppends(INITIAL, before, [Begin(1, CallScan), Go(1)]);
    RunKeepsFromInitial(steps);
    assert PathFor(w, s.id.value) == LookupPath(Collection(s.filter), s.id.value);
    hide *;
    ScanBegins(w);
    NullIsMet(Run(INITIAL, steps), s);
  }

  lemma ScanBegins(w: World)
    requires At(w, 1) == Idle
    ensures var w' := Run(w, [Begin(1, CallScan), Go(1)]);
            && w'.reg == w.reg && w'.inserted == w.inserted
            && At(w', 1) == Scanning(Index(w.reg), Index(w.reg).Keys, map[])
            && forall id :: id in w.inserted ==> PathFor(w', id) == PathFor(w, id)
  {
    RunTwo(w, Begin(1, CallScan), Go(1));
    hide Index;
    assert At(Do(w, Begin(1, CallScan)), 1) == ScanRead;
  }

  lemma NullIsMet(w: World, s: Record)
    requires Inv(w) && Unreadable(s) && w.inserted == map[s.id.value := s] && PathFor(w, s.id.value) in w.reg
    requires At(w, 1).Scanning? && s.id.value in At(w, 1).left && s.id.value in At(w, 1).snapshot
    ensures MeetsNull(w, At(w, 1), s.id.value)
  {
    NullHasNoAddress(w, 1, s.id.value);
  }

  /** Scanning is safe in every run over subscribers of a kind if and only if none of the kind is put into a collection
      without an address. */
  lemma ScansAreSafeExactly(kind: iset<Record>)
    ensures ScansAreSafe(kind) <==> forall s :: s in kind ==> !Unreadable(s)
  {
    if s :| s in kind && Unreadable(s) {
      var steps := ScanMeetsNull(s);
      var w := Run(INITIAL, steps);
      hide Run;
      assert OfKind(w, kind) && MeetsNull(w, At(w, 1), s.id.value);
    } else {
      forall steps: seq<Step>, t, id | OfKind(Run(INITIAL, steps), kind)
          ensures !MeetsNull(Run(INITIAL, steps), At(Run(INITIAL, steps), t), id) {
        RunKeepsFromInitial(steps);
        var w := Run(INITIAL, steps);
        hide Run, Inv, Unreadable;
        assert id in w.inserted ==> w.inserted[id] in kind;
        if MeetsNull(w, At(w, t), id) {
          NullHasNoAddress(w, t, id);
        }
      }
    }
  }
}
