/** What a retrieve, a listing and a scan answer that nobody interrupts, and what their failing registry calls leave
    out: the store of the registry, by way of its single resources. */
module RegistryReads {
  import opened Options
  import opened Subscribers
  import opened Stores
  import opened RegistryPaths
  import opened RegistryStore
  import opened RegistryInterleaving
  import opened RegistryRaces

  /** What is found are records of the store under their own ids. */
  predicate FromStore(m: Store, found: map<string, Found>) {
    forall id :: id in found ==> id in m && found[id].r == m[id]
  }

  /** Reading the resource that an index entry leads to finds the store's record of the id. */
  lemma ReadForIsLocated(w: World, id: string)
    requires id in Index(w.reg)
    ensures var found := ReadFor(w, id, Index(w.reg)[id]);
            FromStore(StoreOf(w.reg), found) && (id in found <==> id in StoreOf(w.reg)) && found.Keys <= {id}
  {
    hide LookupPath, ExtractSubscriber;
  }

  lemma NotListedIsNotStored(reg: Resources, id: string)
    ensures id in StoreOf(reg) ==> id in Index(reg)
  {
    hide Located;
  }

  // ---- Retrieving and listing -------------------------------------------------------------------------------

  /** A retrieve answers the store's record of the id, or that there is none. If a call of it fails it answers nothing
      of the store. */
  lemma RetrieveAlone(w: World, t: nat, id: string, a: bool, b: bool)
    requires At(w, t) == Idle
    ensures var w' := Run(w, [Begin(t, CallRetrieve(id)), Try(t, a), Try(t, b)]);
            var m := StoreOf(w.reg);
            && w'.reg == w.reg && At(w', t) == Idle
            && if a && (b || id !in Index(w.reg))
               then |w'.log| == |w.log| + 1 && w'.log[..|w.log|] == w.log && w'.log[|w.log|].Returned?
                    && FromStore(m, w'.log[|w.log|].found)
                    && w'.log[|w.log|].found.Keys == (if id in m then {id} else {})
               else w'.log == w.log
  {
    RunThree(w, Begin(t, CallRetrieve(id)), Try(t, a), Try(t, b));
    NotListedIsNotStored(w.reg, id);
    if id in Index(w.reg) {
      ReadForIsLocated(w, id);
    }
    hide Run, StoreOf, Index, ReadFor, FromStore;
    var w1 := Do(w, Begin(t, CallRetrieve(id)));
    assert At(w1, t) == RetrieveRead(id) && w1.reg == w.reg && w1.log == w.log;
    RetrieveReads(w1, t, id, a);
    var w2 := Do(w1, Try(t, a));
    assert FromStore(StoreOf(w.reg), map[]) by { NothingFromStore(StoreOf(w.reg)); }
    if a && id in Index(w.reg) {
      RetrieveGets(w2, t, id, Index(w.reg)[id], b);
      assert ReadFor(w2, id, Index(w.reg)[id]) == ReadFor(w, id, Index(w.reg)[id]) by {
        SameReading(w, w2, id, Index(w.reg)[id], None);
      }
    } else {
      StaysIdle(w2, t, b);
      IdleLogsNothing(w2, t, b);
    }
  }

  lemma NothingFromStore(m: Store)
    ensures FromStore(m, map[])
  {
  }

  lemma IdleLogsNothing(w: World, t: nat, works: bool)
    requires At(w, t) == Idle
    ensures Do(w, Try(t, works)).log == w.log
  {
  }

  lemma RetrieveReads(w: World, t: nat, id: string, works: bool)
    requires At(w, t) == RetrieveRead(id)
    ensures var w' := Do(w, Try(t, works));
            && w'.reg == w.reg
            && At(w', t) == (if works && id in Index(w.reg) then RetrieveGet(id, Index(w.reg)[id]) else Idle)
            && w'.log == w.log + if works && id !in Index(w.reg) then [Returned(map[])] else []
  {
    hide Index;
  }

  lemma RetrieveGets(w: World, t: nat, id: string, c: string, works: bool)
    requires At(w, t) == RetrieveGet(id, c)
    ensures var w' := Do(w, Try(t, works));
            && w'.reg == w.reg && At(w', t) == Idle
            && w'.log == w.log + if works then [Returned(ReadFor(w, id, c))] else []
  {
    hide ReadFor;
  }

  /** A listing answers the subscriber of every readable resource in the collection, whatever the index says. */
  lemma ListAlone(w: World, t: nat, filter: Option<string>, works: bool)
    requires At(w, t) == Idle
    ensures var w' := Do(Do(w, Begin(t, CallList(filter))), Try(t, works));
            && w'.reg == w.reg && At(w', t) == Idle
            && if works
               then |w'.log| == |w.log| + 1 && w'.log[..|w.log|] == w.log && w'.log[|w.log|].Listed?
                    && forall id ::
                         var path, found := LookupPath(Collection(filter), id), w'.log[|w.log|].found;
                         && (id in found <==>
                               SlashFree(id) && path in w.reg && ExtractSubscriber(w.reg[path]).Some?)
                         && (id in found ==> found[id].r == ExtractSubscriber(w.reg[path]).value)
               else w'.log == w.log
  {
    var w1 := Do(w, Begin(t, CallList(filter)));
    assert At(w1, t) == Listing(filter) && w1.reg == w.reg && w1.log == w.log;
    ListAnswers(w1, t, filter, works);
    hide Do, Collection, LookupPath, ExtractSubscriber, ReadAll;
    forall id {
      ListedIsThere(w1, filter, id);
    }
  }

  lemma ListAnswers(w: World, t: nat, filter: Option<string>, works: bool)
    requires At(w, t) == Listing(filter)
    ensures var w' := Do(w, Try(t, works));
            w'.reg == w.reg && At(w', t) == Idle && w'.log == w.log + if works then [Listed(ReadAll(w, filter))] else []
  {
    hide ReadAll;
  }

  lemma ListedIsThere(w: World, filter: Option<string>, id: string)
    ensures var path, found := LookupPath(Collection(filter), id), ReadAll(w, filter);
            && (id in found <==> SlashFree(id) && path in w.reg && ExtractSubscriber(w.reg[path]).Some?)
            && (id in found ==> found[id].r == ExtractSubscriber(w.reg[path]).value)
  {
    ListingReads(w.reg, Collection(filter), id);
    hide Collection, LookupPath, ExtractSubscriber;
  }

  // ---- Scanning ---------------------------------------------------------------------------------------------

  /** A scan reads the entries in some order; works has the ids whose read works. */
  function Picks(t: nat, ids: seq<string>, works: set<string>): seq<Step> {
    if ids == [] then []
    else [if ids[0] in works then Pick(t, ids[0]) else Fail(t, ids[0])] + Picks(t, ids[1..], works)
  }

  lemma ScanReadsOne(w: World, t: nat, id: string, works: bool)
    requires At(w, t).Scanning? && At(w, t).snapshot == Index(w.reg) && At(w, t).left <= Index(w.reg).Keys
    requires FromStore(StoreOf(w.reg), At(w, t).found)
    ensures var p, w' := At(w, t), Do(w, if works then Pick(t, id) else Fail(t, id));
            && w'.reg == w.reg && w'.log == w.log && At(w', t).Scanning?
            && At(w', t).snapshot == p.snapshot && At(w', t).left == p.left - {id}
            && FromStore(StoreOf(w.reg), At(w', t).found)
            && At(w', t).found.Keys == p.found.Keys +
                 if works && id in p.left && id in StoreOf(w.reg) then {id} else {}
  {
    hide Do, At, StoreOf, ReadFor, Index;
    if works && id in At(w, t).left {
      ReadForIsLocated(w, id);
      PickReads(w, t, id);
    } else {
      NotReadNow(w, t, id, works);
    }
  }

  lemma PickReads(w: World, t: nat, id: string)
    requires var p := At(w, t); p.Scanning? && id in p.left && id in p.snapshot
    ensures var p, w' := At(w, t), Do(w, Pick(t, id));
            && w'.reg == w.reg && w'.log == w.log
            && At(w', t) == Scanning(p.snapshot, p.left - {id}, p.found + ReadFor(w, id, p.snapshot[id]))
  {
    hide ReadFor;
  }

  lemma NotReadNow(w: World, t: nat, id: string, works: bool)
    requires var p := At(w, t); p.Scanning? && !(works && id in p.left)
    ensures var p, w' := At(w, t), Do(w, if works then Pick(t, id) else Fail(t, id));
            && w'.reg == w.reg && w'.log == w.log && At(w', t) == Scanning(p.snapshot, p.left - {id}, p.found)
  {
    hide ReadFor;
    assert id !in At(w, t).left ==> At(w, t).left - {id} == At(w, t).left;
  }

  lemma {:induction false} ScanReads(w: World, t: nat, ids: seq<string>, works: set<string>)
    requires At(w, t).Scanning? && At(w, t).snapshot == Index(w.reg) && At(w, t).left <= Index(w.reg).Keys
    requires FromStore(StoreOf(w.reg), At(w, t).found)
    ensures var p, w' := At(w, t), Run(w, Picks(t, ids, works));
            && w'.reg == w.reg && w'.log == w.log && At(w', t).Scanning?
            && At(w', t).left == p.left - (set id | id in ids)
            && FromStore(StoreOf(w.reg), At(w', t).found)
            && At(w', t).found.Keys == p.found.Keys +
                 set id | id in ids && id in works && id in p.left && id in StoreOf(w.reg)
    decreases |ids|
  {
    hide StoreOf, Index, FromStore, Do, At;
    if ids != [] {
      var id := ids[0];
      ScanReadsOne(w, t, id, id in works);
      var w1 := Do(w, if id in works then Pick(t, id) else Fail(t, id));
      ScanReads(w1, t, ids[1..], works);
      assert Picks(t, ids, works)[1..] == Picks(t, ids[1..], works);
      assert forall x :: x in ids <==> x == id || x in ids[1..];
    }
  }

  lemma ScanBegins(w: World, t: nat)
    requires At(w, t) == Idle
    ensures var w' := Do(Do(w, Begin(t, CallScan)), Go(t));
            && w'.reg == w.reg && w'.log == w.log
            && At(w', t) == Scanning(Index(w.reg), Index(w.reg).Keys, map[])
  {
    hide Index;
    assert At(Do(w, Begin(t, CallScan)), t) == ScanRead;
  }

  lemma ScanEnds(w: World, t: nat)
    requires At(w, t).Scanning? && At(w, t).left == {}
    ensures var w' := Do(w, Go(t));
            w'.reg == w.reg && At(w', t) == Idle && w'.log == w.log + [Returned(At(w, t).found)]
  {
  }

  /** A scan that reads every entry of the index, in any order, answers exactly the records of the store whose read
      worked. */
  lemma ScanAlone(w: World, t: nat, ids: seq<string>, works: set<string>)
    requires At(w, t) == Idle && forall id :: id in Index(w.reg) ==> id in ids
    ensures var w' := Run(w, [Begin(t, CallScan), Go(t)] + Picks(t, ids, works) + [Go(t)]);
            && w'.reg == w.reg && At(w', t) == Idle
            && |w'.log| == |w.log| + 1 && w'.log[..|w.log|] == w.log && w'.log[|w.log|].Returned?
            && FromStore(StoreOf(w.reg), w'.log[|w.log|].found)
            && forall id :: id in w'.log[|w.log|].found <==> id in StoreOf(w.reg) && id in works
  {
    var start, picks := [Begin(t, CallScan), Go(t)], Picks(t, ids, works);
    RunAppends(w, start + picks, [Go(t)]);
    RunAppends(w, start, picks);
    RunTwo(w, Begin(t, CallScan), Go(t));
    var w2 := Run(w, start);
    var w3 := Run(w2, picks);
    RunOne(w3, Go(t));
    forall id { NotListedIsNotStored(w.reg, id); }
    NothingFromStore(StoreOf(w.reg));
    hide Run, Do, StoreOf, Index, FromStore, At, Picks;
    ScanBegins(w, t);
    ScanReads(w2, t, ids, works);
    ScanEnds(w3, t);
  }
}
