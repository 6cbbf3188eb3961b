/** The whole system: import a text, serve requests, reset. */
module EndToEnd {
  import opened Rows
  import opened Tables
  import opened Invariants
  import opened Text
  import opened Importing
  import opened ImportCatalogue
  import opened ImportStock
  import opened Allocator
  import opened Interleaving
  import opened Serializability

  /** A freshly imported and reset shop. */
  ghost function Prepared(code: string): Tables {
    Reset(Import(code))
  }

  lemma PreparedBaseline(code: string)
    ensures var t := Prepared(code);
            && WellFormed(t) && NoShortage(t) && DistinctTags(t.groups)
            && (forall c | c in t.classes :: Stock(t, c) == 2500)
            && (forall i | 0 <= i < |t.groups| :: t.groups[i].count == 0 && !HasTag(t.groups[i]))
  {
    var t := Import(code);
    assert WellFormed(t) by { ImportGood(Split(code, '\n')); }
    ResetKeepsShape(t);
    ShapeKeepsKeys(t, Reset(t));
    ResetBaseline(t);
  }

  /** The requests one at a time: every class keeps its 2500 pieces, tags stay distinct, nothing dangles. */
  lemma ServedOneAtATime(code: string, es: seq<Event>, c: int)
    requires LegalRun(Prepared(code), es) && c in Import(code).classes
    ensures var t := Run(Prepared(code), es);
            && WellFormed(t) && DistinctTags(t.groups)
            && Sum(t.groups, TaggedOne()) <= |t.tags - {""}|
            && c in t.classes
            && t.classes[c].inventory + Taken(t, c) == 2500
            && t.classes[c].inventory >= 0 && Taken(t, c) <= 2500
  {
    var t0, t := Prepared(code), Run(Prepared(code), es);
    PreparedBaseline(code);
    RunStock(t0, es, c);
    RunNoShortage(t0, es);
    RunWellFormed(t0, es);
    RunShape(t0, es);
    TaggedGroupsBounded(t);
  }

  ghost predicate AsksNonNegative(es: seq<Event>) {
    forall e | e in es && IsTake(e.request) :: e.request.value.value >= 0
  }

  ghost predicate CountsNonNegative(t: Tables) {
    forall i | 0 <= i < |t.groups| :: t.groups[i].count >= 0
  }

  lemma {:induction false} RunCountsNonNegative(t: Tables, es: seq<Event>)
    requires CountsNonNegative(t) && AsksNonNegative(es)
    ensures CountsNonNegative(Run(t, es))
  {
    if es != [] {
      RunCountsNonNegative(t, es[..|es| - 1]);
      assert es[|es| - 1] in es;
    }
  }

  /** If no request asks for a negative count, every single count stays between 0 and 2500. */
  lemma CountsStayInRange(code: string, es: seq<Event>, i: nat)
    requires LegalRun(Prepared(code), es) && AsksNonNegative(es)
    requires i < |Run(Prepared(code), es).groups|
    ensures 0 <= Run(Prepared(code), es).groups[i].count <= 2500
  {
    var t := Run(Prepared(code), es);
    PreparedBaseline(code);
    RunCountsNonNegative(Prepared(code), es);
    RunWellFormed(Prepared(code), es);
    RunShape(Prepared(code), es);
    var c := t.groups[i].classId;
    ServedOneAtATime(code, es, c);
    CountWithinTaken(t, i);
  }

  lemma CountWithinTaken(t: Tables, i: nat)
    requires CountsNonNegative(t) && i < |t.groups|
    ensures 0 <= t.groups[i].count <= Taken(t, t.groups[i].classId)
  {
    SumBounds(t.groups, i, CountOf(t.groups[i].classId));
  }

  // ---------------------------------------------------------------------------------------
  // Import and serve, with or without resets
  // ---------------------------------------------------------------------------------------

  /** The pieces of the class that the text states. */
  ghost function ImportedPieces(code: string, c: int): int
    requires c in Import(code).classes
  {
    TextStock(Split(code, '\n'), Import(code).classes[c].description)
  }

  /** No class that the text names gets a negative inventory there. */
  ghost predicate StatesNoShortage(code: string) {
    forall name | Named(Split(code, '\n'), name) :: StatedInventory(Split(code, '\n'), name) >= 0
  }

  lemma ImportedBaseline(code: string)
    ensures WellFormed(Import(code))
    ensures NoShortage(Import(code)) <==> StatesNoShortage(code)
    ensures forall c | c in Import(code).classes :: Stock(Import(code), c) == ImportedPieces(code, c)
  {
    ImportGood(Split(code, '\n'));
    ImportedShortage(Split(code, '\n'));
    forall c | c in Import(code).classes ensures Stock(Import(code), c) == ImportedPieces(code, c) {
      ImportedStock(Split(code, '\n'), c);
    }
  }

  /** The requests one at a time: every class keeps the pieces of the text, nothing dangles, tags do not collide anew. */
  lemma ServedAfterImport(code: string, es: seq<Event>, c: int)
    requires LegalRun(Import(code), es) && c in Import(code).classes
    ensures var t := Run(Import(code), es);
            && WellFormed(t) && c in t.classes
            && t.classes[c].inventory + Taken(t, c) == ImportedPieces(code, c)
            && (StatesNoShortage(code) ==> NoShortage(t))
            && (DistinctTags(Import(code).groups) ==> DistinctTags(t.groups))
  {
    var t0 := Import(code);
    ImportedBaseline(code);
    RunStock(t0, es, c);
    RunWellFormed(t0, es);
    RunShape(t0, es);
    if StatesNoShortage(code) { RunNoShortage(t0, es); }
  }

  /**
   * Every state reachable from an import by any interleaving of takes, tags, statuses and resets has unique
   * dense keys, existing references and known tags; and no negative inventory unless the text states one.
   */
  lemma ServedConcurrently(code: string, states: seq<Sys>, actions: seq<Action>)
    requires IsRun(states, actions) && Fresh(states[0]) && states[0].t == Import(code)
    ensures forall s | s in states :: Safe(s)
    ensures StatesNoShortage(code) ==> forall s | s in states :: NoShortage(s.t)
  {
    ImportedBaseline(code);
    RunSafe(states, actions);
    if StatesNoShortage(code) { NeverShort(states, actions); }
  }

  /** The pieces of the text are in inventory, counts and flight, up to the drift of overlapping takes. */
  lemma ServedAndBooked(code: string, states: seq<Sys>, actions: seq<Action>, c: int)
    requires IsRun(states, actions) && Fresh(states[0]) && states[0].t == Import(code)
    requires NoResets(actions) && c in Import(code).classes
    ensures TotalStock(states[|actions|], c) == ImportedPieces(code, c) + TotalDrift(states[|actions|], c)
  {
    ImportedBaseline(code);
    Conservation(states, actions, c);
    assert TotalStock(states[0], c) == Stock(states[0].t, c) && TotalDrift(states[0], c) == 0;
  }

  /** Without overlap on a group, exactly the pieces of the text are in inventory, counts and flight. */
  lemma ServedWithoutOverlap(code: string, states: seq<Sys>, actions: seq<Action>, c: int)
    requires IsRun(states, actions) && Fresh(states[0]) && states[0].t == Import(code)
    requires NoResets(actions) && (forall s | s in states :: NoOverlap(s)) && c in Import(code).classes
    ensures TotalStock(states[|actions|], c) == ImportedPieces(code, c)
  {
    ImportedBaseline(code);
    ExactWithoutOverlap(states, actions, c);
    assert TotalStock(states[0], c) == Stock(states[0].t, c);
  }

  /**
   * Whatever an import was followed by, earlier resets included: from a reset on during which no take is half
   * done, no inventory is negative, and without overlap on a group every class has its 2500 pieces.
   */
  lemma ServedAfterReset(code: string, states: seq<Sys>, actions: seq<Action>, p: nat, c: int)
    requires IsRun(states, actions) && Fresh(states[0]) && states[0].t == Import(code)
    requires ResetsAt(actions, p) && NobodyWriting(states[p]) && NoResets(actions[p + 4..])
    requires forall s | s in states[p + 4..] :: NoOverlap(s)
    requires c in Import(code).classes
    ensures TotalStock(states[|actions|], c) == 2500
    ensures forall s | s in states[p + 4..] :: NoShortage(s.t)
  {
    ImportedBaseline(code);
    RunKeepsShape(states, actions, p);
    ExactFromReset(states, actions, p, c);
    ResetsReset(states, actions, p);
    ResetBaseline(states[p].t);
    RunSuffix(states, actions, p + 4);
    NeverShort(states[p + 4..], actions[p + 4..]);
  }

  /** If tag queries and attachments do not overlap, tags stay distinct and tagged groups no more than tags. */
  lemma ServedWithoutTagOverlap(code: string, states: seq<Sys>, actions: seq<Action>)
    requires IsRun(states, actions) && Fresh(states[0])
    requires states[0].t == Prepared(code) || (states[0].t == Import(code) && DistinctTags(Import(code).groups))
    requires forall s | s in states :: NoTagOverlap(s)
    ensures var t := states[|actions|].t;
            DistinctTags(t.groups) && Sum(t.groups, TaggedOne()) <= |t.tags - {""}|
  {
    PreparedBaseline(code);
    ImportedBaseline(code);
    RunSafe(states, actions);
    forall s | s in states ensures NoTagOverlap(s) && UniqueKeys(s.t.groups) { assert Safe(s); }
    DistinctWithoutTagOverlap(states, actions);
    assert states[|actions|] in states;
    TaggedGroupsBounded(states[|actions|].t);
  }

  /** From t to u: integrity; and distinct tags and non-negative inventories, if t has them. */
  ghost predicate Kept(t: Tables, u: Tables, c: int) {
    && WellFormed(u) && c in u.classes
    && (DistinctTags(t.groups) ==> DistinctTags(u.groups)) && (NoShortage(t) ==> NoShortage(u))
  }

  lemma EventKeeps(t: Tables, u: Tables, e: Event, c: int)
    requires Kept(t, u, c) && Legal(u, e)
    ensures Kept(t, Serve(u, e), c) && Stock(Serve(u, e), c) == Stock(u, c)
  {
    assert SameShape(u, Serve(u, e)) by { ServeShape(u, e); }
    ShapeKeepsKeys(u, Serve(u, e));
    ServeStock(u, e, c);
    ServeTags(u, e);
    if NoShortage(u) { ServeNoShortage(u, e); }
  }

  lemma ResetKeeps(t: Tables, u: Tables, c: int)
    requires Kept(t, u, c)
    ensures Kept(t, Reset(u), c) && Stock(Reset(u), c) == 2500
  {
    ResetKeepsShape(u);
    ShapeKeepsKeys(u, Reset(u));
    ResetBaseline(u);
  }

  lemma EntryKeeps(t: Tables, u: Tables, entry: Entry, c: int)
    requires Kept(t, u, c) && (entry.Served? ==> Legal(u, entry.event))
    ensures Kept(t, Played(u, entry), c)
    ensures Stock(Played(u, entry), c) == if entry.ResetDone? then 2500 else Stock(u, c)
  {
    match entry
    case Served(e) => EventKeeps(t, u, e, c);
    case ResetDone => ResetKeeps(t, u, c);
  }

  lemma LastEntry(t: Tables, log: seq<Entry>)
    requires LegalLog(t, log) && log != []
    ensures var init, last := log[..|log| - 1], log[|log| - 1];
            && LegalLog(t, init) && (last.Served? ==> Legal(Play(t, init), last.event))
            && Play(t, log) == Played(Play(t, init), last)
            && (ResetDone in log <==> last.ResetDone? || ResetDone in init)
  {
    assert log == log[..|log| - 1] + [log[|log| - 1]];
  }

  /** Every log of requests and resets keeps integrity, and the pieces of its last baseline. */
  lemma {:induction false} LogKeeps(t: Tables, log: seq<Entry>, c: int)
    requires WellFormed(t) && LegalLog(t, log) && c in t.classes
    ensures Kept(t, Play(t, log), c)
    ensures Stock(Play(t, log), c) == if ResetDone in log then 2500 else Stock(t, c)
  {
    if log != [] {
      var init, last := log[..|log| - 1], log[|log| - 1];
      LastEntry(t, log);
      LogKeeps(t, init, c);
      EntryKeeps(t, Play(t, init), last, c);
    }
  }

  /**
   * An import served concurrently under the locking discipline, with resets at rest, is at every moment at rest
   * an import served one request or reset at a time: every class has exactly the pieces of the text, or 2500
   * after a reset.
   */
  lemma ServedWithLocks(code: string, states: seq<Sys>, actions: seq<Action>, resets: seq<nat>, c: int)
      returns (log: seq<Entry>)
    requires IsRun(states, actions) && Fresh(states[0]) && states[0].t == Import(code)
    requires Disciplined(states, actions, resets) && AtRest(states[|actions|]) && c in Import(code).classes
    ensures SameLog(StartLog(states, actions, resets), log) && LegalLog(Import(code), log)
    ensures var t := states[|actions|].t;
            && t == Play(Import(code), log)
            && Stock(t, c) == (if ResetDone in log then 2500 else ImportedPieces(code, c))
            && (DistinctTags(Import(code).groups) ==> DistinctTags(t.groups))
  {
    assert WellFormed(Import(code)) && Stock(Import(code), c) == ImportedPieces(code, c) by { ImportedBaseline(code); }
    log := SerializableWithResets(states, actions, resets);
    LogKeeps(Import(code), log, c);
  }
}
