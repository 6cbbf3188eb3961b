/** What every reachable state of the kitting tables satisfies. */
module Invariants {
  import opened Wrappers
  import opened Rows
  import opened Tables

  function Keys(groups: seq<GroupRow>): set<GroupKey> {
    set g | g in groups :: g.key
  }

  function KitKeys(kits: seq<KitRow>): set<(int, int)> {
    set k | k in kits :: (k.order, k.id)
  }

  ghost predicate UniqueKeys(groups: seq<GroupRow>) {
    forall i, j | 0 <= i < j < |groups| :: groups[i].key != groups[j].key
  }

  ghost predicate UniqueKits(kits: seq<KitRow>) {
    forall i, j | 0 <= i < j < |kits| :: (kits[i].order, kits[i].id) != (kits[j].order, kits[j].id)
  }

  /** The groups of every kit are numbered 0 .. groupCount - 1. */
  ghost predicate DenseGroups(t: Tables) {
    forall i | 0 <= i < |t.kits| ::
      0 <= t.kits[i].groupCount &&
      forall n :: GroupKey(t.kits[i].order, t.kits[i].id, n) in Keys(t.groups) <==> 0 <= n < t.kits[i].groupCount
  }

  /** The kits of every order are numbered 0 .. kit_count - 1. */
  ghost predicate DenseKits(t: Tables) {
    forall o | o in t.orders :: 0 <= t.orders[o] && forall n :: (o, n) in KitKeys(t.kits) <==> 0 <= n < t.orders[o]
  }

  /** Every group's kit and every kit's order exist. */
  ghost predicate Anchored(t: Tables) {
    && (forall key | key in Keys(t.groups) :: (key.order, key.kit) in KitKeys(t.kits))
    && (forall p | p in KitKeys(t.kits) :: p.0 in t.orders)
  }

  ghost predicate KeysOk(t: Tables) {
    UniqueKeys(t.groups) && UniqueKits(t.kits) && DenseGroups(t) && DenseKits(t) && Anchored(t)
  }

  /** Serial ids lie below their counters. */
  ghost predicate SerialsOk(t: Tables) {
    && (forall c | c in t.classes :: 1 <= c < t.nextClass)
    && (forall o :: o in t.orders <==> 1 <= o < t.nextOrder)
    && 1 <= t.nextClass && 1 <= t.nextOrder
  }

  /** Class descriptions are pairwise distinct. */
  ghost predicate DistinctNames(t: Tables) {
    forall c, d | c in t.classes && d in t.classes && c != d :: t.classes[c].description != t.classes[d].description
  }

  ghost predicate ClassesOk(t: Tables) {
    DistinctNames(t) && forall i | 0 <= i < |t.groups| :: t.groups[i].classId in t.classes
  }

  /** A NULL tag and an empty one both mean "no tag". */
  predicate HasTag(g: GroupRow) {
    g.tag.Some? && g.tag.value != ""
  }

  ghost predicate TagsOk(t: Tables) {
    forall i | 0 <= i < |t.groups| && HasTag(t.groups[i]) :: t.groups[i].tag.value in t.tags
  }

  ghost predicate WellFormed(t: Tables) {
    KeysOk(t) && SerialsOk(t) && ClassesOk(t) && TagsOk(t)
  }

  /** Real tags are pairwise distinct. */
  ghost predicate DistinctTags(groups: seq<GroupRow>) {
    forall i, j | 0 <= i < j < |groups| && HasTag(groups[i]) && HasTag(groups[j]) :: groups[i].tag != groups[j].tag
  }

  ghost predicate NoShortage(t: Tables) {
    forall c | c in t.classes :: t.classes[c].inventory >= 0
  }

  // ---------------------------------------------------------------------------------------
  // Sums over the groups of a class
  // ---------------------------------------------------------------------------------------

  function CountOf(c: int): GroupRow -> int {
    (g: GroupRow) => if g.classId == c then g.count else 0
  }

  ghost function Taken(t: Tables, c: int): int {
    Sum(t.groups, CountOf(c))
  }

  function Inventory(t: Tables, c: int): int {
    if c in t.classes then t.classes[c].inventory else 0
  }

  /** Inventory of the class plus the counts of its groups. */
  ghost function Stock(t: Tables, c: int): int {
    Inventory(t, c) + Taken(t, c)
  }

  // ---------------------------------------------------------------------------------------
  // Statements that keep keys and references
  // ---------------------------------------------------------------------------------------

  /** The tables differ at most in inventories, counts, tags, archived flags and statuses. */
  ghost predicate SameShape(t: Tables, t': Tables) {
    && t'.orders == t.orders && t'.nextOrder == t.nextOrder && t'.nextClass == t.nextClass && t'.tags == t.tags
    && t'.classes.Keys == t.classes.Keys
    && (forall c | c in t.classes :: t'.classes[c].description == t.classes[c].description)
    && |t'.groups| == |t.groups| && |t'.kits| == |t.kits|
    && (forall i | 0 <= i < |t.groups| ::
          && t'.groups[i].key == t.groups[i].key
          && t'.groups[i].classId == t.groups[i].classId
          && t'.groups[i].target == t.groups[i].target)
    && (forall i | 0 <= i < |t.kits| ::
          && t'.kits[i].order == t.kits[i].order
          && t'.kits[i].id == t.kits[i].id
          && t'.kits[i].groupCount == t.kits[i].groupCount)
  }

  lemma ShapeKeepsKeySets(t: Tables, t': Tables)
    requires SameShape(t, t')
    ensures Keys(t'.groups) == Keys(t.groups) && KitKeys(t'.kits) == KitKeys(t.kits)
  {
    assert forall i | 0 <= i < |t.groups| :: t.groups[i] in t.groups && t'.groups[i] in t'.groups;
    assert forall i | 0 <= i < |t.kits| :: t.kits[i] in t.kits && t'.kits[i] in t'.kits;
    forall key ensures key in Keys(t'.groups) <==> key in Keys(t.groups) {
      KeyPosition(t.groups, key);
      KeyPosition(t'.groups, key);
    }
    forall p ensures p in KitKeys(t'.kits) <==> p in KitKeys(t.kits) {
      KitPosition(t.kits, p);
      KitPosition(t'.kits, p);
    }
  }

  lemma KeyPosition(groups: seq<GroupRow>, key: GroupKey)
    ensures key in Keys(groups) <==> exists i :: 0 <= i < |groups| && groups[i].key == key
  {}

  lemma KitPosition(kits: seq<KitRow>, p: (int, int))
    ensures p in KitKeys(kits) <==> exists i :: 0 <= i < |kits| && (kits[i].order, kits[i].id) == p
  {}

  /** Allocator and reset statements keep keys, references and serial ids. */
  lemma ShapeKeepsKeys(t: Tables, t': Tables)
    requires SameShape(t, t')
    ensures KeysOk(t) ==> KeysOk(t')
    ensures SerialsOk(t) ==> SerialsOk(t')
    ensures ClassesOk(t) ==> ClassesOk(t')
  {
    ShapeKeepsKeySets(t, t');
    if KeysOk(t) {
      assert UniqueKeys(t'.groups);
      forall i, j | 0 <= i < j < |t'.kits|
        ensures (t'.kits[i].order, t'.kits[i].id) != (t'.kits[j].order, t'.kits[j].id)
      {
        assert (t.kits[i].order, t.kits[i].id) != (t.kits[j].order, t.kits[j].id);
      }
      assert DenseGroups(t');
      assert DenseKits(t');
      assert Anchored(t');
    }
  }

  lemma StatementsKeepShape(t: Tables, key: GroupKey, value: int, tag: Option<string>)
    ensures SameShape(t, Take(t, key, value))
    ensures SameShape(t, SetCount(t, key, value))
    ensures SameShape(t, SetTag(t, key, tag))
    ensures SameShape(t, SetStatus(t, key.order, key.kit, value))
  {}

  lemma ResetKeepsShape(t: Tables)
    ensures SameShape(t, ClearArchived(t)) && SameShape(t, ClearTags(t))
    ensures SameShape(t, ClearCounts(t)) && SameShape(t, FillInventories(t))
    ensures SameShape(t, Reset(t))
  {}

  // ---------------------------------------------------------------------------------------
  // The guarded take under unique keys
  // ---------------------------------------------------------------------------------------

  lemma OnlyPosition(groups: seq<GroupRow>, i: nat)
    requires UniqueKeys(groups) && i < |groups|
    ensures IndexOf(groups, groups[i].key) == i
  {}

  /** On unique keys the joined UPDATE has exactly one outcome, the function Take. */
  lemma TakeIsTheStatement(t: Tables, key: GroupKey, value: int, t': Tables, affected: bool)
    requires UniqueKeys(t.groups)
    ensures TakeStatement(t, key, value, t', affected) <==>
            t' == Take(t, key, value) && affected == Accepts(t, key, value)
  {
    var i := IndexOf(t.groups, key);
    forall j: nat | Admits(t, j, key, value) ensures j == i { OnlyPosition(t.groups, j); }
    assert Accepts(t, key, value) <==> Admits(t, i, key, value);
    if TakeStatement(t, key, value, t', affected) {
      if Accepts(t, key, value) {
        var c := t.groups[i].classId;
        assert Admits(t, i, key, value);
        assert t'.classes[c] == Withdraw(t.classes[c], value - t.groups[i].count);
      }
      forall c | c in t.classes ensures t'.classes[c] == Take(t, key, value).classes[c] {
        if TakenFrom(t, key, value, t', c) {
          var j: nat :| Admits(t, j, key, value) && t.groups[j].classId == c;
        }
      }
      assert t'.classes == Take(t, key, value).classes;
    }
    if t' == Take(t, key, value) && affected == Accepts(t, key, value) && affected {
      assert Admits(t, i, key, value);
      assert TakenFrom(t, key, value, t', t.groups[i].classId);
    }
  }

  /** With two groups under one key the pair of statements of ajax.php creates stock. */
  lemma ConservationNeedsUniqueKeys()
    ensures exists t, key, t' ::
              && TakeStatement(t, key, 1, t', true)
              && Stock(SetCount(t', key, 1), 1) != Stock(t, 1)
  {
    var key := GroupKey(1, 0, 0);
    var g := GroupRow(key, 1, 0, 1, None, false);
    var t := EMPTY.(classes := map[1 := ClassRow("bolt", 5)], groups := [g, g]);
    var t' := t.(classes := map[1 := ClassRow("bolt", 4)]);
    var done := SetCount(t', key, 1);
    assert Admits(t, 0, key, 1);
    assert TakenFrom(t, key, 1, t', 1);
    assert TakeStatement(t, key, 1, t', true);
    TakenOfPair(t, g, g, 1);
    TakenOfPair(done, g.(count := 1), g.(count := 1), 1);
  }

  lemma TakenOfPair(t: Tables, g: GroupRow, h: GroupRow, c: int)
    requires t.groups == [g, h]
    ensures Taken(t, c) == CountOf(c)(g) + CountOf(c)(h)
  {
    SumAppend([], g, CountOf(c));
    SumAppend([g], h, CountOf(c));
    assert [g] == [] + [g] && t.groups == [g] + [h];
  }

  lemma SetCountAt(t: Tables, key: GroupKey, value: int)
    requires UniqueKeys(t.groups)
    ensures var i := IndexOf(t.groups, key);
            SetCount(t, key, value).groups ==
            if i < |t.groups| then t.groups[i := t.groups[i].(count := value)] else t.groups
  {
    forall j | 0 <= j < |t.groups| && t.groups[j].key == key ensures j == IndexOf(t.groups, key) {
      OnlyPosition(t.groups, j);
    }
  }

  lemma TakenAfterSetCount(t: Tables, key: GroupKey, value: int, c: int)
    requires UniqueKeys(t.groups)
    ensures var i := IndexOf(t.groups, key);
            Taken(SetCount(t, key, value), c) ==
            Taken(t, c) + if i < |t.groups| && t.groups[i].classId == c then value - t.groups[i].count else 0
  {
    SetCountAt(t, key, value);
    var i := IndexOf(t.groups, key);
    if i < |t.groups| {
      SumUpdate(t.groups, i, t.groups[i].(count := value), CountOf(c));
    }
  }

  lemma TakenUnchanged(t: Tables, t': Tables, c: int)
    requires |t'.groups| == |t.groups|
    requires forall i :: 0 <= i < |t.groups| ==>
               t'.groups[i].classId == t.groups[i].classId && t'.groups[i].count == t.groups[i].count
    ensures Taken(t', c) == Taken(t, c)
  {
    SumSame(t.groups, t'.groups, CountOf(c));
  }

  /** Tags, statuses and the archived flag are not stock. */
  lemma StockOfOtherStatements(t: Tables, key: GroupKey, status: int, tag: Option<string>, c: int)
    ensures Stock(SetTag(t, key, tag), c) == Stock(t, c)
    ensures Stock(SetStatus(t, key.order, key.kit, status), c) == Stock(t, c)
  {
    TakenUnchanged(t, SetTag(t, key, tag), c);
    TakenUnchanged(t, SetStatus(t, key.order, key.kit, status), c);
  }

  /** After a reset every class holds 2500 pieces, all of them in the inventory. */
  lemma ResetBaseline(t: Tables)
    ensures Reset(t).classes.Keys == t.classes.Keys
    ensures forall c | c in t.classes ::
              Reset(t).classes[c] == t.classes[c].(inventory := 2500) && Stock(Reset(t), c) == 2500
    ensures NoShortage(Reset(t)) && DistinctTags(Reset(t).groups)
    ensures Reset(t) == t.(classes := Reset(t).classes, groups := Reset(t).groups) && |Reset(t).groups| == |t.groups|
    ensures forall i | 0 <= i < |t.groups| ::
              Reset(t).groups[i] == t.groups[i].(count := 0, tag := Some(""), archived := false) && !HasTag(Reset(t).groups[i])
  {
    forall c | c in t.classes ensures Stock(Reset(t), c) == 2500 {
      SumZero(Reset(t).groups, CountOf(c));
    }
  }
}
