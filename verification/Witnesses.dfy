/** Two-client interleavings that break what non-overlapping runs keep. */
module Witnesses {
  import opened Wrappers
  import opened Rows
  import opened Tables
  import opened Invariants
  import opened Allocator
  import opened Interleaving

  const BOLTS: GroupKey := GroupKey(1, 0, 0)

  /** One order with one kit; `groups` are its groups, all of class 1. */
  function Shop(groups: seq<GroupRow>, tags: set<string>): Tables {
    Tables(map[1 := ClassRow("bolt", 5)], 2, tags, map[1 := 1], 2, [KitRow(1, 0, |groups|, 0)], groups)
  }

  function Group(id: int, count: int, target: int, tag: Option<string>): GroupRow {
    GroupRow(GroupKey(1, 0, id), 1, count, target, tag, false)
  }

  lemma ShopIsWellFormed(groups: seq<GroupRow>, tags: set<string>)
    requires forall i | 0 <= i < |groups| :: groups[i].key == GroupKey(1, 0, i) && groups[i].classId == 1
    requires forall i | 0 <= i < |groups| && HasTag(groups[i]) :: groups[i].tag.value in tags
    ensures WellFormed(Shop(groups, tags))
  {
    var t := Shop(groups, tags);
    forall n ensures GroupKey(1, 0, n) in Keys(groups) <==> 0 <= n < |groups| {
      KeyPosition(groups, GroupKey(1, 0, n));
    }
    assert KitKeys(t.kits) == {(1, 0)} by { assert t.kits[0] in t.kits; }
    forall key | key in Keys(groups) ensures (key.order, key.kit) == (1, 0) { KeyPosition(groups, key); }
    assert DenseGroups(t);
    assert DenseKits(t);
  }

  /** A request for `value` pieces of group `id`. */
  function Ask(id: int, value: int, tag: bool): Request {
    Request(Some(id), Some(value), Some(tag), Some(-1))
  }

  function Bolts(inventory: int, count: int): Tables {
    Shop([Group(0, count, 9, None)], {}).(classes := map[1 := ClassRow("bolt", inventory)])
  }

  lemma StockOfBolts(inventory: int, count: int)
    ensures Stock(Bolts(inventory, count), 1) == inventory + count
  {
    SumAppend([], Group(0, count, 9, None), CountOf(1));
    assert [Group(0, count, 9, None)] == [] + [Group(0, count, 9, None)];
  }

  function TakeSpot(value: int, read: int): Place {
    Writing(BOLTS, value, false, 1, read)
  }

  lemma TakeBolts(inventory: int, count: int, value: int)
    requires inventory >= value - count
    ensures Accepts(Bolts(inventory, count), BOLTS, value)
    ensures Take(Bolts(inventory, count), BOLTS, value) == Bolts(inventory - (value - count), count)
  {
    assert IndexOf(Bolts(inventory, count).groups, BOLTS) == 0;
  }

  lemma WriteBolts(inventory: int, count: int, value: int)
    ensures IndexOf(Bolts(inventory, count).groups, BOLTS) == 0
    ensures SetCount(Bolts(inventory, count), BOLTS, value) == Bolts(inventory, value)
  {
    assert SetCount(Bolts(inventory, count), BOLTS, value).groups == Bolts(inventory, value).groups;
  }

  function Waiting(id: int, value: int, tag: bool): Client {
    Client(1, 0, [Ask(id, value, tag)], Next)
  }

  function At(place: Place): Client {
    Client(1, 0, [], place)
  }

  lemma Arrives(t: Tables, clients: seq<Client>, id: int, value: int, tag: bool)
    ensures CanStep(Sys(t, clients, []), Sys(t, clients + [Waiting(id, value, tag)], []))
  {
    assert Exec(Sys(t, clients, []), Arrive(1, 0, [Ask(id, value, tag)])) == Sys(t, clients + [Waiting(id, value, tag)], []);
  }

  /** m is the inventory after the take. */
  lemma FirstTakes(n: int, m: int, r: int, v: int, w: int)
    requires m == n - (v - r) >= 0
    ensures CanStep(Sys(Bolts(n, r), [Waiting(0, v, false), Waiting(0, w, false)], []),
                    Sys(Bolts(m, r), [At(TakeSpot(v, r)), Waiting(0, w, false)], []))
  {
    TakeBolts(n, r, v);
    var s := Sys(Bolts(n, r), [Waiting(0, v, false), Waiting(0, w, false)], []);
    assert [Ask(0, v, false)][1..] == [];
    assert Exec(s, Step(0, None)).clients == [At(TakeSpot(v, r)), Waiting(0, w, false)];
  }

  lemma SecondTakes(n: int, m: int, r: int, v: int, w: int)
    requires m == n - (w - r) >= 0
    ensures CanStep(Sys(Bolts(n, r), [At(TakeSpot(v, r)), Waiting(0, w, false)], []),
                    Sys(Bolts(m, r), [At(TakeSpot(v, r)), At(TakeSpot(w, r))], []))
  {
    TakeBolts(n, r, w);
    var s := Sys(Bolts(n, r), [At(TakeSpot(v, r)), Waiting(0, w, false)], []);
    assert [Ask(0, w, false)][1..] == [];
    assert Exec(s, Step(1, None)).clients == [At(TakeSpot(v, r)), At(TakeSpot(w, r))];
  }

  lemma FirstWrites(n: int, r: int, v: int, w: int)
    ensures CanStep(Sys(Bolts(n, r), [At(TakeSpot(v, r)), At(TakeSpot(w, r))], []),
                    Sys(Bolts(n, v), [At(Next), At(TakeSpot(w, r))], [Finished(1, r, r)]))
  {
    WriteBolts(n, r, v);
    var s := Sys(Bolts(n, r), [At(TakeSpot(v, r)), At(TakeSpot(w, r))], []);
    var s' := Exec(s, Step(0, None));
    assert s'.clients == [At(Next), At(TakeSpot(w, r))] && s'.finished == [Finished(1, r, r)];
  }

  lemma SecondWrites(n: int, r: int, v: int, w: int)
    ensures CanStep(Sys(Bolts(n, v), [At(Next), At(TakeSpot(w, r))], [Finished(1, r, r)]),
                    Sys(Bolts(n, w), [At(Next), At(Next)], [Finished(1, r, r), Finished(1, r, v)]))
  {
    WriteBolts(n, v, w);
    var s := Sys(Bolts(n, v), [At(Next), At(TakeSpot(w, r))], [Finished(1, r, r)]);
    var s' := Exec(s, Step(1, None));
    assert s'.clients == [At(Next), At(Next)] && s'.finished == [Finished(1, r, r), Finished(1, r, v)];
  }

  lemma OneArrives(n: int, r: int, v: int)
    ensures Reaches(Sys(Bolts(n, r), [], []), Sys(Bolts(n, r), [Waiting(0, v, false)], []))
  {
    var first, next := Sys(Bolts(n, r), [], []), Sys(Bolts(n, r), [] + [Waiting(0, v, false)], []);
    ReachesItself(first);
    Arrives(first.t, [], 0, v, false);
    ReachesOn(first, first, next);
  }

  lemma BothArrive(n: int, r: int, v: int, w: int)
    ensures Reaches(Sys(Bolts(n, r), [], []), Sys(Bolts(n, r), [Waiting(0, v, false), Waiting(0, w, false)], []))
  {
    var one := Sys(Bolts(n, r), [Waiting(0, v, false)], []);
    var both := Sys(Bolts(n, r), [Waiting(0, v, false)] + [Waiting(0, w, false)], []);
    OneArrives(n, r, v);
    Arrives(one.t, one.clients, 0, w, false);
    ReachesOn(Sys(Bolts(n, r), [], []), one, both);
  }

  lemma OneTakes(n: int, m: int, r: int, v: int, w: int)
    requires m == n - (v - r) >= 0
    ensures Reaches(Sys(Bolts(n, r), [], []), Sys(Bolts(m, r), [At(TakeSpot(v, r)), Waiting(0, w, false)], []))
  {
    var both := Sys(Bolts(n, r), [Waiting(0, v, false), Waiting(0, w, false)], []);
    BothArrive(n, r, v, w);
    FirstTakes(n, m, r, v, w);
    ReachesOn(Sys(Bolts(n, r), [], []), both, Sys(Bolts(m, r), [At(TakeSpot(v, r)), Waiting(0, w, false)], []));
  }

  /** k is the inventory after both takes. */
  lemma TakesOverlap(n: int, m: int, k: int, r: int, v: int, w: int)
    requires m == n - (v - r) >= 0 && k == m - (w - r) >= 0
    ensures Reaches(Sys(Bolts(n, r), [], []), Sys(Bolts(k, r), [At(TakeSpot(v, r)), At(TakeSpot(w, r))], []))
  {
    var taken := Sys(Bolts(m, r), [At(TakeSpot(v, r)), Waiting(0, w, false)], []);
    OneTakes(n, m, r, v, w);
    SecondTakes(m, k, r, v, w);
    ReachesOn(Sys(Bolts(n, r), [], []), taken, Sys(Bolts(k, r), [At(TakeSpot(v, r)), At(TakeSpot(w, r))], []));
  }

  lemma OneWrites(n: int, m: int, k: int, r: int, v: int, w: int)
    requires m == n - (v - r) >= 0 && k == m - (w - r) >= 0
    ensures Reaches(Sys(Bolts(n, r), [], []), Sys(Bolts(k, v), [At(Next), At(TakeSpot(w, r))], [Finished(1, r, r)]))
  {
    var overlap := Sys(Bolts(k, r), [At(TakeSpot(v, r)), At(TakeSpot(w, r))], []);
    TakesOverlap(n, m, k, r, v, w);
    FirstWrites(k, r, v, w);
    ReachesOn(Sys(Bolts(n, r), [], []), overlap, Sys(Bolts(k, v), [At(Next), At(TakeSpot(w, r))], [Finished(1, r, r)]));
  }

  lemma WritesFollow(n: int, m: int, k: int, r: int, v: int, w: int)
    requires m == n - (v - r) >= 0 && k == m - (w - r) >= 0
    ensures Reaches(Sys(Bolts(n, r), [], []),
                    Sys(Bolts(k, w), [At(Next), At(Next)], [Finished(1, r, r), Finished(1, r, v)]))
  {
    var written := Sys(Bolts(k, v), [At(Next), At(TakeSpot(w, r))], [Finished(1, r, r)]);
    var last := Sys(Bolts(k, w), [At(Next), At(Next)], [Finished(1, r, r), Finished(1, r, v)]);
    OneWrites(n, m, k, r, v, w);
    SecondWrites(k, r, v, w);
    ReachesOn(Sys(Bolts(n, r), [], []), written, last);
  }

  /**
   * Of a class with n pieces in stock and r in its group, two clients ask for v and for w, and both read r
   * before either writes: the stock moves by r - v, whatever w is.
   */
  lemma OverlapMovesStock(n: int, r: int, v: int, w: int) returns (first: Sys, last: Sys)
    requires n >= v - r && n - (v - r) >= w - r
    ensures Safe(first) && Fresh(first) && Reaches(first, last)
    ensures forall k | 0 <= k < |last.clients| :: Idle(last.clients[k])
    ensures Stock(first.t, 1) == n + r && Stock(last.t, 1) == n + r + (r - v)
  {
    var m := n - (v - r) - (w - r);
    first := Sys(Bolts(n, r), [], []);
    last := Sys(Bolts(m, w), [At(Next), At(Next)], [Finished(1, r, r), Finished(1, r, v)]);
    WritesFollow(n, n - (v - r), m, r, v, w);
    ShopIsWellFormed([Group(0, r, 9, None)], {});
    StockOfBolts(n, r);
    StockOfBolts(m, w);
  }

  /** Five bolts become four, or six. */
  lemma OverlapLosesStock() returns (first: Sys, last: Sys)
    ensures Safe(first) && Fresh(first) && Reaches(first, last)
    ensures forall k | 0 <= k < |last.clients| :: Idle(last.clients[k])
    ensures Stock(first.t, 1) == 5 && Stock(last.t, 1) == 4
  {
    first, last := OverlapMovesStock(5, 0, 1, 2);
  }

  lemma OverlapCreatesStock() returns (first: Sys, last: Sys)
    ensures Safe(first) && Fresh(first) && Reaches(first, last)
    ensures forall k | 0 <= k < |last.clients| :: Idle(last.clients[k])
    ensures Stock(first.t, 1) == 5 && Stock(last.t, 1) == 6
  {
    first, last := OverlapMovesStock(3, 2, 1, 0);
  }

  // ---------------------------------------------------------------------------------------

  function Pair(tag0: Option<string>, tag1: Option<string>): Tables {
    Shop([Group(0, 0, 0, tag0), Group(1, 0, 0, tag1)], {"A7"})
  }

  /** Asks for more than there is, so that only the tag statements run. */
  lemma TagPair(tag0: Option<string>, tag1: Option<string>, pick: Option<string>)
    ensures !Accepts(Pair(tag0, tag1), GroupKey(1, 0, 0), 99) && !Accepts(Pair(tag0, tag1), GroupKey(1, 0, 1), 99)
    ensures SetTag(Pair(tag0, tag1), GroupKey(1, 0, 0), pick) == Pair(pick, tag1)
    ensures SetTag(Pair(tag0, tag1), GroupKey(1, 0, 1), pick) == Pair(tag0, pick)
  {
    var t := Pair(tag0, tag1);
    assert t.groups[0].key == GroupKey(1, 0, 0) && t.groups[1].key == GroupKey(1, 0, 1);
    assert SetTag(t, GroupKey(1, 0, 0), pick).groups == Pair(pick, tag1).groups;
    assert SetTag(t, GroupKey(1, 0, 1), pick).groups == Pair(tag0, pick).groups;
  }

  const A7: Option<string> := Some("A7")

  /** Two clients, `c` at position `id`. */
  function Two(t: Tables, id: int, c: Client, other: Client): Sys {
    Sys(t, if id == 0 then [c, other] else [other, c], [])
  }

  /** A take that is rejected goes straight on to the tag query. */
  lemma Rejected(tag0: Option<string>, tag1: Option<string>, id: int, other: Client)
    requires id == 0 || id == 1
    ensures CanStep(Two(Pair(tag0, tag1), id, Waiting(id, 99, true), other),
                    Two(Pair(tag0, tag1), id, At(Tagging(GroupKey(1, 0, id))), other))
  {
    TagPair(tag0, tag1, A7);
    assert [Ask(id, 99, true)][1..] == [];
    var s' := Exec(Two(Pair(tag0, tag1), id, Waiting(id, 99, true), other), Step(id, None));
    assert s'.clients == Two(Pair(tag0, tag1), id, At(Tagging(GroupKey(1, 0, id))), other).clients;
  }

  lemma Queries(id: int, other: Client)
    requires id == 0 || id == 1
    ensures CanStep(Two(Pair(None, None), id, At(Tagging(GroupKey(1, 0, id))), other),
                    Two(Pair(None, None), id, At(Attaching(GroupKey(1, 0, id), A7)), other))
  {
    assert TagsInUse(Pair(None, None).groups) == {} && IsFreePick(Pair(None, None), A7);
    var s' := Exec(Two(Pair(None, None), id, At(Tagging(GroupKey(1, 0, id))), other), Step(id, A7));
    assert s'.clients == Two(Pair(None, None), id, At(Attaching(GroupKey(1, 0, id), A7)), other).clients;
  }

  lemma Attaches(tag0: Option<string>, tag1: Option<string>, id: int, other: Client)
    requires id == 0 || id == 1
    ensures CanStep(Two(Pair(tag0, tag1), id, At(Attaching(GroupKey(1, 0, id), A7)), other),
                    Two(if id == 0 then Pair(A7, tag1) else Pair(tag0, A7), id, At(Next), other))
  {
    TagPair(tag0, tag1, A7);
    var s' := Exec(Two(Pair(tag0, tag1), id, At(Attaching(GroupKey(1, 0, id), A7)), other), Step(id, None));
    assert s'.clients == Two(Pair(tag0, tag1), id, At(Next), other).clients;
  }

  lemma QueriesOverlap()
    ensures var k0, k1 := GroupKey(1, 0, 0), GroupKey(1, 0, 1);
            Reaches(Sys(Pair(None, None), [], []), Sys(Pair(None, None), [At(Attaching(k0, A7)), At(Attaching(k1, A7))], []))
  {
    var t := Pair(None, None);
    var k0, k1 := GroupKey(1, 0, 0), GroupKey(1, 0, 1);
    var w0, w1 := Waiting(0, 99, true), Waiting(1, 99, true);
    var first := Sys(t, [], []);
    var s1 := Sys(t, [] + [w0], []);
    var s2 := Sys(t, [w0] + [w1], []);
    var s3 := Sys(t, [At(Tagging(k0)), w1], []);
    var s4 := Sys(t, [At(Tagging(k0)), At(Tagging(k1))], []);
    var s5 := Sys(t, [At(Attaching(k0, A7)), At(Tagging(k1))], []);
    var s6 := Sys(t, [At(Attaching(k0, A7)), At(Attaching(k1, A7))], []);
    assert Reaches(first, s1) by { ReachesItself(first); Arrives(t, [], 0, 99, true); ReachesOn(first, first, s1); }
    assert Reaches(first, s2) by { Arrives(t, [w0], 1, 99, true); ReachesOn(first, s1, s2); }
    assert Reaches(first, s3) by { assert s2 == Two(t, 0, w0, w1); Rejected(None, None, 0, w1); ReachesOn(first, s2, s3); }
    assert Reaches(first, s4) by { Rejected(None, None, 1, At(Tagging(k0))); ReachesOn(first, s3, s4); }
    assert Reaches(first, s5) by { Queries(0, At(Tagging(k1))); ReachesOn(first, s4, s5); }
    assert Reaches(first, s6) by { Queries(1, At(Attaching(k0, A7))); ReachesOn(first, s5, s6); }
  }

  /** Both clients query before either attaches: the only tag ends up on two groups. */
  lemma OverlapDuplicatesTag() returns (first: Sys, last: Sys)
    ensures Safe(first) && Fresh(first) && Reaches(first, last)
    ensures DistinctTags(first.t.groups) && !DistinctTags(last.t.groups)
  {
    var t := Pair(None, None);
    var k0, k1 := GroupKey(1, 0, 0), GroupKey(1, 0, 1);
    first := Sys(t, [], []);
    var s6 := Sys(t, [At(Attaching(k0, A7)), At(Attaching(k1, A7))], []);
    var s7 := Sys(Pair(A7, None), [At(Next), At(Attaching(k1, A7))], []);
    last := Sys(Pair(A7, A7), [At(Next), At(Next)], []);
    QueriesOverlap();
    assert Reaches(first, s7) by { Attaches(None, None, 0, At(Attaching(k1, A7))); ReachesOn(first, s6, s7); }
    assert Reaches(first, last) by { Attaches(A7, None, 1, At(Next)); ReachesOn(first, s7, last); }
    ShopIsWellFormed([Group(0, 0, 0, None), Group(1, 0, 0, None)], {"A7"});
    assert last.t.groups[0].tag == last.t.groups[1].tag;
  }
}
