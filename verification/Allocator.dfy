/**
 * The allocator (ajax.php) as one client at a time runs it: what a request does, what runs of
 * requests keep, and what a run's outcome depends on.
 */
module Allocator {
  import opened Wrappers
  import opened Rows
  import opened Tables
  import opened Invariants

  /** One decoded request; a field that is absent or null is None. */
  datatype Request =
    | Unreadable
    | Request(id: Option<int>, value: Option<int>, tag: Option<bool>, status: Option<int>)

  /** A request addressed to a kit, with the outcome of the tag query if the request makes one. */
  datatype Event = Event(order: int, kit: int, request: Request, pick: Option<string>)

  predicate Complete(r: Request) {
    r.Request? && r.id.Some? && r.value.Some? && r.tag.Some?
  }

  /** A missing status reads as 0 and so selects the status branch. */
  function StatusOf(r: Request): int
    requires Complete(r)
  {
    if r.status.Some? then r.status.value else 0
  }

  predicate IsTake(r: Request) {
    Complete(r) && StatusOf(r) < 0
  }

  function KeyOf(e: Event): GroupKey
    requires IsTake(e.request)
  {
    GroupKey(e.order, e.kit, e.request.id.value)
  }

  /** The guarded take, and the count written only if it affected a row. */
  function TakeAndWrite(t: Tables, key: GroupKey, value: int): Tables {
    if Accepts(t, key, value) then SetCount(Take(t, key, value), key, value) else t
  }

  function Serve(t: Tables, e: Event): Tables {
    var r := e.request;
    if !Complete(r) then t
    else if StatusOf(r) < 0 then
      var t1 := TakeAndWrite(t, KeyOf(e), r.value.value);
      if r.tag.value then SetTag(t1, KeyOf(e), e.pick) else t1
    else SetStatus(t, e.order, e.kit, StatusOf(r))
  }

  /** The tag query, if the request makes one, returned what such a query can return. */
  ghost predicate Legal(t: Tables, e: Event) {
    IsTake(e.request) && e.request.tag.value ==>
      IsFreePick(TakeAndWrite(t, KeyOf(e), e.request.value.value), e.pick)
  }

  function Run(t: Tables, es: seq<Event>): Tables {
    if es == [] then t else Serve(Run(t, es[..|es| - 1]), es[|es| - 1])
  }

  ghost predicate LegalRun(t: Tables, es: seq<Event>) {
    es != [] ==> LegalRun(t, es[..|es| - 1]) && Legal(Run(t, es[..|es| - 1]), es[|es| - 1])
  }

  lemma RunAppend(t: Tables, es: seq<Event>, e: Event)
    ensures Run(t, es + [e]) == Serve(Run(t, es), e)
    ensures LegalRun(t, es + [e]) <==> LegalRun(t, es) && Legal(Run(t, es), e)
  {}

  // ---------------------------------------------------------------------------------------
  // One request
  // ---------------------------------------------------------------------------------------

  lemma SameShapeTransitive(t: Tables, u: Tables, v: Tables)
    requires SameShape(t, u) && SameShape(u, v)
    ensures SameShape(t, v)
  {}

  lemma TakeAndWriteShape(t: Tables, key: GroupKey, value: int)
    ensures SameShape(t, TakeAndWrite(t, key, value))
  {
    StatementsKeepShape(t, key, value, None);
    StatementsKeepShape(Take(t, key, value), key, value, None);
  }

  lemma ServeShape(t: Tables, e: Event)
    ensures SameShape(t, Serve(t, e))
  {
    var r := e.request;
    if IsTake(r) {
      var t1 := TakeAndWrite(t, KeyOf(e), r.value.value);
      TakeAndWriteShape(t, KeyOf(e), r.value.value);
      StatementsKeepShape(t1, KeyOf(e), 0, e.pick);
    } else if Complete(r) {
      StatementsKeepShape(t, GroupKey(e.order, e.kit, 0), StatusOf(r), None);
    }
  }

  /** The two statements of a take move pieces between inventory and count and lose none. */
  lemma TakeAndWriteStock(t: Tables, key: GroupKey, value: int, c: int)
    requires UniqueKeys(t.groups)
    ensures Stock(TakeAndWrite(t, key, value), c) == Stock(t, c)
  {
    TakenAfterSetCount(Take(t, key, value), key, value, c);
  }

  lemma ServeStock(t: Tables, e: Event, c: int)
    requires UniqueKeys(t.groups)
    ensures Stock(Serve(t, e), c) == Stock(t, c)
  {
    var r := e.request;
    if IsTake(r) {
      TakeAndWriteStock(t, KeyOf(e), r.value.value, c);
      StockOfOtherStatements(TakeAndWrite(t, KeyOf(e), r.value.value), KeyOf(e), 0, e.pick, c);
    } else if Complete(r) {
      StockOfOtherStatements(t, GroupKey(e.order, e.kit, 0), StatusOf(r), None, c);
    }
  }

  lemma ServeNoShortage(t: Tables, e: Event)
    requires NoShortage(t)
    ensures NoShortage(Serve(t, e))
  {}

  /**
   * A take on group i: if the class holds the pieces still missing, they leave the inventory and the
   * count becomes the value; otherwise nothing changes. A request for no group changes nothing.
   */
  lemma TakeStep(t: Tables, key: GroupKey, value: int, i: nat)
    requires UniqueKeys(t.groups) && i < |t.groups| && t.groups[i].classId in t.classes
    ensures var t', g := TakeAndWrite(t, key, value), t.groups[i];
            && (key !in Keys(t.groups) ==> t' == t)
            && (g.key != key ==> t'.groups[i] == g)
            && (g.key == key ==>
                  if t.classes[g.classId].inventory >= value - g.count then
                    && t'.groups[i] == g.(count := value)
                    && t'.classes == t.classes[g.classId := t.classes[g.classId].(
                         inventory := t.classes[g.classId].inventory - (value - g.count))]
                  else t' == t)
  {}

  /** A complete request for the group `id`, with the answer of its tag query. */
  function Asking(order: int, kit: int, id: int, value: int, tag: bool, status: Option<int>, pick: Option<string>): Event {
    Event(order, kit, Request(Some(id), Some(value), Some(tag), status), pick)
  }

  /** A request with status n >= 0 sets the status of the one kit it addresses to n; without a status, to 0. */
  lemma StatusStep(t: Tables, order: int, kit: int, id: int, value: int, tag: bool, status: Option<int>,
                   pick: Option<string>, i: nat)
    requires status.None? || status.value >= 0
    requires UniqueKits(t.kits) && i < |t.kits| && t.kits[i].order == order && t.kits[i].id == kit
    ensures var n := if status.None? then 0 else status.value;
            Serve(t, Asking(order, kit, id, value, tag, status, pick)) ==
            t.(kits := t.kits[i := t.kits[i].(status := n)])
  {
    var e := Asking(order, kit, id, value, tag, status, pick);
    forall j | 0 <= j < |t.kits| && j != i ensures !IsKit(t.kits[j], order, kit) {
      assert (t.kits[j].order, t.kits[j].id) != (t.kits[i].order, t.kits[i].id);
    }
    var n := if status.None? then 0 else status.value;
    assert Serve(t, e).kits == t.kits[i := t.kits[i].(status := n)];
  }

  /**
   * A request with a negative status on group i: if the class holds the pieces still missing, they leave its
   * inventory and the count becomes the value; then, if asked for and the count is the target, the tag is attached.
   */
  lemma TakeRequest(t: Tables, order: int, kit: int, id: int, value: int, tag: bool, status: int,
                    pick: Option<string>, i: nat)
    requires status < 0 && UniqueKeys(t.groups) && i < |t.groups| && t.groups[i].key == GroupKey(order, kit, id)
    requires t.groups[i].classId in t.classes
    ensures var g, c := t.groups[i], t.classes[t.groups[i].classId];
            var missing := value - g.count;
            var counted := if c.inventory >= missing then g.(count := value) else g;
            var tagged := if tag && counted.count == counted.target then counted.(tag := pick) else counted;
            Serve(t, Asking(order, kit, id, value, tag, Some(status), pick)) ==
            t.(classes := if c.inventory >= missing then t.classes[g.classId := c.(inventory := c.inventory - missing)] else t.classes,
               groups := t.groups[i := tagged])
  {
    var key := GroupKey(order, kit, id);
    OnlyPosition(t.groups, i);
    TakeStep(t, key, value, i);
    var t1 := TakeAndWrite(t, key, value);
    SetCountAt(Take(t, key, value), key, value);
    forall j | 0 <= j < |t1.groups| && j != i ensures t1.groups[j].key != key && t1.groups[j] == t.groups[j] {
      assert t.groups[j].key != t.groups[i].key;
    }
    var g1 := t1.groups[i];
    var tagged := if tag && g1.count == g1.target then g1.(tag := pick) else g1;
    assert Serve(t, Asking(order, kit, id, value, tag, Some(status), pick)).groups == t.groups[i := tagged];
  }

  /** A request that is incomplete, or that addresses no row, changes nothing. */
  lemma IdleRequest(t: Tables, e: Event)
    requires
      || e.request.Unreadable? || e.request.id.None? || e.request.value.None? || e.request.tag.None?
      || (if e.request.status.Some? && e.request.status.value < 0
          then GroupKey(e.order, e.kit, e.request.id.value) !in Keys(t.groups)
          else (e.order, e.kit) !in KitKeys(t.kits))
    ensures Serve(t, e) == t
  {
    if !(e.request.Unreadable? || e.request.id.None? || e.request.value.None? || e.request.tag.None?) {
      forall i | 0 <= i < |t.groups| ensures t.groups[i].key in Keys(t.groups) { KeyPosition(t.groups, t.groups[i].key); }
      forall i | 0 <= i < |t.kits| ensures (t.kits[i].order, t.kits[i].id) in KitKeys(t.kits) {
        KitPosition(t.kits, (t.kits[i].order, t.kits[i].id));
      }
      assert Serve(t, e).groups == t.groups && Serve(t, e).kits == t.kits;
    }
  }

  /** What a tag query may answer a request with a negative status that asks for a tag; others make no query. */
  lemma QueryAnswers(t: Tables, order: int, kit: int, id: int, value: int, tag: bool, status: int, pick: Option<string>)
    ensures Legal(t, Asking(order, kit, id, value, tag, Some(status), pick)) <==>
            (status < 0 && tag ==>
               match pick
               case Some(x) => x in t.tags && forall j | 0 <= j < |t.groups| :: t.groups[j].tag != pick
               case None => forall x | x in t.tags :: exists j :: 0 <= j < |t.groups| && t.groups[j].tag == Some(x))
  {
    var u := TakeAndWrite(t, GroupKey(order, kit, id), value);
    assert forall j | 0 <= j < |t.groups| :: u.groups[j].tag == t.groups[j].tag;
    forall x ensures x in TagsInUse(u.groups) <==> exists j :: 0 <= j < |t.groups| && t.groups[j].tag == Some(x) {
      TagInUse(t.groups, u.groups, x);
    }
  }

  lemma TagInUse(groups: seq<GroupRow>, groups': seq<GroupRow>, x: string)
    requires |groups'| == |groups| && forall j | 0 <= j < |groups| :: groups'[j].tag == groups[j].tag
    ensures x in TagsInUse(groups') <==> exists j :: 0 <= j < |groups| && groups[j].tag == Some(x)
  {
    if j :| 0 <= j < |groups| && groups[j].tag == Some(x) { assert groups'[j] in groups'; }
  }

  /**
   * The tag statement: a group whose count meets its target gets a tag no group had, or NULL exactly
   * if no tag is free; every other row, and this row otherwise, stays as it was.
   */
  lemma TagStep(t: Tables, key: GroupKey, pick: Option<string>, i: nat)
    requires UniqueKeys(t.groups) && IsFreePick(t, pick) && i < |t.groups|
    ensures var g, g' := t.groups[i], SetTag(t, key, pick).groups[i];
            if g.key == key && g.count == g.target then
              && (g'.tag.Some? ==> g'.tag.value in t.tags && forall j | 0 <= j < |t.groups| :: t.groups[j].tag != g'.tag)
              && (g'.tag.None? <==> forall x | x in t.tags :: exists j :: 0 <= j < |t.groups| && t.groups[j].tag == Some(x))
              && g' == g.(tag := g'.tag)
            else g' == g
  {}

  lemma SetTagDistinct(t: Tables, key: GroupKey, pick: Option<string>)
    requires UniqueKeys(t.groups) && IsFreePick(t, pick)
    ensures DistinctTags(t.groups) ==> DistinctTags(SetTag(t, key, pick).groups)
    ensures TagsOk(t) ==> TagsOk(SetTag(t, key, pick))
  {}

  lemma ServeTags(t: Tables, e: Event)
    requires UniqueKeys(t.groups) && Legal(t, e)
    ensures DistinctTags(t.groups) ==> DistinctTags(Serve(t, e).groups)
    ensures TagsOk(t) ==> TagsOk(Serve(t, e))
  {
    if IsTake(e.request) {
      var t1 := TakeAndWrite(t, KeyOf(e), e.request.value.value);
      TakeAndWriteTags(t, KeyOf(e), e.request.value.value);
      if e.request.tag.value { SetTagDistinct(t1, KeyOf(e), e.pick); }
    }
  }

  lemma TakeAndWriteTags(t: Tables, key: GroupKey, value: int)
    requires UniqueKeys(t.groups)
    ensures UniqueKeys(TakeAndWrite(t, key, value).groups)
    ensures DistinctTags(t.groups) ==> DistinctTags(TakeAndWrite(t, key, value).groups)
    ensures TagsOk(t) ==> TagsOk(TakeAndWrite(t, key, value))
  {
    var t1 := TakeAndWrite(t, key, value);
    assert forall i | 0 <= i < |t.groups| :: t1.groups[i].key == t.groups[i].key && t1.groups[i].tag == t.groups[i].tag;
  }

  // ---------------------------------------------------------------------------------------
  // Runs of requests
  // ---------------------------------------------------------------------------------------

  lemma {:induction false} RunShape(t: Tables, es: seq<Event>)
    ensures SameShape(t, Run(t, es))
  {
    if es != [] {
      var s := Run(t, es[..|es| - 1]);
      RunShape(t, es[..|es| - 1]);
      ServeShape(s, es[|es| - 1]);
      SameShapeTransitive(t, s, Run(t, es));
    }
  }

  /** Conservation: no run of requests creates or loses a piece of any class. */
  lemma {:induction false} RunStock(t: Tables, es: seq<Event>, c: int)
    requires KeysOk(t)
    ensures Stock(Run(t, es), c) == Stock(t, c)
  {
    if es != [] {
      var s := Run(t, es[..|es| - 1]);
      RunStock(t, es[..|es| - 1], c);
      RunShape(t, es[..|es| - 1]);
      ShapeKeepsKeys(t, s);
      ServeStock(s, es[|es| - 1], c);
    }
  }

  lemma {:induction false} RunNoShortage(t: Tables, es: seq<Event>)
    requires NoShortage(t)
    ensures NoShortage(Run(t, es))
  {
    if es != [] {
      RunNoShortage(t, es[..|es| - 1]);
      ServeNoShortage(Run(t, es[..|es| - 1]), es[|es| - 1]);
    }
  }

  /** Referential integrity and distinct real tags survive every run. */
  lemma {:induction false} RunWellFormed(t: Tables, es: seq<Event>)
    requires WellFormed(t) && LegalRun(t, es)
    ensures WellFormed(Run(t, es))
    ensures DistinctTags(t.groups) ==> DistinctTags(Run(t, es).groups)
  {
    RunShape(t, es);
    ShapeKeepsKeys(t, Run(t, es));
    if es != [] {
      var s := Run(t, es[..|es| - 1]);
      RunWellFormed(t, es[..|es| - 1]);
      ServeTags(s, es[|es| - 1]);
    }
  }

  // ---------------------------------------------------------------------------------------
  // Tagged groups never outnumber tags
  // ---------------------------------------------------------------------------------------

  function RealTags(groups: seq<GroupRow>): set<string> {
    set g | g in groups && HasTag(g) :: g.tag.value
  }

  function TaggedOne(): GroupRow -> int {
    (g: GroupRow) => if HasTag(g) then 1 else 0
  }

  lemma {:induction false} DistinctTagsCount(groups: seq<GroupRow>)
    requires DistinctTags(groups)
    ensures Sum(groups, TaggedOne()) == |RealTags(groups)|
  {
    if groups != [] {
      var init, last := groups[..|groups| - 1], groups[|groups| - 1];
      DistinctTagsCount(init);
      RealTagsStep(groups);
    }
  }

  lemma RealTagsStep(groups: seq<GroupRow>)
    requires DistinctTags(groups) && groups != []
    ensures var init, last := groups[..|groups| - 1], groups[|groups| - 1];
            |RealTags(groups)| == |RealTags(init)| + if HasTag(last) then 1 else 0
  {
    var init, last := groups[..|groups| - 1], groups[|groups| - 1];
    assert groups == init + [last];
    RealTagsAppend(init, last);
    if HasTag(last) {
      forall j | 0 <= j < |init| && HasTag(init[j]) ensures init[j].tag.value != last.tag.value {
        assert groups[j] == init[j];
      }
      assert last.tag.value !in RealTags(init);
    }
  }

  lemma RealTagsAppend(groups: seq<GroupRow>, g: GroupRow)
    ensures RealTags(groups + [g]) == RealTags(groups) + if HasTag(g) then {g.tag.value} else {}
  {
    assert forall x :: x in groups + [g] <==> x in groups || x == g;
  }

  lemma TaggedGroupsBounded(t: Tables)
    requires DistinctTags(t.groups) && TagsOk(t)
    ensures Sum(t.groups, TaggedOne()) <= |t.tags - {""}|
  {
    DistinctTagsCount(t.groups);
    var used, all := RealTags(t.groups), t.tags - {""};
    assert used <= all;
    assert all == used + (all - used);
  }

  // ---------------------------------------------------------------------------------------
  // Path independence
  // ---------------------------------------------------------------------------------------

  /** Every take of the run meets its guard. */
  ghost predicate AllAccepted(t: Tables, es: seq<Event>) {
    es != [] ==>
      var init, last := es[..|es| - 1], es[|es| - 1];
      && AllAccepted(t, init)
      && (IsTake(last.request) ==> Accepts(Run(t, init), KeyOf(last), last.request.value.value))
  }

  lemma {:induction false} AllAcceptedMeans(t: Tables, es: seq<Event>)
    ensures AllAccepted(t, es) <==> forall n | 0 <= n < |es| && IsTake(es[n].request) ::
              Accepts(Run(t, es[..n]), KeyOf(es[n]), es[n].request.value.value)
  {
    if es != [] {
      var init := es[..|es| - 1];
      AllAcceptedMeans(t, init);
      forall n | 0 <= n < |init| ensures init[..n] == es[..n] && init[n] == es[n] {}
    }
  }

  /** The value last requested for the key, `initial` if the run never addresses it. */
  function LastValue(es: seq<Event>, key: GroupKey, initial: int): int {
    if es == [] then initial
    else
      var last := es[|es| - 1];
      if IsTake(last.request) && KeyOf(last) == key then last.request.value.value
      else LastValue(es[..|es| - 1], key, initial)
  }

  lemma {:induction false} AcceptedCounts(t: Tables, es: seq<Event>, i: nat)
    requires UniqueKeys(t.groups) && AllAccepted(t, es) && i < |t.groups|
    ensures |Run(t, es).groups| == |t.groups| && Run(t, es).groups[i].key == t.groups[i].key
    ensures Run(t, es).groups[i].count == LastValue(es, t.groups[i].key, t.groups[i].count)
  {
    if es != [] {
      AcceptedCounts(t, es[..|es| - 1], i);
    }
  }

  function Remembered(es: seq<Event>, c: int): GroupRow -> int {
    (g: GroupRow) => if g.classId == c then LastValue(es, g.key, g.count) - g.count else 0
  }

  lemma {:induction false} TakenDifference(groups: seq<GroupRow>, groups': seq<GroupRow>, es: seq<Event>, c: int)
    requires |groups| == |groups'|
    requires forall i | 0 <= i < |groups| ::
               groups'[i].classId == groups[i].classId && groups'[i].count == LastValue(es, groups[i].key, groups[i].count)
    ensures Sum(groups', CountOf(c)) == Sum(groups, CountOf(c)) + Sum(groups, Remembered(es, c))
  {
    if groups != [] {
      TakenDifference(groups[..|groups| - 1], groups'[..|groups| - 1], es, c);
    }
  }

  /**
   * In a run without rejection the final inventory of a class is its initial inventory minus, over its
   * groups, the value last requested minus the initial count: intermediate values do not matter.
   */
  lemma AcceptedInventory(t: Tables, es: seq<Event>, c: int)
    requires KeysOk(t) && AllAccepted(t, es)
    ensures Inventory(Run(t, es), c) == Inventory(t, c) - Sum(t.groups, Remembered(es, c))
  {
    RunStock(t, es, c);
    RunShape(t, es);
    forall i | 0 <= i < |t.groups|
      ensures Run(t, es).groups[i].count == LastValue(es, t.groups[i].key, t.groups[i].count)
    {
      AcceptedCounts(t, es, i);
    }
    TakenDifference(t.groups, Run(t, es).groups, es, c);
  }

  /** Two runs without rejection that end with the same requested values end with the same stock. */
  lemma PathIndependence(t: Tables, es: seq<Event>, es': seq<Event>)
    requires KeysOk(t) && AllAccepted(t, es) && AllAccepted(t, es')
    requires forall g | g in t.groups :: LastValue(es, g.key, g.count) == LastValue(es', g.key, g.count)
    ensures Run(t, es).classes == Run(t, es').classes
    ensures forall i | 0 <= i < |t.groups| ::
              |Run(t, es).groups| == |Run(t, es').groups| == |t.groups| &&
              Run(t, es).groups[i].count == Run(t, es').groups[i].count
  {
    SameClasses(t, es, es');
    assert SameShape(t, Run(t, es)) by { RunShape(t, es); }
    assert SameShape(t, Run(t, es')) by { RunShape(t, es'); }
    forall i | 0 <= i < |t.groups| ensures Run(t, es).groups[i].count == Run(t, es').groups[i].count {
      SameCounts(t, es, es', i);
    }
  }

  lemma SameClasses(t: Tables, es: seq<Event>, es': seq<Event>)
    requires KeysOk(t) && AllAccepted(t, es) && AllAccepted(t, es')
    requires forall g | g in t.groups :: LastValue(es, g.key, g.count) == LastValue(es', g.key, g.count)
    ensures Run(t, es).classes == Run(t, es').classes
  {
    var u, u' := Run(t, es), Run(t, es');
    assert SameShape(t, u) by { RunShape(t, es); }
    assert SameShape(t, u') by { RunShape(t, es'); }
    forall c | c in t.classes ensures u.classes[c] == u'.classes[c] {
      SameInventories(t, es, es', c);
    }
  }

  lemma SameCounts(t: Tables, es: seq<Event>, es': seq<Event>, i: nat)
    requires UniqueKeys(t.groups) && AllAccepted(t, es) && AllAccepted(t, es') && i < |t.groups|
    requires forall g | g in t.groups :: LastValue(es, g.key, g.count) == LastValue(es', g.key, g.count)
    ensures |Run(t, es).groups| == |Run(t, es').groups| == |t.groups|
    ensures Run(t, es).groups[i].count == Run(t, es').groups[i].count
  {
    AcceptedCounts(t, es, i);
    AcceptedCounts(t, es', i);
    assert t.groups[i] in t.groups;
  }

  lemma SameInventories(t: Tables, es: seq<Event>, es': seq<Event>, c: int)
    requires KeysOk(t) && AllAccepted(t, es) && AllAccepted(t, es')
    requires forall g | g in t.groups :: LastValue(es, g.key, g.count) == LastValue(es', g.key, g.count)
    ensures Inventory(Run(t, es), c) == Inventory(Run(t, es'), c)
  {
    AcceptedInventory(t, es, c);
    AcceptedInventory(t, es', c);
    SumOfAgreeing(t.groups, es, es', c);
  }

  lemma SumOfAgreeing(groups: seq<GroupRow>, es: seq<Event>, es': seq<Event>, c: int)
    requires forall g | g in groups :: LastValue(es, g.key, g.count) == LastValue(es', g.key, g.count)
    ensures Sum(groups, Remembered(es, c)) == Sum(groups, Remembered(es', c))
  {
    SumPointwise(groups, Remembered(es, c), Remembered(es', c));
  }

  lemma {:induction false} SumPointwise(groups: seq<GroupRow>, f: GroupRow -> int, f': GroupRow -> int)
    requires forall g | g in groups :: f(g) == f'(g)
    ensures Sum(groups, f) == Sum(groups, f')
  {
    if groups != [] { SumPointwise(groups[..|groups| - 1], f, f'); }
  }

  /** An accepted request repeated at once is accepted again and changes nothing. */
  lemma RepeatedTake(t: Tables, key: GroupKey, value: int)
    requires UniqueKeys(t.groups) && Accepts(t, key, value)
    ensures var t' := TakeAndWrite(t, key, value); Accepts(t', key, value) && TakeAndWrite(t', key, value) == t'
  {}

  // ---------------------------------------------------------------------------------------
  // Frame of a batch
  // ---------------------------------------------------------------------------------------

  ghost predicate OnKit(es: seq<Event>, order: int, kit: int) {
    forall e | e in es :: e.order == order && e.kit == kit
  }

  predicate InKit(g: GroupRow, order: int, kit: int) {
    g.key.order == order && g.key.kit == kit
  }

  ghost predicate UsedInKit(t: Tables, order: int, kit: int, c: int) {
    exists i :: 0 <= i < |t.groups| && InKit(t.groups[i], order, kit) && t.groups[i].classId == c
  }

  /** Only rows of the kit, and inventories of classes its groups use, may differ. */
  ghost predicate Framed(t: Tables, t': Tables, order: int, kit: int) {
    && |t'.groups| == |t.groups| && |t'.kits| == |t.kits| && t'.classes.Keys == t.classes.Keys
    && t'.tags == t.tags && t'.orders == t.orders
    && (forall i | 0 <= i < |t.groups| && !InKit(t.groups[i], order, kit) :: t'.groups[i] == t.groups[i])
    && (forall i | 0 <= i < |t.kits| && !IsKit(t.kits[i], order, kit) :: t'.kits[i] == t.kits[i])
    && (forall c | c in t.classes && !UsedInKit(t, order, kit, c) :: t'.classes[c] == t.classes[c])
  }

  lemma ServeFramed(t: Tables, e: Event)
    ensures Framed(t, Serve(t, e), e.order, e.kit)
  {
    if IsTake(e.request) {
      var i := IndexOf(t.groups, KeyOf(e));
      if i < |t.groups| { assert UsedInKit(t, e.order, e.kit, t.groups[i].classId); }
    }
  }

  /** A batch on one kit leaves every other kit and every class not used in the kit untouched. */
  lemma {:induction false} BatchFrame(t: Tables, es: seq<Event>, order: int, kit: int)
    requires OnKit(es, order, kit)
    ensures Framed(t, Run(t, es), order, kit)
  {
    if es != [] {
      var s := Run(t, es[..|es| - 1]);
      BatchFrame(t, es[..|es| - 1], order, kit);
      ServeFramed(s, es[|es| - 1]);
      RunShape(t, es[..|es| - 1]);
      assert es[|es| - 1] in es;
      forall c ensures UsedInKit(s, order, kit, c) <==> UsedInKit(t, order, kit, c) {
        UsedInKitShape(t, s, order, kit, c);
      }
    }
  }

  lemma UsedInKitShape(t: Tables, t': Tables, order: int, kit: int, c: int)
    requires SameShape(t, t')
    ensures UsedInKit(t', order, kit, c) <==> UsedInKit(t, order, kit, c)
  {}
}
