/**
 * The allocator under concurrency: any number of requests in flight, each at some point between two
 * SQL statements, one statement of one of them at a time, resets in between.
 */
module Interleaving {
  import opened Wrappers
  import opened Rows
  import opened Tables
  import opened Invariants
  import opened Allocator

  /**
   * Where a client stands. In Writing, the class and the count that the take read are kept for the
   * bookkeeping of the proofs; the code does not use them.
   */
  datatype Place =
    | Next
    | Writing(key: GroupKey, value: int, tag: bool, classId: int, read: int)
    | Tagging(key: GroupKey)
    | Attaching(key: GroupKey, pick: Option<string>)

  datatype Client = Client(order: int, kit: int, todo: seq<Request>, place: Place)

  /** A finished take: the count its first statement read and the count its second overwrote. */
  datatype Finished = Finished(classId: int, read: int, overwritten: int)

  datatype Sys = Sys(t: Tables, clients: seq<Client>, finished: seq<Finished>)

  datatype ResetPart = Archived | Tags | Counts | Inventories

  datatype Action =
    | Arrive(order: int, kit: int, requests: seq<Request>)
    | Step(who: nat, pick: Option<string>)
    | ResetStep(part: ResetPart)

  predicate Idle(c: Client) {
    c.place.Next? && c.todo == []
  }

  ghost predicate Enabled(s: Sys, a: Action) {
    a.Step? ==>
      && a.who < |s.clients| && !Idle(s.clients[a.who])
      && (s.clients[a.who].place.Tagging? ==> IsFreePick(s.t, a.pick))
  }

  function AfterTake(key: GroupKey, tag: bool): Place {
    if tag then Tagging(key) else Next
  }

  /** One statement of client `who`. */
  function StepClient(s: Sys, who: nat, pick: Option<string>): Sys
    requires who < |s.clients| && !Idle(s.clients[who])
  {
    var c := s.clients[who];
    match c.place
    case Next => StartRequest(s, who)
    case Writing(key, value, tag, classId, read) =>
      var i := IndexOf(s.t.groups, key);
      Sys(SetCount(s.t, key, value),
          s.clients[who := c.(place := AfterTake(key, tag))],
          s.finished + [Finished(classId, read, if i < |s.t.groups| then s.t.groups[i].count else read)])
    case Tagging(key) => s.(clients := s.clients[who := c.(place := Attaching(key, pick))])
    case Attaching(key, picked) =>
      s.(t := SetTag(s.t, key, picked), clients := s.clients[who := c.(place := Next)])
  }

  /** The first statement of the next request. */
  function StartRequest(s: Sys, who: nat): Sys
    requires who < |s.clients| && s.clients[who].todo != []
  {
    var c := s.clients[who].(todo := s.clients[who].todo[1..]);
    var r := s.clients[who].todo[0];
    if IsTake(r) then
      var key, value := GroupKey(c.order, c.kit, r.id.value), r.value.value;
      if Accepts(s.t, key, value) then
        var g := s.t.groups[IndexOf(s.t.groups, key)];
        s.(t := Take(s.t, key, value),
           clients := s.clients[who := c.(place := Writing(key, value, r.tag.value, g.classId, g.count))])
      else s.(clients := s.clients[who := c.(place := AfterTake(key, r.tag.value))])
    else if Complete(r) then
      s.(t := SetStatus(s.t, c.order, c.kit, StatusOf(r)), clients := s.clients[who := c])
    else s.(clients := s.clients[who := c])
  }

  function ResetOne(t: Tables, part: ResetPart): Tables {
    match part
    case Archived => ClearArchived(t)
    case Tags => ClearTags(t)
    case Counts => ClearCounts(t)
    case Inventories => FillInventories(t)
  }

  function Exec(s: Sys, a: Action): Sys
    requires Enabled(s, a)
  {
    match a
    case Arrive(order, kit, requests) => s.(clients := s.clients + [Client(order, kit, requests, Next)])
    case Step(who, pick) => StepClient(s, who, pick)
    case ResetStep(part) => s.(t := ResetOne(s.t, part))
  }

  /** The states of an interleaving; each is the previous one after the action between them. */
  ghost predicate IsRun(states: seq<Sys>, actions: seq<Action>) {
    && |states| == |actions| + 1
    && forall i | 0 <= i < |actions| :: Enabled(states[i], actions[i]) && states[i + 1] == Exec(states[i], actions[i])
  }

  // ---------------------------------------------------------------------------------------
  // Requests served one at a time are one of the interleavings
  // ---------------------------------------------------------------------------------------

  function Requests(es: seq<Event>): seq<Request> {
    seq(|es|, i requires 0 <= i < |es| => es[i].request)
  }

  lemma StepReaches(first: Sys, s: Sys, who: nat, pick: Option<string>, next: Sys)
    requires Reaches(first, s) && Enabled(s, Step(who, pick)) && next == StepClient(s, who, pick)
    ensures Reaches(first, next)
  {
    assert next == Exec(s, Step(who, pick));
    ReachesOn(first, s, next);
  }

  /** The statements of one client's next request, uninterrupted, have the effect of Serve. */
  lemma SoloRequest(first: Sys, s: Sys, who: nat, e: Event, rest: seq<Request>) returns (last: Sys)
    requires Reaches(first, s) && who < |s.clients|
    requires s.clients[who] == Client(e.order, e.kit, [e.request] + rest, Next)
    requires Legal(s.t, e)
    ensures Reaches(first, last)
    ensures last.t == Serve(s.t, e) && last.clients == s.clients[who := Client(e.order, e.kit, rest, Next)]
  {
    assert ([e.request] + rest)[1..] == rest;
    last := StepClient(s, who, None);
    StepReaches(first, s, who, None, last);
    if last.clients[who].place.Writing? {
      var written := StepClient(last, who, None);
      StepReaches(first, last, who, None, written);
      last := written;
    }
    if last.clients[who].place.Tagging? {
      var picked := StepClient(last, who, e.pick);
      StepReaches(first, last, who, e.pick, picked);
      last := StepClient(picked, who, None);
      StepReaches(first, picked, who, None, last);
    }
  }

  /** So a whole batch served alone is an interleaving, and ends in the state Run computes. */
  lemma {:induction false} SoloBatch(first: Sys, s: Sys, who: nat, order: int, kit: int, es: seq<Event>, rest: seq<Request>)
      returns (last: Sys)
    requires Reaches(first, s) && who < |s.clients| && OnKit(es, order, kit) && LegalRun(s.t, es)
    requires s.clients[who] == Client(order, kit, Requests(es) + rest, Next)
    ensures Reaches(first, last)
    ensures last.t == Run(s.t, es) && last.clients == s.clients[who := Client(order, kit, rest, Next)]
  {
    if es == [] {
      assert Requests(es) + rest == rest;
      last := s;
    } else {
      var init, e := es[..|es| - 1], es[|es| - 1];
      assert Requests(es) + rest == Requests(init) + ([e.request] + rest);
      var mid := SoloBatch(first, s, who, order, kit, init, [e.request] + rest);
      assert e in es;
      last := SoloRequest(first, mid, who, e, rest);
    }
  }

  /** A state no request has touched. */
  ghost predicate Fresh(s: Sys) {
    s.clients == [] && s.finished == []
  }

  ghost predicate NoResets(actions: seq<Action>) {
    forall a | a in actions :: !a.ResetStep?
  }

  /** One statement of one client, or an arrival, leads from s to s'. */
  ghost predicate CanStep(s: Sys, s': Sys) {
    exists a: Action :: !a.ResetStep? && Enabled(s, a) && s' == Exec(s, a)
  }

  /** Some interleaving without resets leads from the first state to the last. */
  ghost predicate Reaches(first: Sys, last: Sys) {
    exists states: seq<Sys>, actions: seq<Action> ::
      IsRun(states, actions) && NoResets(actions) && states[0] == first && states[|actions|] == last
  }

  lemma ReachesItself(s: Sys)
    ensures Reaches(s, s)
  {
    assert IsRun([s], []) && NoResets([]);
  }

  lemma ReachesOn(first: Sys, last: Sys, next: Sys)
    requires Reaches(first, last) && CanStep(last, next)
    ensures Reaches(first, next)
  {
    var states: seq<Sys>, actions: seq<Action> :|
      IsRun(states, actions) && NoResets(actions) && states[0] == first && states[|actions|] == last;
    var a: Action :| !a.ResetStep? && Enabled(last, a) && next == Exec(last, a);
    RunExtends(states, actions, a, next);
    assert NoResets(actions + [a]);
  }

  lemma RunExtends(states: seq<Sys>, actions: seq<Action>, a: Action, next: Sys)
    requires IsRun(states, actions) && Enabled(states[|actions|], a) && next == Exec(states[|actions|], a)
    ensures IsRun(states + [next], actions + [a])
  {
    forall i | 0 <= i < |actions + [a]|
      ensures Enabled((states + [next])[i], (actions + [a])[i])
      ensures (states + [next])[i + 1] == Exec((states + [next])[i], (actions + [a])[i])
    {
      if i < |actions| {
        assert Enabled(states[i], actions[i]) && states[i + 1] == Exec(states[i], actions[i]);
      }
    }
  }

  lemma RunPrefix(states: seq<Sys>, actions: seq<Action>)
    requires IsRun(states, actions) && actions != []
    ensures var n := |actions|;
            && IsRun(states[..n], actions[..n - 1])
            && states[..n][0] == states[0] && states[..n][|actions[..n - 1]|] == states[n - 1]
            && Enabled(states[n - 1], actions[n - 1]) && states[n] == Exec(states[n - 1], actions[n - 1])
            && (NoResets(actions) ==> NoResets(actions[..n - 1]) && !actions[n - 1].ResetStep?)
  {
    assert forall a | a in actions[..|actions| - 1] :: a in actions;
    assert actions[|actions| - 1] in actions;
  }

  // ---------------------------------------------------------------------------------------
  // Safety in every interleaving
  // ---------------------------------------------------------------------------------------

  /** A client between its two updates still points at a row of the class it took from. */
  ghost predicate PlacesOk(s: Sys) {
    forall k | 0 <= k < |s.clients| :: PlaceOk(s.t, s.clients[k])
  }

  predicate PlaceOk(t: Tables, c: Client) {
    c.place.Writing? ==>
      var i := IndexOf(t.groups, c.place.key);
      i < |t.groups| && t.groups[i].classId == c.place.classId
  }

  ghost predicate PicksOk(s: Sys) {
    forall k | 0 <= k < |s.clients| && s.clients[k].place.Attaching? ::
      s.clients[k].place.pick.Some? ==> s.clients[k].place.pick.value in s.t.tags
  }

  ghost predicate Safe(s: Sys) {
    WellFormed(s.t) && PlacesOk(s) && PicksOk(s)
  }

  lemma ExecShape(s: Sys, a: Action)
    requires Enabled(s, a)
    ensures SameShape(s.t, Exec(s, a).t)
  {
    match a
    case Arrive(_, _, _) =>
    case ResetStep(_) => ResetKeepsShape(s.t);
    case Step(who, _) =>
      var c := s.clients[who];
      match c.place {
        case Next =>
          var r := c.todo[0];
          if IsTake(r) {
            StatementsKeepShape(s.t, GroupKey(c.order, c.kit, r.id.value), r.value.value, None);
          } else if Complete(r) {
            StatementsKeepShape(s.t, GroupKey(c.order, c.kit, 0), StatusOf(r), None);
          }
        case Writing(key, value, _, _, _) => StatementsKeepShape(s.t, key, value, None);
        case Tagging(_) =>
        case Attaching(key, pick) => StatementsKeepShape(s.t, key, 0, pick);
      }
  }

  lemma ShapeKeepsIndex(t: Tables, t': Tables, key: GroupKey)
    requires SameShape(t, t')
    ensures IndexOf(t'.groups, key) == IndexOf(t.groups, key)
  {}

  lemma ShapeKeepsPlace(t: Tables, t': Tables, c: Client)
    requires SameShape(t, t') && PlaceOk(t, c)
    ensures PlaceOk(t', c)
  {
    if c.place.Writing? { ShapeKeepsIndex(t, t', c.place.key); }
  }

  lemma StepPlace(s: Sys, who: nat, pick: Option<string>)
    requires Enabled(s, Step(who, pick))
    ensures PlaceOk(s.t, Exec(s, Step(who, pick)).clients[who])
  {}

  lemma ExecPlaces(s: Sys, a: Action)
    requires Enabled(s, a) && PlacesOk(s)
    ensures PlacesOk(Exec(s, a))
  {
    var s' := Exec(s, a);
    ExecShape(s, a);
    forall k | 0 <= k < |s'.clients| ensures PlaceOk(s'.t, s'.clients[k]) {
      if a.Step? && k == a.who {
        StepPlace(s, a.who, a.pick);
        ShapeKeepsPlace(s.t, s'.t, s'.clients[k]);
      } else if k < |s.clients| {
        ShapeKeepsPlace(s.t, s'.t, s.clients[k]);
      }
    }
  }

  lemma ExecPicks(s: Sys, a: Action)
    requires Enabled(s, a) && PicksOk(s)
    ensures PicksOk(Exec(s, a))
  {
    ExecShape(s, a);
  }

  lemma SetTagKeepsTagsOk(t: Tables, key: GroupKey, pick: Option<string>)
    requires TagsOk(t) && (pick.Some? ==> pick.value in t.tags)
    ensures TagsOk(SetTag(t, key, pick))
  {}

  lemma ExecTagsOk(s: Sys, a: Action)
    requires Enabled(s, a) && TagsOk(s.t) && PicksOk(s)
    ensures TagsOk(Exec(s, a).t)
  {
    if a.Step? && s.clients[a.who].place.Attaching? {
      SetTagKeepsTagsOk(s.t, s.clients[a.who].place.key, s.clients[a.who].place.pick);
    }
  }

  lemma ExecSafe(s: Sys, a: Action)
    requires Enabled(s, a) && Safe(s)
    ensures Safe(Exec(s, a))
  {
    ExecShape(s, a);
    ShapeKeepsKeys(s.t, Exec(s, a).t);
    ExecPlaces(s, a);
    ExecPicks(s, a);
    ExecTagsOk(s, a);
  }

  lemma ExecNoShortage(s: Sys, a: Action)
    requires Enabled(s, a) && NoShortage(s.t)
    ensures NoShortage(Exec(s, a).t)
  {}

  /** Keys, references, dense ids and known tags hold in every state of every interleaving. */
  lemma {:induction false} RunSafe(states: seq<Sys>, actions: seq<Action>)
    requires IsRun(states, actions) && Safe(states[0])
    ensures forall s | s in states :: Safe(s)
  {
    if actions == [] {
    } else {
      var n := |actions|;
      RunSafe(states[..n], actions[..n - 1]);
      assert states[..n][n - 1] == states[n - 1];
      ExecSafe(states[n - 1], actions[n - 1]);
      assert states == states[..n] + [states[n]];
    }
  }

  /** No inventory is ever negative, overlapping takes and stale counts included. */
  lemma {:induction false} NeverShort(states: seq<Sys>, actions: seq<Action>)
    requires IsRun(states, actions) && NoShortage(states[0].t)
    ensures forall s | s in states :: NoShortage(s.t)
  {
    if actions == [] {
    } else {
      var n := |actions|;
      NeverShort(states[..n], actions[..n - 1]);
      assert states[..n][n - 1] == states[n - 1];
      ExecNoShortage(states[n - 1], actions[n - 1]);
      assert states == states[..n] + [states[n]];
    }
  }

  // ---------------------------------------------------------------------------------------
  // Conservation
  // ---------------------------------------------------------------------------------------

  /** What a client between its two updates has taken out and not yet booked in. */
  function InFlight(c: int): Client -> int {
    (k: Client) => if k.place.Writing? && k.place.classId == c then k.place.value - k.place.read else 0
  }

  function Drift(c: int): Finished -> int {
    (f: Finished) => if f.classId == c then f.read - f.overwritten else 0
  }

  /** Inventory, counts and pieces in flight. */
  ghost function TotalStock(s: Sys, c: int): int {
    Stock(s.t, c) + Sum(s.clients, InFlight(c))
  }

  ghost function TotalDrift(s: Sys, c: int): int {
    Sum(s.finished, Drift(c))
  }

  lemma TakeBooked(s: Sys, a: Action, c: int)
    requires a.Step? && Enabled(s, a) && Safe(s) && s.clients[a.who].place.Next?
    ensures TotalStock(Exec(s, a), c) == TotalStock(s, c) && Exec(s, a).finished == s.finished
  {
    var s' := Exec(s, a);
    assert Sum(s'.clients, InFlight(c)) ==
           Sum(s.clients, InFlight(c)) + InFlight(c)(s'.clients[a.who]) - InFlight(c)(s.clients[a.who]) by {
      SumUpdate(s.clients, a.who, s'.clients[a.who], InFlight(c));
    }
    assert Taken(s'.t, c) == Taken(s.t, c) by { TakenUnchanged(s.t, s'.t, c); }
  }

  lemma WriteBooked(s: Sys, a: Action, c: int)
    requires a.Step? && Enabled(s, a) && Safe(s) && s.clients[a.who].place.Writing?
    ensures TotalStock(Exec(s, a), c) - TotalDrift(Exec(s, a), c) == TotalStock(s, c) - TotalDrift(s, c)
  {
    var p := s.clients[a.who].place;
    var s' := Exec(s, a);
    SumUpdate(s.clients, a.who, s'.clients[a.who], InFlight(c));
    TakenAfterSetCount(s.t, p.key, p.value, c);
    SumAppend(s.finished, s'.finished[|s.finished|], Drift(c));
  }

  lemma TagsBooked(s: Sys, a: Action, c: int)
    requires a.Step? && Enabled(s, a)
    requires s.clients[a.who].place.Tagging? || s.clients[a.who].place.Attaching?
    ensures TotalStock(Exec(s, a), c) == TotalStock(s, c) && Exec(s, a).finished == s.finished
  {
    var s' := Exec(s, a);
    SumUpdate(s.clients, a.who, s'.clients[a.who], InFlight(c));
    TakenUnchanged(s.t, s'.t, c);
  }

  lemma ExecBooked(s: Sys, a: Action, c: int)
    requires Enabled(s, a) && Safe(s) && !a.ResetStep?
    ensures TotalStock(Exec(s, a), c) - TotalDrift(Exec(s, a), c) == TotalStock(s, c) - TotalDrift(s, c)
  {
    match a
    case Arrive(order, kit, requests) =>
      SumAppend(s.clients, Client(order, kit, requests, Next), InFlight(c));
    case Step(who, _) =>
      if s.clients[who].place.Next? {
        TakeBooked(s, a, c);
      } else if s.clients[who].place.Writing? {
        WriteBooked(s, a, c);
      } else {
        TagsBooked(s, a, c);
      }
  }

  lemma SafeBeforeLast(states: seq<Sys>, actions: seq<Action>)
    requires IsRun(states, actions) && Safe(states[0]) && actions != []
    ensures Safe(states[|actions| - 1])
  {
    RunSafe(states, actions);
    assert states[|actions| - 1] in states;
  }

  /**
   * In every interleaving: inventory plus counts plus pieces in flight is the initial total plus, over
   * the finished takes, the count read minus the count overwritten.
   */
  lemma {:induction false} Conservation(states: seq<Sys>, actions: seq<Action>, c: int)
    requires IsRun(states, actions) && Safe(states[0]) && NoResets(actions)
    ensures var first, last := states[0], states[|actions|];
            TotalStock(last, c) == TotalStock(first, c) + TotalDrift(last, c) - TotalDrift(first, c)
  {
    if actions != [] {
      var n := |actions|;
      RunPrefix(states, actions);
      Conservation(states[..n], actions[..n - 1], c);
      SafeBeforeLast(states, actions);
      ExecBooked(states[n - 1], actions[n - 1], c);
    }
  }

  /** The statement overwrites a count of the class other than the one its take read. */
  ghost predicate StaleWrite(s: Sys, a: Action, c: int) {
    && a.Step? && a.who < |s.clients| && s.clients[a.who].place.Writing? && s.clients[a.who].place.classId == c
    && var i := IndexOf(s.t.groups, s.clients[a.who].place.key);
    i < |s.t.groups| && s.t.groups[i].count != s.clients[a.who].place.read
  }

  lemma DriftKeptExactly(s: Sys, a: Action, c: int)
    requires Enabled(s, a) && PlacesOk(s)
    ensures TotalDrift(Exec(s, a), c) == TotalDrift(s, c) <==> !StaleWrite(s, a, c)
  {
    if a.Step? && s.clients[a.who].place.Writing? {
      SumAppend(s.finished, Exec(s, a).finished[|s.finished|], Drift(c));
    } else {
      assert Exec(s, a).finished == s.finished;
    }
  }

  /** A statement changes the total of a class exactly if it writes over a count its take did not read. */
  lemma StockKeptExactly(s: Sys, a: Action, c: int)
    requires Enabled(s, a) && Safe(s) && !a.ResetStep?
    ensures TotalStock(Exec(s, a), c) == TotalStock(s, c) <==> !StaleWrite(s, a, c)
  {
    ExecBooked(s, a, c);
    DriftKeptExactly(s, a, c);
  }

  /** The second statement of a take moves the total by the count read less the count overwritten. */
  lemma WriteDrift(s: Sys, who: nat)
    requires Safe(s) && who < |s.clients| && s.clients[who].place.Writing?
    ensures var p := s.clients[who].place;
            TotalStock(Exec(s, Action.Step(who, None)), p.classId) ==
            TotalStock(s, p.classId) + p.read - s.t.groups[IndexOf(s.t.groups, p.key)].count
  {
    var s' := Exec(s, Action.Step(who, None));
    WriteBooked(s, Action.Step(who, None), s.clients[who].place.classId);
    SumAppend(s.finished, s'.finished[|s.finished|], Drift(s.clients[who].place.classId));
  }

  /**
   * Two clients stand between their two updates on one group, and the first read its count right: once
   * both have written, the total has moved by the count the second read less the value of the first.
   */
  lemma OverlapDrift(s: Sys, j: nat, k: nat)
    requires Safe(s) && j < |s.clients| && k < |s.clients| && j != k
    requires s.clients[j].place.Writing? && s.clients[k].place.Writing?
    requires s.clients[j].place.key == s.clients[k].place.key
    requires s.t.groups[IndexOf(s.t.groups, s.clients[j].place.key)].count == s.clients[j].place.read
    ensures var c, s1 := s.clients[j].place.classId, Exec(s, Action.Step(j, None));
            TotalStock(Exec(s1, Action.Step(k, None)), c) ==
            TotalStock(s, c) + s.clients[k].place.read - s.clients[j].place.value
  {
    var c, key := s.clients[j].place.classId, s.clients[j].place.key;
    var a := Action.Step(j, None);
    var s1 := Exec(s, a);
    assert TotalStock(s1, c) == TotalStock(s, c) by { StockKeptExactly(s, a, c); }
    assert Safe(s1) by { ExecSafe(s, a); }
    assert s1.t.groups[IndexOf(s1.t.groups, key)].count == s.clients[j].place.value by {
      SetCountAt(s.t, key, s.clients[j].place.value);
      ExecShape(s, a);
      ShapeKeepsIndex(s.t, s1.t, key);
    }
    assert s1.clients[k] == s.clients[k];
    WriteDrift(s1, k);
  }

  /** No two clients are between their two updates on the same group. */
  ghost predicate NoOverlap(s: Sys) {
    forall j, k | 0 <= j < k < |s.clients| && s.clients[j].place.Writing? && s.clients[k].place.Writing? ::
      s.clients[j].place.key != s.clients[k].place.key
  }

  /** The count a client read is still the count of the row. */
  ghost predicate ReadsCurrent(s: Sys) {
    forall k | 0 <= k < |s.clients| :: ReadOk(s.t, s.clients[k])
  }

  predicate ReadOk(t: Tables, c: Client) {
    c.place.Writing? ==>
      var i := IndexOf(t.groups, c.place.key);
      i < |t.groups| ==> t.groups[i].count == c.place.read
  }

  lemma CountsKeepRead(t: Tables, t': Tables, c: Client)
    requires SameShape(t, t') && ReadOk(t, c)
    requires forall i | 0 <= i < |t.groups| :: t'.groups[i].count == t.groups[i].count
    ensures ReadOk(t', c)
  {
    if c.place.Writing? { ShapeKeepsIndex(t, t', c.place.key); }
  }

  lemma StepRead(s: Sys, who: nat, pick: Option<string>)
    requires Enabled(s, Step(who, pick))
    ensures ReadOk(s.t, Exec(s, Step(who, pick)).clients[who])
  {}

  lemma WriteReadsCurrent(s: Sys, a: Action)
    requires a.Step? && Enabled(s, a) && s.clients[a.who].place.Writing?
    requires UniqueKeys(s.t.groups) && NoOverlap(s) && ReadsCurrent(s)
    ensures ReadsCurrent(Exec(s, a))
  {}

  lemma OtherStatementsReadCurrent(s: Sys, a: Action)
    requires Enabled(s, a) && !a.ResetStep? && ReadsCurrent(s)
    requires a.Step? ==> !s.clients[a.who].place.Writing?
    ensures ReadsCurrent(Exec(s, a))
  {
    var s' := Exec(s, a);
    ExecShape(s, a);
    assert forall i | 0 <= i < |s.t.groups| :: s'.t.groups[i].count == s.t.groups[i].count;
    forall k | 0 <= k < |s'.clients| ensures ReadOk(s'.t, s'.clients[k]) {
      if a.Step? && k == a.who {
        StepRead(s, a.who, a.pick);
        CountsKeepRead(s.t, s'.t, s'.clients[k]);
      } else if k < |s.clients| {
        CountsKeepRead(s.t, s'.t, s.clients[k]);
      }
    }
  }

  lemma ExecReadsCurrent(s: Sys, a: Action)
    requires Enabled(s, a) && UniqueKeys(s.t.groups) && !a.ResetStep? && NoOverlap(s) && ReadsCurrent(s)
    ensures ReadsCurrent(Exec(s, a))
  {
    if a.Step? && s.clients[a.who].place.Writing? {
      WriteReadsCurrent(s, a);
    } else {
      OtherStatementsReadCurrent(s, a);
    }
  }

  lemma CurrentReadsDoNotDrift(s: Sys, a: Action, c: int)
    requires Enabled(s, a) && ReadsCurrent(s)
    ensures TotalDrift(Exec(s, a), c) == TotalDrift(s, c)
  {
    if a.Step? && s.clients[a.who].place.Writing? {
      SumAppend(s.finished, Exec(s, a).finished[|s.finished|], Drift(c));
    }
  }

  lemma {:induction false} RunReadsCurrent(states: seq<Sys>, actions: seq<Action>, c: int)
    requires IsRun(states, actions) && NoResets(actions)
    requires forall s | s in states :: NoOverlap(s) && UniqueKeys(s.t.groups)
    requires ReadsCurrent(states[0])
    ensures ReadsCurrent(states[|actions|])
    ensures TotalDrift(states[|actions|], c) == TotalDrift(states[0], c)
  {
    if actions != [] {
      var n := |actions|;
      RunPrefix(states, actions);
      assert forall s | s in states[..n] :: s in states;
      RunReadsCurrent(states[..n], actions[..n - 1], c);
      assert states[n - 1] in states;
      ExecReadsCurrent(states[n - 1], actions[n - 1]);
      CurrentReadsDoNotDrift(states[n - 1], actions[n - 1], c);
    }
  }

  /** Without overlap on a group, conservation is exact. */
  lemma ExactWithoutOverlap(states: seq<Sys>, actions: seq<Action>, c: int)
    requires IsRun(states, actions) && Safe(states[0]) && NoResets(actions)
    requires ReadsCurrent(states[0]) && forall s | s in states :: NoOverlap(s)
    ensures TotalStock(states[|actions|], c) == TotalStock(states[0], c)
  {
    Conservation(states, actions, c);
    RunSafe(states, actions);
    forall s | s in states ensures NoOverlap(s) && UniqueKeys(s.t.groups) { assert Safe(s); }
    RunReadsCurrent(states, actions, c);
  }

  // ---------------------------------------------------------------------------------------
  // Resets inside a run
  // ---------------------------------------------------------------------------------------

  /** Actions p to p + 3 are the four statements of reset.php. */
  ghost predicate ResetsAt(actions: seq<Action>, p: nat) {
    && p + 4 <= |actions|
    && actions[p] == ResetStep(Archived) && actions[p + 1] == ResetStep(Tags)
    && actions[p + 2] == ResetStep(Counts) && actions[p + 3] == ResetStep(Inventories)
  }

  lemma ResetsReset(states: seq<Sys>, actions: seq<Action>, p: nat)
    requires IsRun(states, actions) && ResetsAt(actions, p)
    ensures states[p + 4] == states[p].(t := Reset(states[p].t))
  {
    assert states[p + 1] == Exec(states[p], actions[p]);
    assert states[p + 2] == Exec(states[p + 1], actions[p + 1]);
    assert states[p + 3] == Exec(states[p + 2], actions[p + 2]);
    assert states[p + 4] == Exec(states[p + 3], actions[p + 3]);
  }

  lemma RunSuffix(states: seq<Sys>, actions: seq<Action>, p: nat)
    requires IsRun(states, actions) && p <= |actions|
    ensures IsRun(states[p..], actions[p..])
    ensures states[p..][0] == states[p] && states[p..][|actions[p..]|] == states[|actions|]
  {
    forall i | 0 <= i < |actions[p..]|
      ensures Enabled(states[p..][i], actions[p..][i]) && states[p..][i + 1] == Exec(states[p..][i], actions[p..][i])
    {
      assert Enabled(states[p + i], actions[p + i]) && states[p + i + 1] == Exec(states[p + i], actions[p + i]);
    }
  }

  /** From the last reset on, the total is 2500, the pieces in flight at the reset, and the drift since. */
  lemma ConservationFromReset(states: seq<Sys>, actions: seq<Action>, p: nat, c: int)
    requires IsRun(states, actions) && Safe(states[0]) && ResetsAt(actions, p) && NoResets(actions[p + 4..])
    requires c in states[p].t.classes
    ensures var s, last := states[p], states[|actions|];
            TotalStock(last, c) ==
            2500 + Sum(s.clients, InFlight(c)) + TotalDrift(last, c) - TotalDrift(s, c)
  {
    ResetsReset(states, actions, p);
    ResetBaseline(states[p].t);
    RunSafe(states, actions);
    assert states[p + 4] in states;
    RunSuffix(states, actions, p + 4);
    Conservation(states[p + 4..], actions[p + 4..], c);
  }

  ghost predicate NobodyWriting(s: Sys) {
    forall k | 0 <= k < |s.clients| :: !s.clients[k].place.Writing?
  }

  /** A reset while no take is half done gives exact conservation of 2500 until takes on a group overlap. */
  lemma ExactFromReset(states: seq<Sys>, actions: seq<Action>, p: nat, c: int)
    requires IsRun(states, actions) && Safe(states[0]) && ResetsAt(actions, p) && NoResets(actions[p + 4..])
    requires NobodyWriting(states[p]) && forall s | s in states[p + 4..] :: NoOverlap(s)
    requires c in states[p].t.classes
    ensures TotalStock(states[|actions|], c) == 2500
  {
    ResetsReset(states, actions, p);
    ResetBaseline(states[p].t);
    RunSafe(states, actions);
    assert states[p + 4] in states;
    RunSuffix(states, actions, p + 4);
    ExactWithoutOverlap(states[p + 4..], actions[p + 4..], c);
    SumZero(states[p].clients, InFlight(c));
  }

  /** No statement of any interleaving adds or removes a row. */
  lemma {:induction false} RunKeepsShape(states: seq<Sys>, actions: seq<Action>, i: nat)
    requires IsRun(states, actions) && i <= |actions|
    ensures SameShape(states[0].t, states[i].t)
  {
    if i > 0 {
      RunKeepsShape(states, actions, i - 1);
      ExecShape(states[i - 1], actions[i - 1]);
      assert states[i] == Exec(states[i - 1], actions[i - 1]);
      SameShapeTransitive(states[0].t, states[i - 1].t, states[i].t);
    }
  }

  // ---------------------------------------------------------------------------------------
  // Tags
  // ---------------------------------------------------------------------------------------

  /** At most one client is between its tag query and the statement that attaches the tag. */
  ghost predicate NoTagOverlap(s: Sys) {
    forall j, k | 0 <= j < k < |s.clients| :: !(s.clients[j].place.Attaching? && s.clients[k].place.Attaching?)
  }

  /** A real tag that a client is about to attach is attached nowhere. */
  ghost predicate PicksFree(s: Sys) {
    forall k | 0 <= k < |s.clients| && s.clients[k].place.Attaching? ::
      var pick := s.clients[k].place.pick;
      pick.Some? && pick.value != "" ==> forall i | 0 <= i < |s.t.groups| :: s.t.groups[i].tag != pick
  }

  lemma AttachKeepsDistinct(t: Tables, key: GroupKey, pick: Option<string>)
    requires UniqueKeys(t.groups) && DistinctTags(t.groups)
    requires pick.Some? && pick.value != "" ==> forall i | 0 <= i < |t.groups| :: t.groups[i].tag != pick
    ensures DistinctTags(SetTag(t, key, pick).groups)
  {
    var t' := SetTag(t, key, pick);
    forall i | 0 <= i < |t.groups|
      ensures t'.groups[i].tag == t.groups[i].tag || (t.groups[i].key == key && t'.groups[i].tag == pick)
    {}
  }

  /** Attaching a tag makes real tags collide exactly if a complete group gets a tag that another one has. */
  lemma AttachCollidesExactly(t: Tables, pick: Option<string>, i: nat)
    requires UniqueKeys(t.groups) && DistinctTags(t.groups) && i < |t.groups|
    ensures var g := t.groups[i];
            !DistinctTags(SetTag(t, g.key, pick).groups) <==>
            && g.count == g.target && pick.Some? && pick.value != ""
            && exists j :: 0 <= j < |t.groups| && j != i && t.groups[j].tag == pick
  {}

  lemma ExecPicksFree(s: Sys, a: Action)
    requires Enabled(s, a) && PicksFree(s) && NoTagOverlap(s)
    ensures PicksFree(Exec(s, a))
  {}

  lemma TagsKeptOrCleared(s: Sys, a: Action)
    requires Enabled(s, a) && (a.Step? ==> !s.clients[a.who].place.Attaching?)
    ensures |Exec(s, a).t.groups| == |s.t.groups|
    ensures forall i | 0 <= i < |s.t.groups| ::
              Exec(s, a).t.groups[i].tag == s.t.groups[i].tag || Exec(s, a).t.groups[i].tag == Some("")
  {
    ExecShape(s, a);
  }

  lemma ExecDistinctTags(s: Sys, a: Action)
    requires Enabled(s, a) && UniqueKeys(s.t.groups) && PicksFree(s) && DistinctTags(s.t.groups)
    ensures DistinctTags(Exec(s, a).t.groups)
  {
    if a.Step? && s.clients[a.who].place.Attaching? {
      AttachKeepsDistinct(s.t, s.clients[a.who].place.key, s.clients[a.who].place.pick);
    } else {
      TagsKeptOrCleared(s, a);
    }
  }

  /** If tag queries and attachments do not overlap, real tags stay pairwise distinct. */
  lemma {:induction false} DistinctWithoutTagOverlap(states: seq<Sys>, actions: seq<Action>)
    requires IsRun(states, actions)
    requires forall s | s in states :: NoTagOverlap(s) && UniqueKeys(s.t.groups)
    requires DistinctTags(states[0].t.groups) && PicksFree(states[0])
    ensures DistinctTags(states[|actions|].t.groups) && PicksFree(states[|actions|])
  {
    if actions != [] {
      var n := |actions|;
      RunPrefix(states, actions);
      assert forall s | s in states[..n] :: s in states;
      DistinctWithoutTagOverlap(states[..n], actions[..n - 1]);
      assert states[n - 1] in states;
      ExecPicksFree(states[n - 1], actions[n - 1]);
      ExecDistinctTags(states[n - 1], actions[n - 1]);
    }
  }
}
