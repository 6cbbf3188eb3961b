/**
 * What locking would buy the allocator. If no take starts on a group while another take on it is
 * unfinished, and no tagging take while another tagging take is, then every interleaving whose clients all
 * finish ends in the tables that serving the same requests one at a time leaves, in the order of their
 * first statements.
 */
module Serializability {
  import opened Wrappers
  import opened Tables
  import opened Invariants
  import opened Allocator
  import opened Interleaving

  // ---------------------------------------------------------------------------------------
  // The discipline
  // ---------------------------------------------------------------------------------------

  predicate BusyOn(c: Client, key: GroupKey) {
    !c.place.Next? && c.place.key == key
  }

  /** The client has begun a take that will still attach a tag. */
  predicate InTagSection(c: Client) {
    c.place.Tagging? || c.place.Attaching? || (c.place.Writing? && c.place.tag)
  }

  /** The action is the first statement of client who's next request. */
  predicate Starts(s: Sys, a: Action) {
    a.Step? && a.who < |s.clients| && s.clients[a.who].place.Next? && s.clients[a.who].todo != []
  }

  function StartedEvent(s: Sys, a: Action): Event
    requires Starts(s, a)
  {
    var c := s.clients[a.who];
    Event(c.order, c.kit, c.todo[0], None)
  }

  /** A take starts only when nobody is busy on its group, and a tagging one only outside all tag sections. */
  ghost predicate Clear(s: Sys, a: Action) {
    Starts(s, a) && IsTake(StartedEvent(s, a).request) ==>
      forall k | 0 <= k < |s.clients| ::
        && !BusyOn(s.clients[k], KeyOf(StartedEvent(s, a)))
        && (StartedEvent(s, a).request.tag.value ==> !InTagSection(s.clients[k]))
  }

  /** Nobody is inside a request. */
  ghost predicate AtRest(s: Sys) {
    forall k | 0 <= k < |s.clients| :: s.clients[k].place.Next?
  }

  ghost predicate AllClear(states: seq<Sys>, actions: seq<Action>)
    requires |states| == |actions| + 1
  {
    forall i | 0 <= i < |actions| :: Clear(states[i], actions[i])
  }

  /** No two clients are busy on one group, or both in a tag section. */
  ghost predicate Exclusive(s: Sys) {
    forall j, k | 0 <= j < |s.clients| && 0 <= k < |s.clients| && j != k && !s.clients[j].place.Next? ::
      && !BusyOn(s.clients[k], s.clients[j].place.key)
      && !(InTagSection(s.clients[j]) && InTagSection(s.clients[k]))
  }

  lemma ExecExclusive(s: Sys, a: Action)
    requires Enabled(s, a) && Clear(s, a) && Exclusive(s) && !a.ResetStep?
    ensures Exclusive(Exec(s, a))
  {
    var s' := Exec(s, a);
    if a.Step? && !s.clients[a.who].place.Next? {
      var was, now := s.clients[a.who], s'.clients[a.who];
      assert now.place.Next? || (now.place.key == was.place.key && (InTagSection(now) ==> InTagSection(was)));
    }
  }

  function Started(s: Sys, a: Action): seq<Event> {
    if Starts(s, a) then [StartedEvent(s, a)] else []
  }

  /** The requests in the order of their first statements. */
  function StartOrder(states: seq<Sys>, actions: seq<Action>): seq<Event>
    requires |states| == |actions| + 1
  {
    if actions == [] then []
    else
      var n := |actions|;
      StartOrder(states[..n], actions[..n - 1]) + Started(states[n - 1], actions[n - 1])
  }

  function StartedIn(s: Sys, a: Action, k: nat): seq<Request> {
    if Starts(s, a) && a.who == k then [StartedEvent(s, a).request] else []
  }

  /** The requests that client k has started, in order. */
  function StartedBy(states: seq<Sys>, actions: seq<Action>, k: nat): seq<Request>
    requires |states| == |actions| + 1
  {
    if actions == [] then []
    else
      var s, a := states[|actions| - 1], actions[|actions| - 1];
      StartedBy(states[..|actions|], actions[..|actions| - 1], k) + StartedIn(s, a, k)
  }

  function Arrivals(actions: seq<Action>): seq<Action> {
    if actions == [] then []
    else
      var last := actions[|actions| - 1];
      Arrivals(actions[..|actions| - 1]) + if last.Arrive? then [last] else []
  }

  /** Client k is the k-th arrival; what it has started is its batch less what it has still to do. */
  ghost predicate BatchSplit(s: Sys, arrivals: seq<Action>, k: nat, started: seq<Request>) {
    && k < |s.clients| == |arrivals| && arrivals[k].Arrive?
    && s.clients[k].order == arrivals[k].order && s.clients[k].kit == arrivals[k].kit
    && started + s.clients[k].todo == arrivals[k].requests
  }

  lemma {:induction false} ArrivalsAreClients(states: seq<Sys>, actions: seq<Action>)
    requires IsRun(states, actions) && Fresh(states[0])
    ensures |Arrivals(actions)| == |states[|actions|].clients|
    ensures forall k: nat | k >= |Arrivals(actions)| :: StartedBy(states, actions, k) == []
  {
    if actions != [] {
      ArrivalsAreClients(states[..|actions|], actions[..|actions| - 1]);
      assert states[|actions|] == Exec(states[|actions| - 1], actions[|actions| - 1]);
    }
  }

  lemma BatchStep(s: Sys, a: Action, arrivals: seq<Action>, k: nat, started: seq<Request>)
    requires Enabled(s, a) && BatchSplit(s, arrivals, k, started)
    ensures BatchSplit(Exec(s, a), if a.Arrive? then arrivals + [a] else arrivals, k, started + StartedIn(s, a, k))
  {}

  /** Every client starts the requests of its batch, each once, in their order. */
  lemma {:induction false} BatchesInOrder(states: seq<Sys>, actions: seq<Action>, k: nat)
    requires IsRun(states, actions) && Fresh(states[0]) && k < |states[|actions|].clients|
    ensures BatchSplit(states[|actions|], Arrivals(actions), k, StartedBy(states, actions, k))
  {
    if actions != [] {
      var n := |actions|;
      var s, a := states[n - 1], actions[n - 1];
      var arrivals, started := Arrivals(actions[..n - 1]), StartedBy(states[..n], actions[..n - 1], k);
      RunPrefix(states, actions);
      ArrivalsAreClients(states[..n], actions[..n - 1]);
      LastArrival(states, actions, k);
      if k < |s.clients| {
        BatchesInOrder(states[..n], actions[..n - 1], k);
        BatchStep(s, a, arrivals, k, started);
      } else {
        NewBatch(s, a, arrivals, k, started);
      }
    }
  }

  lemma LastArrival(states: seq<Sys>, actions: seq<Action>, k: nat)
    requires |states| == |actions| + 1 && actions != []
    ensures var n, a := |actions|, actions[|actions| - 1];
            && Arrivals(actions) == (if a.Arrive? then Arrivals(actions[..n - 1]) + [a] else Arrivals(actions[..n - 1]))
            && StartedBy(states, actions, k) ==
               StartedBy(states[..n], actions[..n - 1], k) + StartedIn(states[n - 1], a, k)
  {
    assert Arrivals(actions[..|actions| - 1]) + [] == Arrivals(actions[..|actions| - 1]);
  }

  lemma NewBatch(s: Sys, a: Action, arrivals: seq<Action>, k: nat, started: seq<Request>)
    requires Enabled(s, a) && |arrivals| == |s.clients| && started == []
    requires |s.clients| <= k < |Exec(s, a).clients|
    ensures a.Arrive? && BatchSplit(Exec(s, a), arrivals + [a], k, started + StartedIn(s, a, k))
  {
    assert started + StartedIn(s, a, k) == [];
  }

  /** The same requests to the same kits in the same order; the tags picked may differ. */
  ghost predicate SameRequests(es: seq<Event>, es': seq<Event>) {
    |es| == |es'| && forall i | 0 <= i < |es| :: es'[i] == es[i].(pick := es'[i].pick)
  }

  // ---------------------------------------------------------------------------------------
  // Booking the pending counts
  // ---------------------------------------------------------------------------------------

  predicate WritesTo(s: Sys, k: nat, key: GroupKey) {
    k < |s.clients| && s.clients[k].place.Writing? && s.clients[k].place.key == key
  }

  /** h is g with the count that a client is about to write, if there is such a client. */
  ghost predicate RowBooked(s: Sys, g: GroupRow, h: GroupRow) {
    && h == g.(count := h.count)
    && (forall k: nat | WritesTo(s, k, g.key) :: h.count == s.clients[k].place.value)
    && (h.count == g.count || exists k: nat :: WritesTo(s, k, g.key))
  }

  /** u is the tables of s with every pending count written. */
  ghost predicate Booked(s: Sys, u: Tables) {
    && u == s.t.(groups := u.groups) && |u.groups| == |s.t.groups|
    && forall i | 0 <= i < |u.groups| :: RowBooked(s, s.t.groups[i], u.groups[i])
  }

  lemma SameKeysSameIndex(groups: seq<GroupRow>, groups': seq<GroupRow>, key: GroupKey)
    requires |groups'| == |groups| && forall i | 0 <= i < |groups| :: groups'[i].key == groups[i].key
    ensures IndexOf(groups', key) == IndexOf(groups, key)
  {
    var i, i' := IndexOf(groups, key), IndexOf(groups', key);
    assert i < |groups| ==> groups'[i].key == key;
    assert i' < |groups| ==> groups[i'].key == key;
  }

  lemma RowsStayBooked(s: Sys, s': Sys, u: Tables)
    requires Booked(s, u) && s'.t.groups == s.t.groups
    requires forall k: nat, key :: WritesTo(s', k, key) <==> WritesTo(s, k, key)
    requires forall k: nat, key | WritesTo(s, k, key) && WritesTo(s', k, key) ::
               s'.clients[k].place.value == s.clients[k].place.value
    ensures forall i | 0 <= i < |u.groups| :: RowBooked(s', s'.t.groups[i], u.groups[i])
  {
    forall i | 0 <= i < |u.groups| ensures RowBooked(s', s'.t.groups[i], u.groups[i]) {
      assert RowBooked(s, s.t.groups[i], u.groups[i]);
      if k: nat :| WritesTo(s, k, s.t.groups[i].key) { assert WritesTo(s', k, s.t.groups[i].key); }
    }
  }

  /** Statements that are no take, no count and no attachment. */
  lemma OtherStatementsBooked(s: Sys, a: Action, u: Tables)
    requires Enabled(s, a) && Booked(s, u) && !a.ResetStep?
    requires a.Step? ==> s.clients[a.who].place.Tagging? || (Starts(s, a) && !IsTake(StartedEvent(s, a).request))
    ensures Booked(Exec(s, a), if Starts(s, a) then Serve(u, StartedEvent(s, a)) else u)
  {
    RowsStayBooked(s, Exec(s, a), u);
  }

  lemma RejectedTakeBooked(s: Sys, a: Action, u: Tables)
    requires Enabled(s, a) && Starts(s, a) && IsTake(StartedEvent(s, a).request) && Booked(s, u)
    requires var e := StartedEvent(s, a); !Accepts(s.t, KeyOf(e), e.request.value.value)
    ensures Booked(Exec(s, a), u)
  {
    RowsStayBooked(s, Exec(s, a), u);
  }

  /** Where nobody writes, the booked tables decide a take as the real ones do. */
  lemma SameVerdict(s: Sys, u: Tables, key: GroupKey, value: int)
    requires Booked(s, u) && forall k: nat :: !WritesTo(s, k, key)
    ensures IndexOf(u.groups, key) == IndexOf(s.t.groups, key)
    ensures Accepts(u, key, value) == Accepts(s.t, key, value)
    ensures Take(u, key, value) == Take(s.t, key, value).(groups := u.groups)
  {
    assert forall i | 0 <= i < |u.groups| :: RowBooked(s, s.t.groups[i], u.groups[i]);
    SameKeysSameIndex(s.t.groups, u.groups, key);
    var i := IndexOf(u.groups, key);
    if i < |u.groups| { assert u.groups[i].count == s.t.groups[i].count; }
  }

  lemma AcceptedTakeBooked(s: Sys, a: Action, u: Tables)
    requires Enabled(s, a) && Starts(s, a) && IsTake(StartedEvent(s, a).request) && Booked(s, u)
    requires UniqueKeys(s.t.groups) && Clear(s, a)
    requires var e := StartedEvent(s, a); Accepts(s.t, KeyOf(e), e.request.value.value)
    ensures var e := StartedEvent(s, a); Booked(Exec(s, a), TakeAndWrite(u, KeyOf(e), e.request.value.value))
  {
    var e := StartedEvent(s, a);
    var key, value := KeyOf(e), e.request.value.value;
    var s', u' := Exec(s, a), TakeAndWrite(u, key, value);
    forall k: nat ensures !WritesTo(s, k, key) {}
    SameVerdict(s, u, key, value);
    assert UniqueKeys(u.groups) by { assert forall i | 0 <= i < |u.groups| :: RowBooked(s, s.t.groups[i], u.groups[i]); }
    SetCountAt(Take(u, key, value), key, value);
    var at := IndexOf(u.groups, key);
    forall i | 0 <= i < |u'.groups| ensures RowBooked(s', s'.t.groups[i], u'.groups[i]) {
      assert RowBooked(s, s.t.groups[i], u.groups[i]);
      if i == at {
        assert WritesTo(s', a.who, key);
        forall k: nat | WritesTo(s', k, key) ensures k == a.who { assert k != a.who ==> WritesTo(s, k, key); }
      } else {
        OnlyPosition(s.t.groups, i);
        forall k: nat ensures WritesTo(s', k, s.t.groups[i].key) <==> WritesTo(s, k, s.t.groups[i].key) {}
      }
    }
  }

  lemma TakeStartBooked(s: Sys, a: Action, u: Tables)
    requires Enabled(s, a) && Starts(s, a) && IsTake(StartedEvent(s, a).request) && Booked(s, u)
    requires UniqueKeys(s.t.groups) && Clear(s, a)
    ensures var e := StartedEvent(s, a); Booked(Exec(s, a), TakeAndWrite(u, KeyOf(e), e.request.value.value))
  {
    var e := StartedEvent(s, a);
    if Accepts(s.t, KeyOf(e), e.request.value.value) {
      AcceptedTakeBooked(s, a, u);
    } else {
      forall k: nat ensures !WritesTo(s, k, KeyOf(e)) {}
      SameVerdict(s, u, KeyOf(e), e.request.value.value);
      RejectedTakeBooked(s, a, u);
    }
  }

  /** Writing a pending count changes nothing in the booked tables. */
  lemma CountBooked(s: Sys, a: Action, u: Tables)
    requires a.Step? && Enabled(s, a) && s.clients[a.who].place.Writing? && Booked(s, u) && Exclusive(s)
    ensures Booked(Exec(s, a), u)
  {
    var s', p := Exec(s, a), s.clients[a.who].place;
    assert WritesTo(s, a.who, p.key);
    forall i | 0 <= i < |u.groups| ensures RowBooked(s', s'.t.groups[i], u.groups[i]) {
      assert RowBooked(s, s.t.groups[i], u.groups[i]);
      if s.t.groups[i].key == p.key {
        forall k: nat ensures !WritesTo(s', k, p.key) {
          assert k != a.who && WritesTo(s', k, p.key) ==> BusyOn(s.clients[k], p.key);
        }
      } else {
        forall k: nat ensures WritesTo(s', k, s.t.groups[i].key) <==> WritesTo(s, k, s.t.groups[i].key) {}
      }
    }
  }

  /** Attaching a tag does the same to the booked tables. */
  lemma AttachmentBooked(s: Sys, a: Action, u: Tables)
    requires a.Step? && Enabled(s, a) && s.clients[a.who].place.Attaching? && Booked(s, u) && Exclusive(s)
    ensures Booked(Exec(s, a), SetTag(u, s.clients[a.who].place.key, s.clients[a.who].place.pick))
  {
    var s', p := Exec(s, a), s.clients[a.who].place;
    var u' := SetTag(u, p.key, p.pick);
    forall k: nat ensures !WritesTo(s, k, p.key) { assert WritesTo(s, k, p.key) ==> k != a.who && BusyOn(s.clients[k], p.key); }
    forall i | 0 <= i < |u.groups| ensures RowBooked(s', s'.t.groups[i], u'.groups[i]) {
      assert RowBooked(s, s.t.groups[i], u.groups[i]);
      forall k: nat, key ensures WritesTo(s', k, key) <==> WritesTo(s, k, key) {}
    }
  }

  lemma NothingPending(s: Sys, u: Tables)
    requires Booked(s, u) && NobodyWriting(s)
    ensures u == s.t
  {
    forall i | 0 <= i < |u.groups| ensures u.groups[i] == s.t.groups[i] {
      assert RowBooked(s, s.t.groups[i], u.groups[i]);
    }
  }

  // ---------------------------------------------------------------------------------------
  // A tag attached later: the event of an open tag section commutes with what starts after it
  // ---------------------------------------------------------------------------------------

  predicate IsTagging(e: Event) {
    IsTake(e.request) && e.request.tag.value
  }

  /** The same take without its tag. */
  function Untagged(e: Event): Event
    requires IsTagging(e)
  {
    e.(request := e.request.(tag := Some(false)))
  }

  /** The event leaves the tags, and the group with the key, alone. */
  predicate Quiet(e: Event, key: GroupKey) {
    IsTake(e.request) ==> !e.request.tag.value && KeyOf(e) != key
  }

  lemma QuietCommutes(t: Tables, key: GroupKey, pick: Option<string>, e: Event)
    requires Quiet(e, key)
    ensures Serve(SetTag(t, key, pick), e) == SetTag(Serve(t, e), key, pick)
  {
    if IsTake(e.request) {
      SameKeysSameIndex(t.groups, SetTag(t, key, pick).groups, KeyOf(e));
      assert Serve(SetTag(t, key, pick), e).groups == SetTag(Serve(t, e), key, pick).groups;
    }
  }

  lemma {:induction false} TagLater(t: Tables, before: seq<Event>, e: Event, later: seq<Event>)
    requires IsTagging(e) && forall q | q in later :: Quiet(q, KeyOf(e))
    ensures Run(t, before + [e] + later) == SetTag(Run(t, before + [Untagged(e)] + later), KeyOf(e), e.pick)
  {
    if later == [] {
      RunAppend(t, before, e);
      RunAppend(t, before, Untagged(e));
      assert before + [e] + later == before + [e] && before + [Untagged(e)] + later == before + [Untagged(e)];
    } else {
      var init, q := later[..|later| - 1], later[|later| - 1];
      TagLater(t, before, e, init);
      RunAppend(t, before + [e] + init, q);
      RunAppend(t, before + [Untagged(e)] + init, q);
      assert before + [e] + later == before + [e] + init + [q];
      assert before + [Untagged(e)] + later == before + [Untagged(e)] + init + [q];
      QuietCommutes(Run(t, before + [Untagged(e)] + init), KeyOf(e), e.pick, q);
    }
  }

  ghost predicate SameTags(t: Tables, t': Tables) {
    t'.tags == t.tags && |t'.groups| == |t.groups| && forall i | 0 <= i < |t.groups| :: t'.groups[i].tag == t.groups[i].tag
  }

  lemma SameTagsSamePicks(t: Tables, t': Tables, pick: Option<string>)
    requires SameTags(t, t') && IsFreePick(t, pick)
    ensures IsFreePick(t', pick)
  {}

  lemma QuietStep(t: Tables, e: Event, key: GroupKey)
    requires Quiet(e, key)
    ensures SameTags(t, Serve(t, e)) && Legal(t, e)
  {}

  lemma {:induction false} QuietTags(t: Tables, es: seq<Event>, later: seq<Event>, key: GroupKey)
    requires forall q | q in later :: Quiet(q, key)
    ensures SameTags(Run(t, es), Run(t, es + later))
    ensures LegalRun(t, es) ==> LegalRun(t, es + later)
  {
    if later == [] {
      assert es + later == es;
    } else {
      var init, q := later[..|later| - 1], later[|later| - 1];
      QuietTags(t, es, init, key);
      assert es + later == es + init + [q];
      RunAppend(t, es + init, q);
      QuietStep(Run(t, es + init), q, key);
    }
  }

  // ---------------------------------------------------------------------------------------
  // The serial history of an interleaving so far
  // ---------------------------------------------------------------------------------------

  /** The events so far; while client `who` is in a tag section, its event and what started after it. */
  datatype History =
    | Closed(done: seq<Event>)
    | Open(before: seq<Event>, tagging: Event, later: seq<Event>, who: nat)

  function Events(h: History): seq<Event> {
    match h
    case Closed(done) => done
    case Open(before, e, later, _) => before + [e] + later
  }

  /** The events as far as their effects are in the tables. */
  function Effective(h: History): seq<Event>
    requires h.Open? ==> IsTagging(h.tagging)
  {
    match h
    case Closed(done) => done
    case Open(before, e, later, _) => before + [Untagged(e)] + later
  }

  ghost predicate TagSectionOf(s: Sys, first: Tables, h: History) {
    match h
    case Closed(_) => forall k | 0 <= k < |s.clients| :: !InTagSection(s.clients[k])
    case Open(before, e, later, who) =>
      && who < |s.clients| && InTagSection(s.clients[who]) && IsTagging(e) && BusyOn(s.clients[who], KeyOf(e))
      && LegalRun(first, before) && (forall q | q in later :: Quiet(q, KeyOf(e)))
      && (s.clients[who].place.Attaching? ==> s.clients[who].place.pick == e.pick && Legal(Run(first, before), e))
  }

  /** Serving the events of h from the first tables leads to the tables of s with pending counts booked. */
  ghost predicate Describes(s: Sys, first: Tables, h: History) {
    && TagSectionOf(s, first, h)
    && Booked(s, Run(first, Effective(h)))
    && (h.Closed? ==> LegalRun(first, h.done))
  }

  /** h with one more event, which is not the start of a tag section. */
  function Extended(h: History, e: Event): History {
    match h
    case Closed(done) => Closed(done + [e])
    case Open(before, tagging, later, who) => Open(before, tagging, later + [e], who)
  }

  lemma ExtendedEvents(t: Tables, h: History, e: Event)
    requires h.Open? ==> IsTagging(h.tagging)
    ensures Events(Extended(h, e)) == Events(h) + [e]
    ensures Run(t, Effective(Extended(h, e))) == Serve(Run(t, Effective(h)), e)
  {
    assert Effective(Extended(h, e)) == Effective(h) + [e];
    RunAppend(t, Effective(h), e);
  }

  lemma StartBooked(s: Sys, a: Action, u: Tables)
    requires Enabled(s, a) && Clear(s, a) && UniqueKeys(s.t.groups) && Booked(s, u)
    requires Starts(s, a) && !IsTagging(StartedEvent(s, a))
    ensures Booked(Exec(s, a), Serve(u, StartedEvent(s, a)))
  {
    if IsTake(StartedEvent(s, a).request) {
      TakeStartBooked(s, a, u);
    } else {
      OtherStatementsBooked(s, a, u);
    }
  }

  /** What starts outside the tag section does not touch the group of the section. */
  lemma StartIsQuiet(s: Sys, a: Action, key: GroupKey, who: nat)
    requires Starts(s, a) && Clear(s, a) && !IsTagging(StartedEvent(s, a))
    requires who < |s.clients| && BusyOn(s.clients[who], key)
    ensures Quiet(StartedEvent(s, a), key)
  {}

  lemma StartKeepsSection(s: Sys, a: Action, first: Tables, h: History)
    requires Enabled(s, a) && Clear(s, a) && TagSectionOf(s, first, h)
    requires Starts(s, a) && !IsTagging(StartedEvent(s, a))
    ensures TagSectionOf(Exec(s, a), first, Extended(h, StartedEvent(s, a)))
  {
    if h.Open? { StartIsQuiet(s, a, KeyOf(h.tagging), h.who); }
  }

  lemma UntaggedStart(s: Sys, a: Action, first: Tables, h: History)
    requires Enabled(s, a) && Clear(s, a) && UniqueKeys(s.t.groups) && Describes(s, first, h)
    requires Starts(s, a) && !IsTagging(StartedEvent(s, a))
    ensures Describes(Exec(s, a), first, Extended(h, StartedEvent(s, a)))
  {
    var e := StartedEvent(s, a);
    StartKeepsSection(s, a, first, h);
    StartBooked(s, a, Run(first, Effective(h)));
    ExtendedEvents(first, h, e);
    if h.Closed? { RunAppend(first, h.done, e); }
  }

  lemma ServeUntagged(t: Tables, e: Event)
    requires IsTagging(e)
    ensures Serve(t, Untagged(e)) == TakeAndWrite(t, KeyOf(e), e.request.value.value)
  {}

  lemma StartEnters(s: Sys, a: Action)
    requires Enabled(s, a) && Starts(s, a) && IsTagging(StartedEvent(s, a))
    ensures var c := Exec(s, a).clients[a.who];
            InTagSection(c) && BusyOn(c, KeyOf(StartedEvent(s, a))) && !c.place.Attaching?
  {}

  lemma TaggedStart(s: Sys, a: Action, first: Tables, h: History)
    requires Enabled(s, a) && Clear(s, a) && UniqueKeys(s.t.groups) && Describes(s, first, h)
    requires Starts(s, a) && IsTagging(StartedEvent(s, a))
    ensures h.Closed? && Describes(Exec(s, a), first, Open(h.done, StartedEvent(s, a), [], a.who))
  {
    var e := StartedEvent(s, a);
    assert h.Closed?;
    var h' := Open(h.done, e, [], a.who);
    assert Booked(Exec(s, a), Run(first, Effective(h'))) by {
      TakeStartBooked(s, a, Run(first, h.done));
      RunAppend(first, h.done, Untagged(e));
      ServeUntagged(Run(first, h.done), e);
      assert Effective(h') == h.done + [Untagged(e)];
    }
    assert TagSectionOf(Exec(s, a), first, h') by { StartEnters(s, a); }
  }

  lemma BookedTags(s: Sys, u: Tables)
    requires Booked(s, u)
    ensures SameTags(s.t, u)
  {
    assert forall i | 0 <= i < |u.groups| :: RowBooked(s, s.t.groups[i], u.groups[i]);
  }

  lemma PickWasFree(s: Sys, first: Tables, h: History, pick: Option<string>)
    requires h.Open? && Describes(s, first, h) && IsFreePick(s.t, pick)
    ensures Legal(Run(first, h.before), h.tagging.(pick := pick))
  {
    var u := Run(first, Effective(h));
    var x := Run(first, h.before + [Untagged(h.tagging)]);
    BookedTags(s, u);
    QuietTags(first, h.before + [Untagged(h.tagging)], h.later, KeyOf(h.tagging));
    assert SameTags(s.t, x);
    SameTagsSamePicks(s.t, x, pick);
    RunAppend(first, h.before, Untagged(h.tagging));
  }

  /** The tag query: what it may answer now it might have answered right after the take. */
  lemma PickFits(s: Sys, a: Action, first: Tables, h: History)
    requires a.Step? && Enabled(s, a) && Exclusive(s) && Describes(s, first, h) && s.clients[a.who].place.Tagging?
    ensures h.Open? && h.who == a.who
    ensures Describes(Exec(s, a), first, h.(tagging := h.tagging.(pick := a.pick)))
  {
    assert InTagSection(s.clients[a.who]);
    var u := Run(first, Effective(h));
    OtherStatementsBooked(s, a, u);
    PickWasFree(s, first, h, a.pick);
    assert Run(first, Effective(h.(tagging := h.tagging.(pick := a.pick)))) == u by { PickUnseen(first, h, a.pick); }
  }

  /** An untagged take does not use its pick. */
  lemma PickUnseen(t: Tables, h: History, pick: Option<string>)
    requires h.Open? && IsTagging(h.tagging)
    ensures Run(t, Effective(h.(tagging := h.tagging.(pick := pick)))) == Run(t, Effective(h))
  {
    UnseenThrough(t, h.before, Untagged(h.tagging), Untagged(h.tagging.(pick := pick)), h.later);
  }

  lemma {:induction false} UnseenThrough(t: Tables, before: seq<Event>, e: Event, e': Event, later: seq<Event>)
    requires forall x :: Serve(x, e) == Serve(x, e')
    ensures Run(t, before + [e] + later) == Run(t, before + [e'] + later)
  {
    if later == [] {
      RunAppend(t, before, e);
      RunAppend(t, before, e');
      assert before + [e] + later == before + [e] && before + [e'] + later == before + [e'];
    } else {
      var init, q := later[..|later| - 1], later[|later| - 1];
      UnseenThrough(t, before, e, e', init);
      RunAppend(t, before + [e] + init, q);
      RunAppend(t, before + [e'] + init, q);
      assert before + [e] + later == before + [e] + init + [q] && before + [e'] + later == before + [e'] + init + [q];
    }
  }

  lemma AttachmentCloses(s: Sys, a: Action, first: Tables, h: History)
    requires a.Step? && Enabled(s, a) && Exclusive(s) && Describes(s, first, h) && s.clients[a.who].place.Attaching?
    ensures h.Open? && Describes(Exec(s, a), first, Closed(Events(h)))
  {
    assert InTagSection(s.clients[a.who]);
    assert h.Open? && h.who == a.who;
    AttachmentBooked(s, a, Run(first, Effective(h)));
    TagLater(first, h.before, h.tagging, h.later);
    RunAppend(first, h.before, h.tagging);
    QuietTags(first, h.before + [h.tagging], h.later, KeyOf(h.tagging));
  }

  lemma CountKeepsHistory(s: Sys, a: Action, first: Tables, h: History)
    requires a.Step? && Enabled(s, a) && Exclusive(s) && Describes(s, first, h) && s.clients[a.who].place.Writing?
    ensures Describes(Exec(s, a), first, h)
  {
    CountBooked(s, a, Run(first, Effective(h)));
  }

  lemma ArrivalKeepsHistory(s: Sys, a: Action, first: Tables, h: History)
    requires a.Arrive? && Describes(s, first, h)
    ensures Describes(Exec(s, a), first, h)
  {
    OtherStatementsBooked(s, a, Run(first, Effective(h)));
  }

  lemma StartDescribed(s: Sys, a: Action, first: Tables, h: History) returns (h': History)
    requires Enabled(s, a) && Starts(s, a) && Clear(s, a) && UniqueKeys(s.t.groups) && Describes(s, first, h)
    ensures Describes(Exec(s, a), first, h')
    ensures Events(h') == Events(h) + [StartedEvent(s, a)]
  {
    var e := StartedEvent(s, a);
    if IsTagging(e) {
      TaggedStart(s, a, first, h);
      h' := Open(h.done, e, [], a.who);
    } else {
      UntaggedStart(s, a, first, h);
      ExtendedEvents(first, h, e);
      h' := Extended(h, e);
    }
  }

  lemma SameRequestsRepicked(h: History, pick: Option<string>)
    requires h.Open?
    ensures SameRequests(Events(h), Events(h.(tagging := h.tagging.(pick := pick))))
  {}

  lemma SectionContinues(s: Sys, a: Action, first: Tables, h: History) returns (h': History)
    requires a.Step? && Enabled(s, a) && Exclusive(s) && Describes(s, first, h) && s.clients[a.who].place.Tagging?
    ensures Describes(Exec(s, a), first, h')
    ensures SameRequests(Events(h), Events(h'))
  {
    PickFits(s, a, first, h);
    h' := h.(tagging := h.tagging.(pick := a.pick));
    SameRequestsRepicked(h, a.pick);
  }

  lemma ContinueDescribed(s: Sys, a: Action, first: Tables, h: History) returns (h': History)
    requires a.Step? && Enabled(s, a) && !Starts(s, a) && Exclusive(s) && Describes(s, first, h)
    ensures Describes(Exec(s, a), first, h')
    ensures SameRequests(Events(h), Events(h'))
  {
    if s.clients[a.who].place.Writing? {
      CountKeepsHistory(s, a, first, h);
      h' := h;
    } else if s.clients[a.who].place.Tagging? {
      h' := SectionContinues(s, a, first, h);
    } else {
      AttachmentCloses(s, a, first, h);
      h' := Closed(Events(h));
    }
  }

  /** One statement extends the history by the request it starts, if it starts one. */
  lemma ExecDescribed(s: Sys, a: Action, first: Tables, h: History) returns (h': History)
    requires Enabled(s, a) && !a.ResetStep? && Clear(s, a) && Exclusive(s) && UniqueKeys(s.t.groups)
    requires Describes(s, first, h)
    ensures Describes(Exec(s, a), first, h')
    ensures SameRequests(Events(h) + Started(s, a), Events(h'))
  {
    assert !Starts(s, a) ==> Events(h) + Started(s, a) == Events(h);
    if a.Arrive? {
      ArrivalKeepsHistory(s, a, first, h);
      h' := h;
    } else if Starts(s, a) {
      h' := StartDescribed(s, a, first, h);
    } else {
      h' := ContinueDescribed(s, a, first, h);
    }
  }

  lemma SameRequestsAppend(order: seq<Event>, es: seq<Event>, es': seq<Event>, started: seq<Event>)
    requires SameRequests(order, es) && SameRequests(es + started, es')
    ensures SameRequests(order + started, es')
  {
    forall i | 0 <= i < |order + started| ensures es'[i] == (order + started)[i].(pick := es'[i].pick) {
      assert es'[i] == (es + started)[i].(pick := es'[i].pick);
    }
  }

  lemma ClearPrefix(states: seq<Sys>, actions: seq<Action>)
    requires |states| == |actions| + 1 && AllClear(states, actions) && actions != []
    ensures var n := |actions|; AllClear(states[..n], actions[..n - 1]) && Clear(states[n - 1], actions[n - 1])
  {}

  lemma LastDescribed(states: seq<Sys>, actions: seq<Action>, h0: History) returns (h: History)
    requires IsRun(states, actions) && Safe(states[0]) && NoResets(actions) && AllClear(states, actions) && actions != []
    requires var s := states[|actions| - 1]; Exclusive(s) && Describes(s, states[0].t, h0)
    ensures Exclusive(states[|actions|]) && Describes(states[|actions|], states[0].t, h)
    ensures SameRequests(Events(h0) + Started(states[|actions| - 1], actions[|actions| - 1]), Events(h))
  {
    var s, a := states[|actions| - 1], actions[|actions| - 1];
    RunPrefix(states, actions);
    ClearPrefix(states, actions);
    SafeBeforeLast(states, actions);
    ExecExclusive(s, a);
    h := ExecDescribed(s, a, states[0].t, h0);
  }

  lemma AtRestDescribed(s: Sys)
    requires AtRest(s)
    ensures Exclusive(s) && Describes(s, s.t, Closed([]))
  {}

  lemma {:induction false} RunDescribed(states: seq<Sys>, actions: seq<Action>) returns (h: History)
    requires IsRun(states, actions) && Safe(states[0]) && AtRest(states[0]) && NoResets(actions) && AllClear(states, actions)
    ensures Exclusive(states[|actions|]) && Describes(states[|actions|], states[0].t, h)
    ensures SameRequests(StartOrder(states, actions), Events(h))
  {
    if actions == [] {
      AtRestDescribed(states[0]);
      h := Closed([]);
    } else {
      var n := |actions|;
      RunPrefix(states, actions);
      ClearPrefix(states, actions);
      var h0 := RunDescribed(states[..n], actions[..n - 1]);
      h := LastDescribed(states, actions, h0);
      var order := StartOrder(states[..n], actions[..n - 1]);
      SameRequestsAppend(order, Events(h0), Events(h), Started(states[n - 1], actions[n - 1]));
    }
  }

  /**
   * Under the discipline every interleaving without resets between two moments at rest is serializable: it
   * leads to the tables of its requests served one at a time, in the order of their first statements.
   */
  lemma Serializable(states: seq<Sys>, actions: seq<Action>) returns (es: seq<Event>)
    requires IsRun(states, actions) && Safe(states[0]) && NoResets(actions) && AllClear(states, actions)
    requires AtRest(states[0]) && AtRest(states[|actions|])
    ensures SameRequests(StartOrder(states, actions), es)
    ensures LegalRun(states[0].t, es) && states[|actions|].t == Run(states[0].t, es)
  {
    var h := RunDescribed(states, actions);
    es := Events(h);
    assert h.Closed?;
    NothingPending(states[|actions|], Run(states[0].t, es));
  }

  // ---------------------------------------------------------------------------------------
  // Resets as events of the serial order
  // ---------------------------------------------------------------------------------------

  datatype Entry = Served(event: Event) | ResetDone

  function Played(t: Tables, entry: Entry): Tables {
    match entry
    case Served(e) => Serve(t, e)
    case ResetDone => Reset(t)
  }

  function Play(t: Tables, log: seq<Entry>): Tables {
    if log == [] then t else Played(Play(t, log[..|log| - 1]), log[|log| - 1])
  }

  ghost predicate LegalLog(t: Tables, log: seq<Entry>) {
    log != [] ==>
      var init, last := log[..|log| - 1], log[|log| - 1];
      LegalLog(t, init) && (last.Served? ==> Legal(Play(t, init), last.event))
  }

  function Entries(es: seq<Event>): seq<Entry> {
    seq(|es|, i requires 0 <= i < |es| => Served(es[i]))
  }

  /** The same requests and resets in the same order; the tags picked may differ. */
  ghost predicate SameLog(log: seq<Entry>, log': seq<Entry>) {
    |log| == |log'| && forall i | 0 <= i < |log| ::
      if log[i].Served? then log'[i].Served? && log'[i].event == log[i].event.(pick := log'[i].event.pick) else log'[i].ResetDone?
  }

  lemma PlayAppend(t: Tables, log: seq<Entry>, entry: Entry)
    ensures Play(t, log + [entry]) == Played(Play(t, log), entry)
    ensures LegalLog(t, log + [entry]) <==> LegalLog(t, log) && (entry.Served? ==> Legal(Play(t, log), entry.event))
  {
    assert (log + [entry])[..|log|] == log;
  }

  lemma {:induction false} PlayRun(t: Tables, log: seq<Entry>, es: seq<Event>)
    requires LegalLog(t, log) && LegalRun(Play(t, log), es)
    ensures Play(t, log + Entries(es)) == Run(Play(t, log), es) && LegalLog(t, log + Entries(es))
  {
    if es == [] {
      assert log + Entries(es) == log;
    } else {
      var init, e := es[..|es| - 1], es[|es| - 1];
      PlayRun(t, log, init);
      assert log + Entries(es) == log + Entries(init) + [Served(e)];
      PlayAppend(t, log + Entries(init), Served(e));
    }
  }

  /**
   * A run with resets at the positions, ascending: each while nobody is inside a request, the four statements
   * together; in between, takes start by the discipline.
   */
  ghost predicate Disciplined(states: seq<Sys>, actions: seq<Action>, resets: seq<nat>)
    requires |states| == |actions| + 1
    decreases |resets|
  {
    if resets == [] then NoResets(actions) && AllClear(states, actions)
    else
      var p := resets[|resets| - 1];
      && ResetsAt(actions, p) && AtRest(states[p])
      && NoResets(actions[p + 4..]) && AllClear(states[p + 4..], actions[p + 4..])
      && Disciplined(states[..p + 1], actions[..p], resets[..|resets| - 1])
  }

  /** The requests in the order of their first statements, and the resets among them. */
  ghost function StartLog(states: seq<Sys>, actions: seq<Action>, resets: seq<nat>): seq<Entry>
    requires |states| == |actions| + 1 && Disciplined(states, actions, resets)
    decreases |resets|
  {
    if resets == [] then Entries(StartOrder(states, actions))
    else
      var p := resets[|resets| - 1];
      StartLog(states[..p + 1], actions[..p], resets[..|resets| - 1]) + [ResetDone]
      + Entries(StartOrder(states[p + 4..], actions[p + 4..]))
  }

  lemma EntriesSame(order: seq<Event>, es: seq<Event>, log: seq<Entry>, log': seq<Entry>)
    requires SameRequests(order, es) && SameLog(log, log')
    ensures SameLog(Entries(order), Entries(es))
    ensures SameLog(log + [ResetDone] + Entries(order), log' + [ResetDone] + Entries(es))
  {}

  lemma RunUpTo(states: seq<Sys>, actions: seq<Action>, p: nat)
    requires IsRun(states, actions) && p <= |actions|
    ensures IsRun(states[..p + 1], actions[..p])
    ensures states[..p + 1][0] == states[0] && states[..p + 1][|actions[..p]|] == states[p]
  {}

  /** What follows a reset at rest extends the log that led to it. */
  lemma AfterReset(states: seq<Sys>, actions: seq<Action>, p: nat, first: Tables, log: seq<Entry>) returns (es: seq<Event>)
    requires IsRun(states, actions) && Safe(states[0]) && ResetsAt(actions, p)
    requires AtRest(states[p]) && AtRest(states[|actions|])
    requires NoResets(actions[p + 4..]) && AllClear(states[p + 4..], actions[p + 4..])
    requires LegalLog(first, log) && states[p].t == Play(first, log)
    ensures SameRequests(StartOrder(states[p + 4..], actions[p + 4..]), es)
    ensures var all := log + [ResetDone] + Entries(es); LegalLog(first, all) && states[|actions|].t == Play(first, all)
  {
    ResetsReset(states, actions, p);
    RunSuffix(states, actions, p + 4);
    assert Safe(states[p + 4]) by { RunSafe(states, actions); assert states[p + 4] in states; }
    es := Serializable(states[p + 4..], actions[p + 4..]);
    PlayAppend(first, log, ResetDone);
    PlayRun(first, log + [ResetDone], es);
  }

  /** With resets at rest the serial order has them as events; between any two moments at rest. */
  lemma {:induction false} SerializableWithResets(states: seq<Sys>, actions: seq<Action>, resets: seq<nat>)
      returns (log: seq<Entry>)
    requires IsRun(states, actions) && Safe(states[0]) && Disciplined(states, actions, resets)
    requires AtRest(states[0]) && AtRest(states[|actions|])
    ensures SameLog(StartLog(states, actions, resets), log)
    ensures LegalLog(states[0].t, log) && states[|actions|].t == Play(states[0].t, log)
    decreases |resets|
  {
    if resets == [] {
      var es := Serializable(states, actions);
      log := Entries(es);
      EntriesSame(StartOrder(states, actions), es, [], []);
      PlayRun(states[0].t, [], es);
      assert [] + Entries(es) == Entries(es);
    } else {
      var p := resets[|resets| - 1];
      RunUpTo(states, actions, p);
      var log0 := SerializableWithResets(states[..p + 1], actions[..p], resets[..|resets| - 1]);
      var es := AfterReset(states, actions, p, states[0].t, log0);
      log := log0 + [ResetDone] + Entries(es);
      EntriesSame(StartOrder(states[p + 4..], actions[p + 4..]), es,
                  StartLog(states[..p + 1], actions[..p], resets[..|resets| - 1]), log0);
    }
  }

  // ---------------------------------------------------------------------------------------
  // The discipline and the conditions of the other theorems can be met
  // ---------------------------------------------------------------------------------------

  /** Between requests nothing overlaps. */
  lemma RestDoesNotOverlap(s: Sys)
    requires forall k | 0 <= k < |s.clients| :: s.clients[k].place.Next?
    ensures AtRest(s) && NobodyWriting(s) && NoOverlap(s) && NoTagOverlap(s) && Exclusive(s)
  {}

  /** Starting every request only while nobody is inside one obeys the discipline. */
  lemma OneAtATimeIsDisciplined(states: seq<Sys>, actions: seq<Action>)
    requires |states| == |actions| + 1
    requires forall i | 0 <= i < |actions| :: !actions[i].ResetStep?
    requires forall i, k | 0 <= i < |actions| && Starts(states[i], actions[i]) && 0 <= k < |states[i].clients| ::
               states[i].clients[k].place.Next?
    ensures NoResets(actions) && AllClear(states, actions) && Disciplined(states, actions, [])
  {
    forall i | 0 <= i < |actions| ensures Clear(states[i], actions[i]) {}
  }
}
