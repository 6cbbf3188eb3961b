/**
 * The database as an object whose tables the PHP scripts change in place: one method per statement or
 * script function, each proved against the statement's function on the tables, and the three scripts
 * as the loops they are.
 */
module Kitting {
  import opened Wrappers
  import opened Rows
  import opened Tables
  import opened Invariants
  import opened Text
  import opened Importing
  import opened Allocator
  import opened Listing

  /** What a request to ajax.php is answered with. */
  datatype Response = NoValidKit | Listed(rows: seq<ListingRow>)

  class Database {
    var classes: map<int, ClassRow>
    var nextClass: int
    var tags: set<string>
    var orders: map<int, int>
    var nextOrder: int
    var kits: seq<KitRow>
    var groups: seq<GroupRow>

    ghost function Contents(): Tables
      reads this
    {
      Tables(classes, nextClass, tags, orders, nextOrder, kits, groups)
    }

    constructor ()
      ensures Contents() == EMPTY
    {
      classes, nextClass, tags, orders, nextOrder, kits, groups := map[], 1, {}, map[], 1, [], [];
    }

    // -------------------------------------------------------------------------------------
    // operations.php
    // -------------------------------------------------------------------------------------

    method Truncate()
      modifies this
      ensures Contents() == EMPTY
    {
      classes, nextClass, tags, orders, nextOrder, kits, groups := map[], 1, {}, map[], 1, [], [];
    }

    /** create_class: the id of the class with the normalised name, inserted if it is new. */
    method CreateClass(rawName: string) returns (id: int)
      requires WellFormed(Contents())
      modifies this`classes, this`nextClass
      ensures Contents() == EnsureClass(old(Contents()), ClassName(rawName))
      ensures id == ClassFor(old(Contents()), ClassName(rawName))
      ensures id in classes && classes[id].description == ClassName(rawName)
    {
      var name := ClassName(rawName);
      var found := set c | c in classes && classes[c].description == name;
      if c :| c in found {
        id := c;
        assert HasClass(Contents(), name);
      } else {
        id := nextClass;
        classes, nextClass := classes[id := ClassRow(name, DEFAULT_INVENTORY)], nextClass + 1;
        assert !HasClass(old(Contents()), name) by {
          assert forall c | c in old(classes) && old(classes)[c].description == name :: c in found;
        }
      }
    }

    /** create_rfid. */
    method CreateRfid(tag: string)
      modifies this`tags
      ensures Contents() == InsertTag(old(Contents()), tag)
    {
      tags := tags + {tag};
    }

    method StoreInventory(id: int, inventory: int)
      modifies this`classes
      ensures Contents() == SetInventory(old(Contents()), id, inventory)
    {
      if id in classes {
        classes := classes[id := classes[id].(inventory := inventory)];
      }
    }

    method NewOrder() returns (id: int)
      modifies this`orders, this`nextOrder
      ensures Contents() == InsertOrder(old(Contents())) && id == old(nextOrder)
    {
      id := nextOrder;
      orders, nextOrder := orders[id := 0], nextOrder + 1;
    }

    method NewKit(order: int) returns (id: int)
      modifies this`orders, this`kits
      ensures Contents() == InsertKit(old(Contents()), order)
      ensures id == NewKitId(old(Contents()), order)
    {
      id := 0;
      if order in orders {
        id := orders[order];
        orders := orders[order := id + 1];
        kits := kits + [KitRow(order, id, 0, 0)];
      }
    }

    /** Row by row: every matching kit counts up and contributes one group under its old count. */
    method NewGroup(order: int, kit: int, row: GroupRow)
      modifies this`kits, this`groups
      ensures Contents() == InsertGroup(old(Contents()), order, kit, row)
    {
      var i := 0;
      while i < |kits|
        invariant 0 <= i <= |kits| == |old(kits)|
        invariant forall j | i <= j < |kits| :: kits[j] == old(kits)[j]
        invariant forall j | 0 <= j < i :: kits[j] == CountedUp(order, kit)(old(kits)[j])
        invariant groups == old(groups) + NewGroups(old(kits)[..i], order, kit, row)
      {
        var k := kits[i];
        assert old(kits)[..i + 1] == old(kits)[..i] + [k];
        if IsKit(k, order, kit) {
          groups := groups + [row.(key := GroupKey(order, kit, k.groupCount))];
          kits := kits[i := k.(groupCount := k.groupCount + 1)];
        }
        i := i + 1;
      }
      assert old(kits)[..i] == old(kits);
      assert kits == Update(old(kits), CountedUp(order, kit));
    }

    /** An item line: class, tag, and the group if a kit is open. */
    method AddItem(line: string, order: Option<int>, kit: Option<int>, ghost s: State)
      requires Good(s) && Contents() == s.t && s.order == order && s.kit == kit
      modifies this
      ensures Contents() == ItemLine(s, line)
    {
      var fields := Split(line, ',');
      if |fields| >= 5 {
        var classId := CreateClass(ItemName(line));
        if fields[2] != "" {
          CreateRfid(fields[2]);
        }
        if order.Some? && kit.Some? {
          NewGroup(order.value, kit.value, ItemRow(line, GroupKey(order.value, kit.value, 0), classId));
        }
      }
    }

    /** The import loop: what it leaves in the tables is the meaning of the text, whatever was there before. */
    method ImportText(code: string)
      modifies this
      ensures Contents() == Import(code)
      ensures WellFormed(Contents())
    {
      Truncate();
      var lines := Split(code, '\n');
      var section := Section.Inventory;
      var order: Option<int> := None;
      var kit: Option<int> := None;
      var i := 0;
      while i < |lines|
        invariant 0 <= i <= |lines|
        invariant State(Contents(), section, order, kit) == ImportLines(lines[..i])
      {
        var line := lines[i];
        ghost var s := State(Contents(), section, order, kit);
        ImportGood(lines[..i]);
        assert lines[..i + 1] == lines[..i] + [line] && lines[..i + 1][..i] == lines[..i];
        section, order, kit := ImportLine(line, section, order, kit, s);
        i := i + 1;
      }
      assert lines[..i] == lines;
      ImportGood(lines);
    }

    /** The body of the import loop. */
    method ImportLine(line: string, section: Section, order: Option<int>, kit: Option<int>, ghost s: State)
        returns (section': Section, order': Option<int>, kit': Option<int>)
      requires Good(s) && s == State(Contents(), section, order, kit)
      modifies this
      ensures State(Contents(), section', order', kit') == Step(s, line)
    {
      section', order', kit' := section, order, kit;
      if IsComment(line) {
      } else if InBracket(line) {
        var name := HeaderName(line);
        if name.Some? {
          section' := SectionOf(name.value);
          if section'.Order? {
            var id := NewOrder();
            order', kit' := Some(id), None;
          } else if section'.Kit? && order.Some? {
            var id := NewKit(order.value);
            kit' := Some(id);
          }
        }
      } else if ActsAsInventory(section) {
        var fields := Split(line, ',');
        if |fields| == 2 {
          var id := CreateClass(fields[0]);
          StoreInventory(id, IntVal(fields[1]));
        }
      } else if section.Tags? {
        CreateRfid(DropLast(line));
      } else if section.Items? {
        AddItem(line, order, kit, s);
      }
    }

    // -------------------------------------------------------------------------------------
    // ajax.php
    // -------------------------------------------------------------------------------------

    /** The guarded UPDATE of the inventory. */
    method TakeFromStock(key: GroupKey, value: int) returns (affected: bool)
      requires UniqueKeys(groups)
      modifies this`classes
      ensures TakeStatement(old(Contents()), key, value, Contents(), affected)
      ensures Contents() == Take(old(Contents()), key, value)
      ensures affected == Accepts(old(Contents()), key, value)
    {
      var i := 0;
      while i < |groups| && groups[i].key != key
        invariant 0 <= i <= |groups|
        invariant forall j | 0 <= j < i :: groups[j].key != key
      {
        i := i + 1;
      }
      assert i == IndexOf(groups, key);
      affected := false;
      if i < |groups| && groups[i].classId in classes {
        var g := groups[i];
        var c := classes[g.classId];
        if c.inventory >= value - g.count {
          classes := classes[g.classId := c.(inventory := c.inventory - (value - g.count))];
          affected := true;
        }
      }
      TakeIsTheStatement(old(Contents()), key, value, Contents(), affected);
    }

    method WriteCount(key: GroupKey, value: int)
      modifies this`groups
      ensures Contents() == SetCount(old(Contents()), key, value)
    {
      groups := Update(groups, WithCount(key, value));
    }

    /** create_tag. */
    method CreateTag() returns (free: Option<string>)
      ensures IsFreePick(Contents(), free)
    {
      var unused := tags - TagsInUse(groups);
      if tag :| tag in unused {
        free := Some(tag);
      } else {
        free := None;
        assert forall x | x in tags && x !in TagsInUse(groups) :: x in unused;
      }
    }

    method AttachTag(key: GroupKey, tag: Option<string>)
      modifies this`groups
      ensures Contents() == SetTag(old(Contents()), key, tag)
    {
      groups := Update(groups, WithTag(key, tag));
    }

    method StoreStatus(order: int, kit: int, status: int)
      modifies this`kits
      ensures Contents() == SetStatus(old(Contents()), order, kit, status)
    {
      kits := Update(kits, WithStatus(order, kit, status));
    }

    /** The body of the request loop; `pick` is what the tag query returned, if there was one. */
    method ServeOne(order: int, kit: int, r: Request) returns (ghost pick: Option<string>)
      requires UniqueKeys(groups)
      modifies this
      ensures Contents() == Serve(old(Contents()), Event(order, kit, r, pick))
      ensures Legal(old(Contents()), Event(order, kit, r, pick))
    {
      pick := None;
      if Complete(r) {
        if StatusOf(r) < 0 {
          var key := GroupKey(order, kit, r.id.value);
          var taken := TakeFromStock(key, r.value.value);
          if taken {
            WriteCount(key, r.value.value);
          }
          if r.tag.value {
            var free := CreateTag();
            pick := free;
            AttachTag(key, free);
          }
        } else {
          StoreStatus(order, kit, StatusOf(r));
        }
      }
    }

    /** The request loop: a legal run of the requests in order, which conserves every class's stock. */
    method ServeBatch(order: int, kit: int, requests: seq<Request>) returns (ghost es: seq<Event>)
      requires WellFormed(Contents())
      modifies this
      ensures |es| == |requests|
      ensures forall i | 0 <= i < |es| :: es[i] == Event(order, kit, requests[i], es[i].pick)
      ensures LegalRun(old(Contents()), es) && Contents() == Run(old(Contents()), es)
      ensures WellFormed(Contents()) && Framed(old(Contents()), Contents(), order, kit)
      ensures forall c :: Stock(Contents(), c) == Stock(old(Contents()), c)
    {
      es := [];
      ghost var before := Contents();
      var i := 0;
      while i < |requests|
        invariant 0 <= i <= |requests| && |es| == i
        invariant forall j | 0 <= j < i :: es[j] == Event(order, kit, requests[j], es[j].pick)
        invariant LegalRun(before, es) && Contents() == Run(before, es)
      {
        RunWellFormed(before, es);
        ghost var pick := ServeOne(order, kit, requests[i]);
        RunAppend(before, es, Event(order, kit, requests[i], pick));
        es := es + [Event(order, kit, requests[i], pick)];
        i := i + 1;
      }
      RunWellFormed(before, es);
      BatchFrame(before, es, order, kit);
      forall c ensures Stock(Contents(), c) == Stock(before, c) { RunStock(before, es, c); }
    }

    /** The answer: one row per group of the kit, fetched in the order of the ids. */
    method ListKit(order: int, kit: int) returns (result: seq<ListingRow>)
      ensures |result| == |Selected(groups, order, kit)|
      ensures forall i | 0 <= i < |result| :: result[i] == Joined(Contents(), Selected(groups, order, kit)[i])
    {
      var cursor := Selected(groups, order, kit);
      result := [];
      while |result| < |cursor|
        invariant |result| <= |cursor|
        invariant forall i | 0 <= i < |result| :: result[i] == Joined(Contents(), cursor[i])
      {
        var g := cursor[|result|];
        result := result + [ListingRow(g, if g.classId in classes then Some(classes[g.classId]) else None)];
      }
    }

    /**
     * One request to ajax.php: an error unless both parameters name an existing kit; otherwise the batch
     * is served and the kit listed, row i being the kit's group i joined with its class.
     */
    method HandleAjax(orderId: Option<int>, kitId: Option<int>, requests: seq<Request>)
        returns (answer: Response, ghost es: seq<Event>)
      requires WellFormed(Contents())
      modifies this
      ensures WellFormed(Contents()) && forall c :: Stock(Contents(), c) == Stock(old(Contents()), c)
      ensures answer.NoValidKit? <==>
              orderId.None? || kitId.None? || (orderId.value, kitId.value) !in KitKeys(old(kits))
      ensures answer.NoValidKit? ==> Contents() == old(Contents())
      ensures answer.Listed? ==>
                && |es| == |requests|
                && (forall i | 0 <= i < |es| :: es[i] == Event(orderId.value, kitId.value, requests[i], es[i].pick))
                && LegalRun(old(Contents()), es) && Contents() == Run(old(Contents()), es)
                && Framed(old(Contents()), Contents(), orderId.value, kitId.value)
                && (forall i | 0 <= i < |answer.rows| ::
                      && answer.rows[i].group in groups
                      && answer.rows[i].group.key == GroupKey(orderId.value, kitId.value, i)
                      && answer.rows[i].joined == Some(classes[answer.rows[i].group.classId]))
                && (forall g | g in groups && InKit(g, orderId.value, kitId.value) :: g.key.id < |answer.rows|)
    {
      answer, es := NoValidKit, [];
      if orderId.Some? && orderId.value in orders && kitId.Some? {
        var order, kit := orderId.value, kitId.value;
        var i := 0;
        while i < |kits| && !IsKit(kits[i], order, kit)
          invariant 0 <= i <= |kits|
          invariant forall j | 0 <= j < i :: !IsKit(kits[j], order, kit)
        {
          i := i + 1;
        }
        KitPosition(kits, (order, kit));
        if i < |kits| {
          es := ServeBatch(order, kit, requests);
          var rows := ListKit(order, kit);
          answer := Listed(rows);
          RunShape(old(Contents()), es);
          ListedKit(Contents(), i, rows);
        }
      }
    }

    // -------------------------------------------------------------------------------------
    // reset.php
    // -------------------------------------------------------------------------------------

    method ResetAll()
      modifies this
      ensures Contents() == Reset(old(Contents()))
      ensures NoShortage(Contents()) && DistinctTags(groups)
      ensures forall c | c in classes :: classes[c].inventory == 2500 && Stock(Contents(), c) == 2500
      ensures forall i | 0 <= i < |groups| :: groups[i] == old(groups)[i].(count := 0, tag := Some(""), archived := false)
      ensures |groups| == |old(groups)| && kits == old(kits) && orders == old(orders) && tags == old(tags)
    {
      groups := Update(groups, (g: GroupRow) => g.(archived := false));
      groups := Update(groups, (g: GroupRow) => g.(tag := Some("")));
      groups := Update(groups, (g: GroupRow) => g.(count := 0));
      classes := map c | c in classes :: classes[c].(inventory := RESET_INVENTORY);
      ResetBaseline(old(Contents()));
    }
  }

  lemma ListedKit(t: Tables, k: nat, rows: seq<ListingRow>)
    requires WellFormed(t) && k < |t.kits|
    requires var selected := Selected(t.groups, t.kits[k].order, t.kits[k].id);
             |rows| == |selected| && forall i | 0 <= i < |rows| :: rows[i] == Joined(t, selected[i])
    ensures forall i | 0 <= i < |rows| ::
              && rows[i].group in t.groups && rows[i].group.classId in t.classes
              && rows[i].group.key == GroupKey(t.kits[k].order, t.kits[k].id, i)
              && rows[i].joined == Some(t.classes[rows[i].group.classId])
    ensures forall g | g in t.groups && InKit(g, t.kits[k].order, t.kits[k].id) :: g.key.id < |rows|
  {
    ListingIsDense(t, k);
    forall g | g in t.groups && InKit(g, t.kits[k].order, t.kits[k].id) ensures g.key.id < |rows| {
      assert g.key in Keys(t.groups);
    }
  }
}
