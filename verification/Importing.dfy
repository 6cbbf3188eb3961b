/** What one line of an import does (operations.php), and what every import keeps. */
module Importing {
  import opened Wrappers
  import opened Tables
  import opened Invariants
  import opened Text

  /** The section modes; Unknown is the `false` that array_search leaves for a name not in the list. */
  datatype Section = Inventory | Tags | Order | Kit | Items | Users | Unknown

  datatype State = State(t: Tables, section: Section, order: Option<int>, kit: Option<int>)

  const START: State := State(EMPTY, Inventory, None, None)

  function SectionOf(name: string): Section {
    if name == "INVENTORY" then Inventory
    else if name == "TAGS" then Tags
    else if name == "ORDER" then Order
    else if name == "KIT" then Kit
    else if name == "ITEMS" then Items
    else if name == "USERS" then Users
    else Unknown
  }

  /** `false == 0` holds, so lines under an unknown header count as inventory lines. */
  predicate ActsAsInventory(s: Section) {
    s.Inventory? || s.Unknown?
  }

  predicate IsComment(line: string) {
    line == "" || line[0] == '#'
  }

  predicate InBracket(line: string) {
    line != "" && line[0] == '['
  }

  function Fields(line: string): seq<string> {
    Split(line, ',')
  }

  /** The class name of an item line: the text after its fourth comma, less its last character. */
  function ItemName(line: string): string
    requires |Fields(line)| >= 5
  {
    DropLast(Join(Fields(line)[4..], ','))
  }

  /** The new group of an item line; key and class are filled in by the caller. */
  function ItemRow(line: string, key: GroupKey, classId: int): GroupRow
    requires |Fields(line)| >= 5
  {
    var f := Fields(line);
    GroupRow(key, classId, IntVal(f[1]), IntVal(f[0]), if f[2] == "" then None else Some(f[2]),
             !(f[3] == "f" || f[3] == ""))
  }

  lemma ItemRowFields(line: string, key: GroupKey, classId: int)
    requires |Split(line, ',')| >= 5
    ensures var g, f := ItemRow(line, key, classId), Split(line, ',');
            && g.key == key && g.classId == classId
            && g.target == IntVal(f[0]) && g.count == IntVal(f[1])
            && g.tag == (if f[2] == "" then None else Some(f[2]))
            && (g.archived <==> f[3] != "f" && f[3] != "")
  {}

  // ---------------------------------------------------------------------------------------
  // One line
  // ---------------------------------------------------------------------------------------

  ghost function Step(s: State, line: string): State {
    if IsComment(line) then s
    else if InBracket(line) then
      match HeaderName(line)
      case None => s
      case Some(name) => Enter(s, SectionOf(name))
    else if ActsAsInventory(s.section) then s.(t := InventoryLine(s.t, line))
    else if s.section.Tags? then s.(t := InsertTag(s.t, DropLast(line)))
    else if s.section.Items? then s.(t := ItemLine(s, line))
    else s
  }

  function Enter(s: State, section: Section): State {
    match section
    case Order => State(InsertOrder(s.t), section, Some(s.t.nextOrder), None)
    case Kit =>
      if s.order.Some? then
        State(InsertKit(s.t, s.order.value), section, s.order, Some(NewKitId(s.t, s.order.value)))
      else s.(section := section)
    case _ => s.(section := section)
  }

  ghost function InventoryLine(t: Tables, line: string): Tables {
    var f := Fields(line);
    if |f| == 2 then
      SetInventory(EnsureClass(t, ClassName(f[0])), ClassFor(t, ClassName(f[0])), IntVal(f[1]))
    else t
  }

  /** The class and the tag of an item line are created even if no kit is open to put the item in. */
  ghost function ItemLine(s: State, line: string): Tables {
    if |Fields(line)| < 5 then s.t
    else
      var name := ClassName(ItemName(line));
      var c := ClassFor(s.t, name);
      var t1 := EnsureClass(s.t, name);
      var t2 := if Fields(line)[2] == "" then t1 else InsertTag(t1, Fields(line)[2]);
      if s.order.Some? && s.kit.Some? then
        InsertGroup(t2, s.order.value, s.kit.value, ItemRow(line, GroupKey(s.order.value, s.kit.value, 0), c))
      else t2
  }

  ghost function ImportLines(lines: seq<string>): State {
    if lines == [] then START else Step(ImportLines(lines[..|lines| - 1]), lines[|lines| - 1])
  }

  /** The tables after importing a text. */
  ghost function Import(code: string): Tables {
    ImportLines(Split(code, '\n')).t
  }

  // ---------------------------------------------------------------------------------------
  // Invariant of the import loop
  // ---------------------------------------------------------------------------------------

  /** The current order exists; the current kit is a kit of it, and the last one. */
  ghost predicate CursorOk(s: State) {
    && (s.kit.Some? ==> s.order.Some?)
    && (s.order.Some? ==> s.order.value in s.t.orders && s.order.value == s.t.nextOrder - 1)
    && (s.order.None? ==> s.t.orders.Keys == {})
    && (s.kit.Some? ==> s.kit.value == s.t.orders[s.order.value] - 1 && s.kit.value >= 0)
    && (s.kit.None? && s.order.Some? ==> s.t.orders[s.order.value] == 0)
  }

  ghost predicate Good(s: State) {
    WellFormed(s.t) && CursorOk(s)
  }

  lemma StartGood()
    ensures Good(START)
  {}

  lemma InsertOrderGood(t: Tables)
    requires WellFormed(t)
    ensures WellFormed(InsertOrder(t))
  {
    var t' := InsertOrder(t);
    assert t.nextOrder !in t.orders;
    assert forall n :: (t.nextOrder, n) !in KitKeys(t.kits);
  }

  lemma KitKeysAppend(kits: seq<KitRow>, k: KitRow)
    ensures KitKeys(kits + [k]) == KitKeys(kits) + {(k.order, k.id)}
  {
    assert forall x :: x in kits + [k] <==> x in kits || x == k;
  }

  lemma KeysAppend(groups: seq<GroupRow>, g: GroupRow)
    ensures Keys(groups + [g]) == Keys(groups) + {g.key}
  {
    assert forall x :: x in groups + [g] <==> x in groups || x == g;
  }

  lemma InsertKitGood(t: Tables, order: int)
    requires WellFormed(t) && order in t.orders
    ensures WellFormed(InsertKit(t, order))
  {
    var t' := InsertKit(t, order);
    var k := KitRow(order, t.orders[order], 0, 0);
    KitKeysAppend(t.kits, k);
    assert (order, k.id) !in KitKeys(t.kits);
    forall i | 0 <= i < |t.kits| ensures (t.kits[i].order, t.kits[i].id) in KitKeys(t.kits) {
      KitPosition(t.kits, (t.kits[i].order, t.kits[i].id));
    }
    assert UniqueKits(t'.kits);
    forall n ensures GroupKey(order, k.id, n) !in Keys(t.groups) {}
    assert DenseGroups(t');
    assert DenseKits(t');
    assert Anchored(t');
  }

  lemma OnlyKitPosition(kits: seq<KitRow>, i: nat, order: int, kit: int)
    requires UniqueKits(kits) && i < |kits| && IsKit(kits[i], order, kit)
    ensures forall j | 0 <= j < |kits| && IsKit(kits[j], order, kit) :: j == i
  {
    forall j | 0 <= j < |kits| && IsKit(kits[j], order, kit) ensures j == i {
      assert (kits[j].order, kits[j].id) == (kits[i].order, kits[i].id);
    }
  }

  lemma {:induction false} NewGroupsAt(kits: seq<KitRow>, order: int, kit: int, row: GroupRow, i: nat)
    requires i < |kits| && IsKit(kits[i], order, kit)
    requires forall j | 0 <= j < |kits| && IsKit(kits[j], order, kit) :: j == i
    ensures NewGroups(kits, order, kit, row) == [row.(key := GroupKey(order, kit, kits[i].groupCount))]
  {
    var init := kits[..|kits| - 1];
    if i == |kits| - 1 {
      NoNewGroups(init, order, kit, row);
    } else {
      NewGroupsAt(init, order, kit, row, i);
    }
  }

  lemma {:induction false} NoNewGroups(kits: seq<KitRow>, order: int, kit: int, row: GroupRow)
    requires forall j | 0 <= j < |kits| :: !IsKit(kits[j], order, kit)
    ensures NewGroups(kits, order, kit, row) == []
  {
    if kits != [] { NoNewGroups(kits[..|kits| - 1], order, kit, row); }
  }

  /** Position of the kit row. */
  ghost function KitAt(t: Tables, order: int, kit: int): (i: nat)
    requires (order, kit) in KitKeys(t.kits)
    ensures i < |t.kits| && IsKit(t.kits[i], order, kit)
  {
    KitPosition(t.kits, (order, kit));
    var i :| 0 <= i < |t.kits| && (t.kits[i].order, t.kits[i].id) == (order, kit);
    i
  }

  /** On unique kits the insertion adds exactly one row, numbered by the kit's counter. */
  lemma InsertGroupIsOneRow(t: Tables, order: int, kit: int, row: GroupRow)
    requires UniqueKits(t.kits) && (order, kit) in KitKeys(t.kits)
    ensures var i := KitAt(t, order, kit);
            InsertGroup(t, order, kit, row) ==
            t.(kits := t.kits[i := t.kits[i].(groupCount := t.kits[i].groupCount + 1)],
               groups := t.groups + [row.(key := GroupKey(order, kit, t.kits[i].groupCount))])
  {
    var i := KitAt(t, order, kit);
    OnlyKitPosition(t.kits, i, order, kit);
    NewGroupsAt(t.kits, order, kit, row, i);
    assert InsertGroup(t, order, kit, row).kits == t.kits[i := t.kits[i].(groupCount := t.kits[i].groupCount + 1)];
  }

  lemma InsertGroupGood(t: Tables, order: int, kit: int, row: GroupRow)
    requires WellFormed(t) && (order, kit) in KitKeys(t.kits)
    requires row.classId in t.classes && (HasTag(row) ==> row.tag.value in t.tags)
    ensures WellFormed(InsertGroup(t, order, kit, row))
  {
    var i := KitAt(t, order, kit);
    var t' := InsertGroup(t, order, kit, row);
    InsertGroupIsOneRow(t, order, kit, row);
    var g := t'.groups[|t.groups|];
    KeysAppend(t.groups, g);
    SameKitKeys(t.kits, t'.kits);
    assert g.key !in Keys(t.groups);
    forall j | 0 <= j < |t.groups| ensures t.groups[j].key in Keys(t.groups) { KeyPosition(t.groups, t.groups[j].key); }
    assert UniqueKeys(t'.groups);
    assert UniqueKits(t'.kits) by { UniqueKitsKept(t.kits, t'.kits); }
    OnlyKitPosition(t.kits, i, order, kit);
    assert DenseGroups(t');
    assert DenseKits(t');
    assert Anchored(t');
    assert TagsOk(t');
  }

  lemma SameKitKeys(kits: seq<KitRow>, kits': seq<KitRow>)
    requires |kits| == |kits'|
    requires forall i | 0 <= i < |kits| :: kits'[i].order == kits[i].order && kits'[i].id == kits[i].id
    ensures KitKeys(kits') == KitKeys(kits)
  {
    forall p ensures p in KitKeys(kits') <==> p in KitKeys(kits) {
      KitPosition(kits, p);
      KitPosition(kits', p);
    }
  }

  lemma UniqueKitsKept(kits: seq<KitRow>, kits': seq<KitRow>)
    requires UniqueKits(kits) && |kits| == |kits'|
    requires forall i | 0 <= i < |kits| :: kits'[i].order == kits[i].order && kits'[i].id == kits[i].id
    ensures UniqueKits(kits')
  {
    forall i, j | 0 <= i < j < |kits'|
      ensures (kits'[i].order, kits'[i].id) != (kits'[j].order, kits'[j].id)
    {
      assert (kits[i].order, kits[i].id) != (kits[j].order, kits[j].id);
    }
  }

  lemma EnsureClassGood(t: Tables, name: string)
    requires WellFormed(t)
    ensures WellFormed(EnsureClass(t, name))
    ensures ClassFor(t, name) in EnsureClass(t, name).classes
    ensures EnsureClass(t, name).classes[ClassFor(t, name)].description == name
    ensures forall c | c in t.classes :: c in EnsureClass(t, name).classes && EnsureClass(t, name).classes[c] == t.classes[c]
  {}

  lemma SetInventoryGood(t: Tables, c: int, n: int)
    requires WellFormed(t)
    ensures WellFormed(SetInventory(t, c, n))
  {
    ShapeKeepsKeys(t, SetInventory(t, c, n));
  }

  lemma InsertTagGood(t: Tables, tag: string)
    requires WellFormed(t)
    ensures WellFormed(InsertTag(t, tag))
  {}

  lemma EnterGood(s: State, section: Section)
    requires Good(s)
    ensures Good(Enter(s, section))
  {
    if section.Order? {
      InsertOrderGood(s.t);
    } else if section.Kit? && s.order.Some? {
      InsertKitGood(s.t, s.order.value);
    }
  }

  /** The open kit is a row of the kits table. */
  lemma OpenKitExists(s: State)
    requires Good(s) && s.kit.Some?
    ensures (s.order.value, s.kit.value) in KitKeys(s.t.kits)
  {}

  /** The tables with the class and the tag that an item line creates. */
  ghost function ItemCatalogued(s: State, line: string): Tables
    requires |Fields(line)| >= 5
  {
    var t1 := EnsureClass(s.t, ClassName(ItemName(line)));
    if Fields(line)[2] == "" then t1 else InsertTag(t1, Fields(line)[2])
  }

  lemma ItemCataloguedGood(s: State, line: string)
    requires Good(s) && |Fields(line)| >= 5
    ensures var t2, name := ItemCatalogued(s, line), ClassName(ItemName(line));
            && WellFormed(t2) && t2 == s.t.(classes := t2.classes, nextClass := t2.nextClass, tags := t2.tags)
            && ClassFor(s.t, name) in t2.classes && t2.classes[ClassFor(s.t, name)].description == name
            && (Fields(line)[2] != "" ==> Fields(line)[2] in t2.tags)
  {
    var t1 := EnsureClass(s.t, ClassName(ItemName(line)));
    EnsureClassGood(s.t, ClassName(ItemName(line)));
    InsertTagGood(t1, Fields(line)[2]);
  }

  lemma ItemLineGood(s: State, line: string)
    requires Good(s) && |Fields(line)| >= 5
    ensures WellFormed(ItemLine(s, line)) && ItemLine(s, line).orders == s.t.orders
    ensures ItemLine(s, line).nextOrder == s.t.nextOrder
  {
    var c, t2 := ClassFor(s.t, ClassName(ItemName(line))), ItemCatalogued(s, line);
    ItemCataloguedGood(s, line);
    if s.kit.Some? {
      var row := ItemRow(line, GroupKey(s.order.value, s.kit.value, 0), c);
      assert (s.order.value, s.kit.value) in KitKeys(s.t.kits) by { OpenKitExists(s); }
      assert ItemLine(s, line) == InsertGroup(t2, s.order.value, s.kit.value, row);
      InsertGroupGood(t2, s.order.value, s.kit.value, row);
    } else {
      assert ItemLine(s, line) == t2;
    }
  }

  /** Every line keeps the tables well formed and the cursor on the last kit of the last order. */
  lemma StepGood(s: State, line: string)
    requires Good(s)
    ensures Good(Step(s, line))
  {
    if IsComment(line) {
    } else if InBracket(line) {
      if HeaderName(line).Some? { EnterGood(s, SectionOf(HeaderName(line).value)); }
    } else if ActsAsInventory(s.section) {
      if |Fields(line)| == 2 {
        var name := ClassName(Fields(line)[0]);
        EnsureClassGood(s.t, name);
        SetInventoryGood(EnsureClass(s.t, name), ClassFor(s.t, name), IntVal(Fields(line)[1]));
      }
    } else if s.section.Tags? {
      InsertTagGood(s.t, DropLast(line));
    } else if s.section.Items? && |Fields(line)| >= 5 {
      ItemLineGood(s, line);
    }
  }

  /** Dense keys, existing references and the cursor, at every line of every import. */
  lemma {:induction false} ImportGood(lines: seq<string>)
    ensures Good(ImportLines(lines))
  {
    if lines == [] {
      StartGood();
    } else {
      ImportGood(lines[..|lines| - 1]);
      StepGood(ImportLines(lines[..|lines| - 1]), lines[|lines| - 1]);
    }
  }
}
