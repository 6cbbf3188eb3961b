/**
 * The kitting tables and every SQL statement that the importer, the allocator and the reset send
 * to them, each as one atomic function on the tables.
 *
 * `kits` and `groups` carry no key constraint: they are sequences of rows, an UPDATE touches every
 * row that matches, and that their keys are unique is proved, not assumed. `classes` and `orders`
 * get their ids from serial counters; `tags` has its id as primary key.
 */
module Tables {
  import opened Wrappers
  import opened Rows

  datatype ClassRow = ClassRow(description: string, inventory: int)

  datatype KitRow = KitRow(order: int, id: int, groupCount: int, status: int)

  datatype GroupKey = GroupKey(order: int, kit: int, id: int)

  datatype GroupRow = GroupRow(key: GroupKey, classId: int, count: int, target: int, tag: Option<string>, archived: bool)

  datatype Tables = Tables(
    classes: map<int, ClassRow>, nextClass: int,
    tags: set<string>,
    orders: map<int, int>, nextOrder: int,
    kits: seq<KitRow>,
    groups: seq<GroupRow>)

  /** Inventory of a class created without one; the schema is not part of this model. */
  const DEFAULT_INVENTORY: int := 0

  const RESET_INVENTORY: int := 2500

  /** The state after TRUNCATE ... RESTART IDENTITY. */
  const EMPTY: Tables := Tables(map[], 1, {}, map[], 1, [], [])

  // ---------------------------------------------------------------------------------------
  // Statements of the allocator (ajax.php)
  // ---------------------------------------------------------------------------------------

  /** Position of the first group with the key, |groups| if there is none. */
  function IndexOf(groups: seq<GroupRow>, key: GroupKey): (i: nat)
    ensures i <= |groups|
    ensures i < |groups| ==> groups[i].key == key
    ensures forall j :: 0 <= j < i ==> groups[j].key != key
  {
    if groups == [] then 0
    else
      var i := IndexOf(groups[..|groups| - 1], key);
      if i < |groups| - 1 || groups[i].key == key then i else |groups|
  }

  /** Row i joins its class in the guarded UPDATE of the inventory, and the guard holds. */
  ghost predicate Admits(t: Tables, i: nat, key: GroupKey, value: int) {
    && i < |t.groups| && t.groups[i].key == key && t.groups[i].classId in t.classes
    && t.classes[t.groups[i].classId].inventory >= value - t.groups[i].count
  }

  /**
   * UPDATE classes SET inventory = inventory - (value - groups.count) FROM groups WHERE ..., on any
   * tables: a class with several admitting rows is updated from one of them.
   */
  ghost predicate TakeStatement(t: Tables, key: GroupKey, value: int, t': Tables, affected: bool) {
    && t' == t.(classes := t'.classes) && t'.classes.Keys == t.classes.Keys
    && (forall c | c in t.classes :: t'.classes[c] == t.classes[c] || TakenFrom(t, key, value, t', c))
    && (forall i: nat | Admits(t, i, key, value) :: TakenFrom(t, key, value, t', t.groups[i].classId))
    && (affected <==> exists i: nat :: Admits(t, i, key, value))
  }

  ghost predicate TakenFrom(t: Tables, key: GroupKey, value: int, t': Tables, c: int)
    requires c in t.classes && t'.classes.Keys == t.classes.Keys
  {
    exists i: nat :: Admits(t, i, key, value) && t.groups[i].classId == c &&
      t'.classes[c] == Withdraw(t.classes[c], value - t.groups[i].count)
  }

  function Withdraw(c: ClassRow, n: int): ClassRow {
    c.(inventory := c.inventory - n)
  }

  /** The guard of the take, for unique keys. */
  predicate Accepts(t: Tables, key: GroupKey, value: int) {
    var i := IndexOf(t.groups, key);
    && i < |t.groups| && t.groups[i].classId in t.classes
    && t.classes[t.groups[i].classId].inventory >= value - t.groups[i].count
  }

  /** The take, for unique keys. */
  function Take(t: Tables, key: GroupKey, value: int): Tables {
    if Accepts(t, key, value) then
      var g := t.groups[IndexOf(t.groups, key)];
      t.(classes := t.classes[g.classId := Withdraw(t.classes[g.classId], value - g.count)])
    else t
  }

  function WithCount(key: GroupKey, value: int): GroupRow -> GroupRow {
    (g: GroupRow) => if g.key == key then g.(count := value) else g
  }

  /** UPDATE groups SET count = value WHERE key. */
  function SetCount(t: Tables, key: GroupKey, value: int): Tables {
    t.(groups := Update(t.groups, WithCount(key, value)))
  }

  function WithTag(key: GroupKey, tag: Option<string>): GroupRow -> GroupRow {
    (g: GroupRow) => if g.key == key && g.count == g.target then g.(tag := tag) else g
  }

  /** UPDATE groups SET tag_id = tag WHERE key AND count = target. */
  function SetTag(t: Tables, key: GroupKey, tag: Option<string>): Tables {
    t.(groups := Update(t.groups, WithTag(key, tag)))
  }

  function WithStatus(order: int, kit: int, status: int): KitRow -> KitRow {
    (k: KitRow) => if k.order == order && k.id == kit then k.(status := status) else k
  }

  /** UPDATE kits SET status = status WHERE order AND kit. */
  function SetStatus(t: Tables, order: int, kit: int, status: int): Tables {
    t.(kits := Update(t.kits, WithStatus(order, kit, status)))
  }

  /** The tag ids in use, the empty one included. */
  function TagsInUse(groups: seq<GroupRow>): set<string> {
    set g | g in groups && g.tag.Some? :: g.tag.value
  }

  /** SELECT id FROM tags WHERE NOT EXISTS (a group with it) LIMIT 1: any free tag, NULL if none is. */
  ghost predicate IsFreePick(t: Tables, pick: Option<string>) {
    match pick
    case Some(x) => x in t.tags && x !in TagsInUse(t.groups)
    case None => t.tags <= TagsInUse(t.groups)
  }

  // ---------------------------------------------------------------------------------------
  // Statements of reset.php
  // ---------------------------------------------------------------------------------------

  function ClearArchived(t: Tables): Tables {
    t.(groups := Update(t.groups, (g: GroupRow) => g.(archived := false)))
  }

  function ClearTags(t: Tables): Tables {
    t.(groups := Update(t.groups, (g: GroupRow) => g.(tag := Some(""))))
  }

  function ClearCounts(t: Tables): Tables {
    t.(groups := Update(t.groups, (g: GroupRow) => g.(count := 0)))
  }

  function FillInventories(t: Tables): Tables {
    t.(classes := map c | c in t.classes :: t.classes[c].(inventory := RESET_INVENTORY))
  }

  function Reset(t: Tables): Tables {
    FillInventories(ClearCounts(ClearTags(ClearArchived(t))))
  }

  // ---------------------------------------------------------------------------------------
  // Statements of the importer (operations.php)
  // ---------------------------------------------------------------------------------------

  ghost predicate HasClass(t: Tables, name: string) {
    exists c :: c in t.classes && t.classes[c].description == name
  }

  /** SELECT id FROM classes WHERE description = name, first row. */
  ghost function FindClass(t: Tables, name: string): (c: int)
    requires HasClass(t, name)
    ensures c in t.classes && t.classes[c].description == name
  {
    var c :| c in t.classes && t.classes[c].description == name;
    c
  }

  function InsertClass(t: Tables, name: string): Tables {
    t.(classes := t.classes[t.nextClass := ClassRow(name, DEFAULT_INVENTORY)], nextClass := t.nextClass + 1)
  }

  /** Find or create; ClassFor is the id that create_class returns. */
  ghost function EnsureClass(t: Tables, name: string): Tables {
    if HasClass(t, name) then t else InsertClass(t, name)
  }

  ghost function ClassFor(t: Tables, name: string): int {
    if HasClass(t, name) then FindClass(t, name) else t.nextClass
  }

  function SetInventory(t: Tables, c: int, inventory: int): Tables {
    if c in t.classes then t.(classes := t.classes[c := t.classes[c].(inventory := inventory)]) else t
  }

  /** INSERT INTO tags; a duplicate key fails silently. */
  function InsertTag(t: Tables, tag: string): Tables {
    t.(tags := t.tags + {tag})
  }

  function InsertOrder(t: Tables): Tables {
    t.(orders := t.orders[t.nextOrder := 0], nextOrder := t.nextOrder + 1)
  }

  /** Counts the order's kits up and inserts the kit with the old count as id. */
  function InsertKit(t: Tables, order: int): Tables {
    if order in t.orders then
      t.(orders := t.orders[order := t.orders[order] + 1],
         kits := t.kits + [KitRow(order, t.orders[order], 0, 0)])
    else t
  }

  /** The id that the INSERT returns; no row reads as 0. */
  function NewKitId(t: Tables, order: int): int {
    if order in t.orders then t.orders[order] else 0
  }

  predicate IsKit(k: KitRow, order: int, kit: int) {
    k.order == order && k.id == kit
  }

  function CountedUp(order: int, kit: int): KitRow -> KitRow {
    (k: KitRow) => if IsKit(k, order, kit) then k.(groupCount := k.groupCount + 1) else k
  }

  /** One new group per matching kit row, each with that row's old group count as id. */
  function NewGroups(kits: seq<KitRow>, order: int, kit: int, row: GroupRow): seq<GroupRow> {
    if kits == [] then []
    else
      var last := kits[|kits| - 1];
      NewGroups(kits[..|kits| - 1], order, kit, row) +
      (if IsKit(last, order, kit) then [row.(key := GroupKey(order, kit, last.groupCount))] else [])
  }

  /** Counts the kit's groups up and inserts `row` under the old count. */
  function InsertGroup(t: Tables, order: int, kit: int, row: GroupRow): Tables {
    t.(kits := Update(t.kits, CountedUp(order, kit)), groups := t.groups + NewGroups(t.kits, order, kit, row))
  }
}
