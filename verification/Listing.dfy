/** The table that ajax.php sends back: the groups of one kit, joined with their classes, by id. */
module Listing {
  import opened Wrappers
  import opened Tables
  import opened Invariants
  import opened Allocator

  datatype ListingRow = ListingRow(group: GroupRow, joined: Option<ClassRow>)

  /** ORDER BY id. */
  function InsertById(rows: seq<GroupRow>, g: GroupRow): seq<GroupRow> {
    if rows == [] then [g]
    else if g.key.id < rows[0].key.id then [g] + rows
    else [rows[0]] + InsertById(rows[1..], g)
  }

  /** SELECT ... FROM groups WHERE order AND kit ORDER BY id. */
  function Selected(groups: seq<GroupRow>, order: int, kit: int): seq<GroupRow> {
    if groups == [] then []
    else
      var last := groups[|groups| - 1];
      var rest := Selected(groups[..|groups| - 1], order, kit);
      if InKit(last, order, kit) then InsertById(rest, last) else rest
  }

  /** LEFT JOIN classes. */
  function Joined(t: Tables, g: GroupRow): ListingRow {
    ListingRow(g, if g.classId in t.classes then Some(t.classes[g.classId]) else None)
  }

  ghost predicate Ascending(rows: seq<GroupRow>) {
    forall a, b | 0 <= a < b < |rows| :: rows[a].key.id < rows[b].key.id
  }

  lemma AscendingInFront(g: GroupRow, rows: seq<GroupRow>)
    requires Ascending(rows) && forall r | r in rows :: g.key.id < r.key.id
    ensures Ascending([g] + rows)
    ensures forall r :: r in [g] + rows <==> r == g || r in rows
  {
    assert forall b | 0 <= b < |rows| :: rows[b] in rows;
  }

  lemma {:induction false} InsertByIdKeeps(rows: seq<GroupRow>, g: GroupRow)
    requires Ascending(rows) && forall r | r in rows :: r.key.id != g.key.id
    ensures Ascending(InsertById(rows, g))
    ensures forall r :: r in InsertById(rows, g) <==> r in rows || r == g
  {
    if rows == [] {
    } else if g.key.id < rows[0].key.id {
      AscendingInFront(g, rows);
    } else {
      var first, rest := rows[0], rows[1..];
      assert rows == [first] + rest && first in rows;
      InsertByIdKeeps(rest, g);
      AscendingInFront(first, rest);
      AscendingInFront(first, InsertById(rest, g));
    }
  }

  lemma {:induction false} SelectedRows(groups: seq<GroupRow>, order: int, kit: int)
    requires UniqueKeys(groups)
    ensures Ascending(Selected(groups, order, kit))
    ensures forall g :: g in Selected(groups, order, kit) <==> g in groups && InKit(g, order, kit)
  {
    if groups != [] {
      var init, last := groups[..|groups| - 1], groups[|groups| - 1];
      SelectedRows(init, order, kit);
      assert groups == init + [last];
      if InKit(last, order, kit) {
        forall r | r in Selected(init, order, kit) ensures r.key.id != last.key.id {
          var j :| 0 <= j < |init| && init[j] == r;
          assert groups[j].key != last.key;
        }
        InsertByIdKeeps(Selected(init, order, kit), last);
      }
    }
  }

  ghost predicate HasId(rows: seq<GroupRow>, id: int) {
    exists r :: r in rows && r.key.id == id
  }

  lemma {:induction false} IdAtLeastPosition(rows: seq<GroupRow>, i: nat)
    requires Ascending(rows) && i < |rows| && forall r | r in rows :: 0 <= r.key.id
    ensures rows[i].key.id >= i
  {
    assert rows[i] in rows;
    if i > 0 {
      IdAtLeastPosition(rows, i - 1);
      assert rows[i - 1].key.id < rows[i].key.id;
    }
  }

  /** Ascending ids that are exactly 0 .. n - 1 are their own positions. */
  lemma {:induction false} PositionIsId(rows: seq<GroupRow>, n: nat, i: nat)
    requires Ascending(rows) && i < n
    requires forall r | r in rows :: 0 <= r.key.id < n
    requires forall id | 0 <= id < n :: HasId(rows, id)
    ensures i < |rows| && rows[i].key.id == i
  {
    assert HasId(rows, i);
    var r :| r in rows && r.key.id == i;
    var q :| 0 <= q < |rows| && rows[q] == r;
    IdAtLeastPosition(rows, q);
    if q < i { PositionIsId(rows, n, q); }
  }

  /** The listing of a kit has exactly groupCount rows, and row i is the group with id i. */
  lemma ListingIsDense(t: Tables, k: nat)
    requires KeysOk(t) && k < |t.kits|
    ensures var rows := Selected(t.groups, t.kits[k].order, t.kits[k].id);
            && |rows| == t.kits[k].groupCount
            && forall i | 0 <= i < |rows| ::
                 rows[i] in t.groups && rows[i].key == GroupKey(t.kits[k].order, t.kits[k].id, i)
  {
    var order, kit, n := t.kits[k].order, t.kits[k].id, t.kits[k].groupCount;
    var rows := Selected(t.groups, order, kit);
    SelectedRows(t.groups, order, kit);
    assert n >= 0;
    forall r | r in rows ensures 0 <= r.key.id < n && r.key == GroupKey(order, kit, r.key.id) {
      assert r.key in Keys(t.groups);
    }
    forall id | 0 <= id < n ensures HasId(rows, id) {
      assert GroupKey(order, kit, id) in Keys(t.groups);
      var g :| g in t.groups && g.key == GroupKey(order, kit, id);
      assert g in rows;
    }
    forall i: nat | i < n ensures i < |rows| && rows[i].key.id == i { PositionIsId(rows, n, i); }
    if n > 0 { PositionIsId(rows, n, n - 1); }
    if |rows| > n {
      assert rows[n] in rows;
      IdAtLeastPosition(rows, n);
    }
    forall i | 0 <= i < |rows| ensures rows[i] in t.groups && rows[i].key == GroupKey(order, kit, i) {
      assert rows[i] in rows;
    }
  }
}
