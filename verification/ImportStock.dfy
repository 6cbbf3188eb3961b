/** The stock of every class that an import leaves, read off the text. */
module ImportStock {
  import opened Rows
  import opened Tables
  import opened Invariants
  import opened Text
  import opened Importing
  import opened ImportMeaning
  import opened ImportCatalogue

  /** The count that line i gives to a group of the class. */
  function CountAt(lines: seq<string>, name: string): nat -> int {
    (i: nat) =>
      if i < |lines| && |Fields(lines[i])| >= 5 && ClassName(ItemName(lines[i])) == name
      then IntVal(Fields(lines[i])[1]) else 0
  }

  /** The pieces of a class in the text: its stated inventory, and the counts of its placed items. */
  ghost function TextStock(lines: seq<string>, name: string): int {
    StatedInventory(lines, name) + Sum(PlacedLines(lines), CountAt(lines, name))
  }

  lemma {:induction false} SumAligned<T, U>(xs: seq<T>, f: T -> int, ys: seq<U>, g: U -> int)
    requires |xs| == |ys| && forall k | 0 <= k < |xs| :: f(xs[k]) == g(ys[k])
    ensures Sum(xs, f) == Sum(ys, g)
  {
    if xs != [] {
      var n := |xs| - 1;
      forall k | 0 <= k < n ensures f(xs[..n][k]) == g(ys[..n][k]) { assert f(xs[k]) == g(ys[k]); }
      SumAligned(xs[..n], f, ys[..n], g);
    }
  }

  lemma RowCount(lines: seq<string>, t: Tables, i: nat, g: GroupRow, c: int)
    requires Placed(lines, i) && IsRowOf(lines, i, t, g) && DistinctNames(t) && c in t.classes
    ensures CountOf(c)(g) == CountAt(lines, t.classes[c].description)(i)
  {
    assert g.classId == c <==> ClassName(ItemName(lines[i])) == t.classes[c].description;
  }

  /** After an import every class holds exactly the pieces that the text gives it. */
  lemma ImportedStock(lines: seq<string>, c: int)
    requires c in ImportLines(lines).t.classes
    ensures Stock(ImportLines(lines).t, c) == TextStock(lines, ImportLines(lines).t.classes[c].description)
  {
    var t, idx := ImportLines(lines).t, PlacedLines(lines);
    var name := t.classes[c].description;
    assert Invariants.Inventory(t, c) == StatedInventory(lines, name) by { LastInventoryLineWins(lines); }
    assert DistinctNames(t) by { ImportGood(lines); }
    assert RowsTraced(t, lines) by { GroupsAreTheItems(lines); }
    forall k | 0 <= k < |idx| ensures CountOf(c)(t.groups[k]) == CountAt(lines, name)(idx[k]) {
      RowCount(lines, t, idx[k], t.groups[k], c);
    }
    SumAligned(t.groups, CountOf(c), idx, CountAt(lines, name));
  }

  /** An import leaves no negative inventory exactly if the text states none for a class it names. */
  lemma ImportedShortage(lines: seq<string>)
    ensures NoShortage(ImportLines(lines).t) <==> forall name | Named(lines, name) :: StatedInventory(lines, name) >= 0
  {
    var t := ImportLines(lines).t;
    LastInventoryLineWins(lines);
    forall name ensures HasClass(t, name) <==> Named(lines, name) { ClassesAreTheNamed(lines, name); }
    if NoShortage(t) {
      forall name | Named(lines, name) ensures StatedInventory(lines, name) >= 0 {
        assert HasClass(t, name);
        var c :| c in t.classes && t.classes[c].description == name;
      }
    } else {
      var c :| c in t.classes && t.classes[c].inventory < 0;
      assert HasClass(t, t.classes[c].description);
    }
  }
}
