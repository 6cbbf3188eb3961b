/**
 * What an import means, read off the text without running it: headings count and delimit, and each
 * row of each table is traced to the line that caused it.
 */
module ImportMeaning {
  import opened Wrappers
  import opened Tables
  import opened Invariants
  import opened Text
  import opened Importing

  // ---------------------------------------------------------------------------------------
  // Reading the text
  // ---------------------------------------------------------------------------------------

  function Heading(line: string): Option<Section> {
    match HeaderName(line)
    case None => None
    case Some(name) => Some(SectionOf(name))
  }

  /** The headings of a text, line by line. */
  function Headings(lines: seq<string>): (h: seq<Option<Section>>)
    ensures |h| == |lines|
  {
    seq(|lines|, i requires 0 <= i < |lines| => Heading(lines[i]))
  }

  /** The position after the last heading of the section, or of any section; 0 if there is none. */
  function AfterLast(heads: seq<Option<Section>>, wanted: Option<Section>): (n: nat)
    ensures n <= |heads|
    ensures n > 0 ==> heads[n - 1].Some? && (wanted.Some? ==> heads[n - 1] == wanted)
    ensures forall i | n <= i < |heads| && heads[i].Some? :: wanted.Some? && heads[i] != wanted
  {
    if heads == [] then 0
    else
      var last := heads[|heads| - 1];
      if last.Some? && (wanted.None? || last == wanted) then |heads|
      else AfterLast(heads[..|heads| - 1], wanted)
  }

  function CountHeads(heads: seq<Option<Section>>, wanted: Section): nat {
    if heads == [] then 0
    else CountHeads(heads[..|heads| - 1], wanted) + if heads[|heads| - 1] == Some(wanted) then 1 else 0
  }

  /** The section that governs the next line: that of the last heading, INVENTORY before the first. */
  function SectionUnder(heads: seq<Option<Section>>): Section {
    var n := AfterLast(heads, None);
    if n == 0 then Inventory else heads[n - 1].value
  }

  /** The number of [KIT] headings since the last [ORDER]. */
  function KitsInOrder(heads: seq<Option<Section>>): nat {
    CountHeads(heads[AfterLast(heads, Some(Order))..], Kit)
  }

  /** Order number and kit id of the kit that the next item goes into. */
  function KitUnder(heads: seq<Option<Section>>): Option<(int, int)> {
    var orders := CountHeads(heads, Order);
    if orders > 0 && KitsInOrder(heads) > 0 then Some((orders, KitsInOrder(heads) - 1)) else None
  }

  function SectionAfter(lines: seq<string>): Section {
    SectionUnder(Headings(lines))
  }

  function OpenKit(lines: seq<string>): Option<(int, int)> {
    KitUnder(Headings(lines))
  }

  predicate IsBody(line: string) {
    !IsComment(line) && !InBracket(line)
  }

  predicate IsItem(section: Section, line: string) {
    IsBody(line) && section == Items && |Fields(line)| >= 5
  }

  predicate IsInventory(section: Section, line: string) {
    IsBody(line) && ActsAsInventory(section) && |Fields(line)| == 2
  }

  /** Line i is an item line below an open kit. */
  predicate Placed(lines: seq<string>, i: nat) {
    i < |lines| && IsItem(SectionAfter(lines[..i]), lines[i]) && OpenKit(lines[..i]).Some?
  }

  function PlacedLines(lines: seq<string>): seq<nat> {
    if lines == [] then []
    else
      var n := |lines| - 1;
      PlacedLines(lines[..n]) + if Placed(lines, n) then [n] else []
  }

  /** How many lines are placed in the kit p. */
  function CountPlaced(lines: seq<string>, p: (int, int)): nat {
    if lines == [] then 0
    else
      var n := |lines| - 1;
      CountPlaced(lines[..n], p) + if Placed(lines, n) && OpenKit(lines[..n]) == Some(p) then 1 else 0
  }

  /** g is the row of line i: in the kit open there, numbered by the lines placed before it in that kit. */
  ghost predicate IsRowOf(lines: seq<string>, i: nat, t: Tables, g: GroupRow)
    requires Placed(lines, i)
  {
    var p := OpenKit(lines[..i]).value;
    && g.key == GroupKey(p.0, p.1, CountPlaced(lines[..i], p))
    && g == ItemRow(lines[i], g.key, g.classId)
    && g.classId in t.classes && t.classes[g.classId].description == ClassName(ItemName(lines[i]))
  }

  // ---------------------------------------------------------------------------------------
  // The loop's cursor is what the text says
  // ---------------------------------------------------------------------------------------

  ghost predicate Traced(s: State, heads: seq<Option<Section>>) {
    var orders := CountHeads(heads, Order);
    && s.section == SectionUnder(heads)
    && s.t.nextOrder == orders + 1
    && s.order == (if orders == 0 then None else Some(orders))
    && (orders > 0 ==> orders in s.t.orders && s.t.orders[orders] == KitsInOrder(heads))
    && s.kit == (if KitUnder(heads).Some? then Some(KitUnder(heads).value.1) else None)
  }

  /** Every kit's counter is the number of lines placed in it. */
  ghost predicate Counted(t: Tables, lines: seq<string>) {
    && (forall i | 0 <= i < |t.kits| :: t.kits[i].groupCount == CountPlaced(lines, (t.kits[i].order, t.kits[i].id)))
    && (forall p | p !in KitKeys(t.kits) :: CountPlaced(lines, p) == 0)
  }

  lemma HeadingsAppend(lines: seq<string>, line: string)
    ensures Headings(lines + [line]) == Headings(lines) + [Heading(line)]
  {}

  lemma SectionStep(heads: seq<Option<Section>>, h: Option<Section>)
    ensures SectionUnder(heads + [h]) == if h.Some? then h.value else SectionUnder(heads)
  {
    assert (heads + [h])[..|heads|] == heads;
  }

  lemma CountStep(heads: seq<Option<Section>>, h: Option<Section>, wanted: Section)
    ensures CountHeads(heads + [h], wanted) == CountHeads(heads, wanted) + if h == Some(wanted) then 1 else 0
  {
    assert (heads + [h])[..|heads|] == heads;
  }

  lemma KitsStep(heads: seq<Option<Section>>, h: Option<Section>)
    ensures KitsInOrder(heads + [h]) ==
            if h == Some(Order) then 0 else KitsInOrder(heads) + if h == Some(Kit) then 1 else 0
  {
    var all := heads + [h];
    assert all[..|heads|] == heads;
    if h == Some(Order) {
      assert all[|all|..] == [];
    } else {
      var n := AfterLast(heads, Some(Order));
      assert AfterLast(all, Some(Order)) == n;
      assert all[n..] == heads[n..] + [h];
      CountStep(heads[n..], h, Kit);
    }
  }

  lemma EnterTraced(s: State, section: Section, heads: seq<Option<Section>>)
    requires Good(s) && Traced(s, heads)
    ensures Traced(Enter(s, section), heads + [Some(section)])
  {
    var h := Some(section);
    assert SectionUnder(heads + [h]) == section by { SectionStep(heads, h); }
    assert CountHeads(heads + [h], Order) == CountHeads(heads, Order) + if section.Order? then 1 else 0 by {
      CountStep(heads, h, Order);
    }
    assert KitsInOrder(heads + [h]) ==
           if section.Order? then 0 else KitsInOrder(heads) + if section.Kit? then 1 else 0 by {
      KitsStep(heads, h);
    }
  }

  lemma QuietTraced(s: State, s': State, heads: seq<Option<Section>>)
    requires Traced(s, heads) && s' == s.(t := s'.t)
    requires s'.t.nextOrder == s.t.nextOrder && s'.t.orders == s.t.orders
    ensures Traced(s', heads + [None])
  {
    SectionStep(heads, None);
    CountStep(heads, None, Order);
    KitsStep(heads, None);
  }

  lemma StepAtHeading(s: State, line: string)
    requires Heading(line).Some?
    ensures Step(s, line) == Enter(s, Heading(line).value)
  {}

  /** A line that is no heading leaves the cursor and the orders alone. */
  lemma StepElsewhere(s: State, line: string)
    requires Good(s) && Heading(line).None?
    ensures Step(s, line) == s.(t := Step(s, line).t)
    ensures Step(s, line).t.nextOrder == s.t.nextOrder && Step(s, line).t.orders == s.t.orders
  {
    if !IsComment(line) && !InBracket(line) && s.section.Items? && |Fields(line)| >= 5 {
      ItemLineGood(s, line);
    }
  }

  lemma {:induction false} ImportTraced(lines: seq<string>)
    ensures Traced(ImportLines(lines), Headings(lines))
  {
    if lines == [] {
      assert Headings(lines) == [];
    } else {
      var init, last := lines[..|lines| - 1], lines[|lines| - 1];
      var s := ImportLines(init);
      ImportTraced(init);
      ImportGood(init);
      assert lines == init + [last];
      HeadingsAppend(init, last);
      if Heading(last).Some? {
        StepAtHeading(s, last);
        EnterTraced(s, Heading(last).value, Headings(init));
      } else {
        StepElsewhere(s, last);
        QuietTraced(s, Step(s, last), Headings(init));
      }
    }
  }

  /** The number of [KIT] headings below the o-th [ORDER] heading and above the next. */
  function KitsOfOrder(heads: seq<Option<Section>>, o: int): nat {
    if heads == [] then 0
    else
      var init, last := heads[..|heads| - 1], heads[|heads| - 1];
      KitsOfOrder(init, o) + if last == Some(Kit) && CountHeads(init, Order) == o then 1 else 0
  }

  ghost predicate OrdersTraced(t: Tables, heads: seq<Option<Section>>) {
    && (forall o :: o in t.orders <==> 1 <= o <= CountHeads(heads, Order))
    && forall o | o in t.orders :: t.orders[o] == KitsOfOrder(heads, o)
  }

  lemma {:induction false} LaterOrderHasNoKits(heads: seq<Option<Section>>, o: int)
    requires o > CountHeads(heads, Order)
    ensures KitsOfOrder(heads, o) == 0
  {
    if heads != [] { LaterOrderHasNoKits(heads[..|heads| - 1], o); }
  }

  lemma KitsOfOrderStep(heads: seq<Option<Section>>, h: Option<Section>, o: int)
    ensures KitsOfOrder(heads + [h], o) ==
            KitsOfOrder(heads, o) + if h == Some(Kit) && CountHeads(heads, Order) == o then 1 else 0
  {
    assert (heads + [h])[..|heads|] == heads;
  }

  lemma EnterOrdersTraced(s: State, section: Section, heads: seq<Option<Section>>)
    requires Good(s) && Traced(s, heads) && OrdersTraced(s.t, heads)
    ensures OrdersTraced(Enter(s, section).t, heads + [Some(section)])
  {
    var t' := Enter(s, section).t;
    CountStep(heads, Some(section), Order);
    LaterOrderHasNoKits(heads, CountHeads(heads, Order) + 1);
    forall o | o in t'.orders ensures t'.orders[o] == KitsOfOrder(heads + [Some(section)], o) {
      KitsOfOrderStep(heads, Some(section), o);
    }
  }

  lemma OtherOrdersTraced(t: Tables, t': Tables, heads: seq<Option<Section>>)
    requires OrdersTraced(t, heads) && t'.orders == t.orders
    ensures OrdersTraced(t', heads + [None])
  {
    CountStep(heads, None, Order);
    forall o | o in t'.orders ensures t'.orders[o] == KitsOfOrder(heads + [None], o) { KitsOfOrderStep(heads, None, o); }
  }

  /** One order per [ORDER] heading, numbered from 1, each with one kit per [KIT] heading below it. */
  lemma {:induction false} OrdersAreTheHeadings(lines: seq<string>)
    ensures OrdersTraced(ImportLines(lines).t, Headings(lines))
  {
    if lines == [] {
      assert Headings(lines) == [];
    } else {
      var init, last := lines[..|lines| - 1], lines[|lines| - 1];
      var s := ImportLines(init);
      OrdersAreTheHeadings(init);
      ImportGood(init);
      ImportTraced(init);
      assert lines == init + [last];
      HeadingsAppend(init, last);
      if Heading(last).Some? {
        StepAtHeading(s, last);
        EnterOrdersTraced(s, Heading(last).value, Headings(init));
      } else {
        StepElsewhere(s, last);
        OtherOrdersTraced(s.t, Step(s, last).t, Headings(init));
      }
    }
  }

  // ---------------------------------------------------------------------------------------
  // The groups table is the placed item lines in file order
  // ---------------------------------------------------------------------------------------

  lemma PlacedInPrefix(lines: seq<string>, line: string, i: nat)
    requires i < |lines|
    ensures Placed(lines + [line], i) <==> Placed(lines, i)
    ensures (lines + [line])[..i] == lines[..i] && (lines + [line])[i] == lines[i]
  {}

  lemma PlacedStep(lines: seq<string>, line: string)
    ensures (lines + [line])[..|lines|] == lines
    ensures Placed(lines + [line], |lines|) <==> IsItem(SectionAfter(lines), line) && OpenKit(lines).Some?
    ensures PlacedLines(lines + [line]) == PlacedLines(lines) + if Placed(lines + [line], |lines|) then [|lines|] else []
    ensures forall p :: CountPlaced(lines + [line], p) ==
                        CountPlaced(lines, p) + if Placed(lines + [line], |lines|) && OpenKit(lines) == Some(p) then 1 else 0
  {
    assert (lines + [line])[..|lines|] == lines;
  }

  lemma {:induction false} PlacedLinesAscend(lines: seq<string>)
    ensures forall a | 0 <= a < |PlacedLines(lines)| :: PlacedLines(lines)[a] < |lines|
    ensures forall a, b | 0 <= a < b < |PlacedLines(lines)| :: PlacedLines(lines)[a] < PlacedLines(lines)[b]
  {
    if lines != [] { PlacedLinesAscend(lines[..|lines| - 1]); }
  }

  lemma {:induction false} PlacedLinesAll(lines: seq<string>, i: nat)
    requires i < |lines|
    ensures i in PlacedLines(lines) <==> Placed(lines, i)
  {
    var n := |lines| - 1;
    PlacedLinesAscend(lines[..n]);
    assert lines == lines[..n] + [lines[n]];
    if i < n {
      PlacedLinesAll(lines[..n], i);
      PlacedInPrefix(lines[..n], lines[n], i);
    }
  }

  /** What a line does to the groups: one more row if it is an item line below an open kit. */
  ghost predicate GroupsStep(s: State, line: string, s': State) {
    if IsItem(s.section, line) && s.kit.Some? && s.order.Some? then
      && (s.order.value, s.kit.value) in KitKeys(s.t.kits)
      && var i := KitAt(s.t, s.order.value, s.kit.value);
      && |s'.t.groups| == |s.t.groups| + 1 && s'.t.groups[..|s.t.groups|] == s.t.groups
      && var g := s'.t.groups[|s.t.groups|];
      && g == ItemRow(line, GroupKey(s.order.value, s.kit.value, s.t.kits[i].groupCount), g.classId)
      && g.classId in s'.t.classes && s'.t.classes[g.classId].description == ClassName(ItemName(line))
      && s'.t.kits == s.t.kits[i := s.t.kits[i].(groupCount := s.t.kits[i].groupCount + 1)]
    else s'.t.groups == s.t.groups
  }

  ghost predicate NamesKept(t: Tables, t': Tables) {
    forall c | c in t.classes :: c in t'.classes && t'.classes[c].description == t.classes[c].description
  }

  lemma ItemLineGroups(s: State, line: string)
    requires Good(s) && IsItem(s.section, line)
    ensures GroupsStep(s, line, s.(t := ItemLine(s, line))) && NamesKept(s.t, ItemLine(s, line))
    ensures s.kit.None? ==> ItemLine(s, line).kits == s.t.kits
  {
    var c, t2 := ClassFor(s.t, ClassName(ItemName(line))), ItemCatalogued(s, line);
    ItemCataloguedGood(s, line);
    assert NamesKept(s.t, t2) by { EnsureClassGood(s.t, ClassName(ItemName(line))); }
    if s.kit.Some? {
      var row := ItemRow(line, GroupKey(s.order.value, s.kit.value, 0), c);
      assert (s.order.value, s.kit.value) in KitKeys(s.t.kits) by { OpenKitExists(s); }
      assert ItemLine(s, line) == InsertGroup(t2, s.order.value, s.kit.value, row);
      InsertGroupIsOneRow(t2, s.order.value, s.kit.value, row);
      SameKitAt(s.t, t2, s.order.value, s.kit.value);
    } else {
      assert ItemLine(s, line) == t2;
    }
  }

  lemma SameKitAt(t: Tables, t': Tables, order: int, kit: int)
    requires t.kits == t'.kits && UniqueKits(t.kits) && (order, kit) in KitKeys(t.kits)
    ensures KitAt(t, order, kit) == KitAt(t', order, kit)
  {
    OnlyKitPosition(t.kits, KitAt(t, order, kit), order, kit);
  }

  lemma StepGroups(s: State, line: string)
    requires Good(s)
    ensures GroupsStep(s, line, Step(s, line)) && NamesKept(s.t, Step(s, line).t)
    ensures Heading(line).None? && !(IsItem(s.section, line) && s.kit.Some?) ==> Step(s, line).t.kits == s.t.kits
  {
    if IsItem(s.section, line) {
      ItemLineGroups(s, line);
    } else if !IsComment(line) && !InBracket(line) && ActsAsInventory(s.section) && |Fields(line)| == 2 {
      EnsureClassGood(s.t, ClassName(Fields(line)[0]));
    }
  }

  /** The first |idx| groups are the rows of the given lines. */
  ghost predicate RowsAt(t: Tables, lines: seq<string>, idx: seq<nat>) {
    && |t.groups| >= |idx|
    && forall k | 0 <= k < |idx| :: Placed(lines, idx[k]) && IsRowOf(lines, idx[k], t, t.groups[k])
  }

  /** The groups table is the placed lines, one row each, in file order. */
  ghost predicate RowsTraced(t: Tables, lines: seq<string>) {
    |t.groups| == |PlacedLines(lines)| && RowsAt(t, lines, PlacedLines(lines))
  }

  lemma RowKept(lines: seq<string>, line: string, i: nat, t: Tables, t': Tables, g: GroupRow)
    requires Placed(lines, i) && IsRowOf(lines, i, t, g) && NamesKept(t, t')
    ensures Placed(lines + [line], i) && IsRowOf(lines + [line], i, t', g)
  {
    PlacedInPrefix(lines, line, i);
  }

  lemma CountedNewKit(t: Tables, t': Tables, lines: seq<string>, all: seq<string>, k: KitRow)
    requires Counted(t, lines) && t'.kits == t.kits + [k]
    requires k.groupCount == 0 && (k.order, k.id) !in KitKeys(t.kits)
    requires forall p :: CountPlaced(all, p) == CountPlaced(lines, p)
    ensures Counted(t', all)
  {
    KitKeysAppend(t.kits, k);
  }

  lemma CountedPlaced(t: Tables, t': Tables, lines: seq<string>, all: seq<string>, i: nat)
    requires Counted(t, lines) && UniqueKits(t.kits) && i < |t.kits|
    requires t'.kits == t.kits[i := t.kits[i].(groupCount := t.kits[i].groupCount + 1)]
    requires forall p :: CountPlaced(all, p) ==
                         CountPlaced(lines, p) + if p == (t.kits[i].order, t.kits[i].id) then 1 else 0
    ensures Counted(t', all)
  {
    OnlyKitPosition(t.kits, i, t.kits[i].order, t.kits[i].id);
    SameKitKeys(t.kits, t'.kits);
    KitPosition(t.kits, (t.kits[i].order, t.kits[i].id));
  }

  /** The kits count up by an item placed in one of them, or gain at most an empty kit with a new key. */
  ghost predicate KitsEffect(t: Tables, t': Tables, placed: Option<(int, int)>) {
    match placed
    case Some(p) =>
      exists i: nat :: i < |t.kits| && (t.kits[i].order, t.kits[i].id) == p &&
                       t'.kits == t.kits[i := t.kits[i].(groupCount := t.kits[i].groupCount + 1)]
    case None =>
      t'.kits == t.kits ||
      exists k: KitRow :: t'.kits == t.kits + [k] && k.groupCount == 0 && (k.order, k.id) !in KitKeys(t.kits)
  }

  /** The order and kit that the loop stands in. */
  function CursorKit(s: State): Option<(int, int)> {
    if s.order.Some? && s.kit.Some? then Some((s.order.value, s.kit.value)) else None
  }

  lemma EnterKits(s: State, section: Section)
    requires Good(s)
    ensures KitsEffect(s.t, Enter(s, section).t, None)
  {
    if section.Kit? && s.order.Some? {
      var k := KitRow(s.order.value, s.t.orders[s.order.value], 0, 0);
      assert Enter(s, section).t.kits == s.t.kits + [k];
    }
  }

  lemma StepKits(s: State, line: string)
    requires Good(s)
    ensures KitsEffect(s.t, Step(s, line).t, if IsItem(s.section, line) then CursorKit(s) else None)
  {
    if Heading(line).Some? {
      StepAtHeading(s, line);
      EnterKits(s, Heading(line).value);
    } else {
      StepGroups(s, line);
      if IsItem(s.section, line) && s.kit.Some? { OpenKitExists(s); }
    }
  }

  lemma CountedEffect(t: Tables, t': Tables, lines: seq<string>, all: seq<string>, placed: Option<(int, int)>)
    requires Counted(t, lines) && UniqueKits(t.kits) && KitsEffect(t, t', placed)
    requires forall p :: CountPlaced(all, p) == CountPlaced(lines, p) + if placed == Some(p) then 1 else 0
    ensures Counted(t', all)
  {
    if placed.Some? {
      var i: nat :| i < |t.kits| && (t.kits[i].order, t.kits[i].id) == placed.value &&
                    t'.kits == t.kits[i := t.kits[i].(groupCount := t.kits[i].groupCount + 1)];
      CountedPlaced(t, t', lines, all, i);
    } else if t'.kits != t.kits {
      var k: KitRow :| t'.kits == t.kits + [k] && k.groupCount == 0 && (k.order, k.id) !in KitKeys(t.kits);
      CountedNewKit(t, t', lines, all, k);
    }
  }

  lemma TracedCursor(s: State, lines: seq<string>)
    requires Good(s) && Traced(s, Headings(lines))
    ensures s.section == SectionAfter(lines) && CursorKit(s) == OpenKit(lines) && UniqueKits(s.t.kits)
  {}

  lemma CountedStep(s: State, lines: seq<string>, line: string)
    requires Good(s) && Traced(s, Headings(lines)) && Counted(s.t, lines)
    ensures Counted(Step(s, line).t, lines + [line])
  {
    var placed := if IsItem(s.section, line) then CursorKit(s) else None;
    TracedCursor(s, lines);
    StepKits(s, line);
    PlacedStep(lines, line);
    CountedEffect(s.t, Step(s, line).t, lines, lines + [line], placed);
  }

  /** Before a line: the tables are well formed, and the loop has what the text says. */
  lemma SectionOfImport(lines: seq<string>)
    ensures Good(ImportLines(lines)) && ImportLines(lines).section == SectionAfter(lines)
  {
    ImportGood(lines);
    ImportTraced(lines);
  }

  lemma {:induction false} ImportStep(lines: seq<string>)
    requires lines != []
    ensures ImportLines(lines) == Step(ImportLines(lines[..|lines| - 1]), lines[|lines| - 1])
    ensures lines == lines[..|lines| - 1] + [lines[|lines| - 1]]
  {}

  lemma {:induction false} ImportCounted(lines: seq<string>)
    ensures Counted(ImportLines(lines).t, lines)
  {
    if lines != [] {
      var init, last := lines[..|lines| - 1], lines[|lines| - 1];
      ImportCounted(init);
      ImportGood(init);
      ImportTraced(init);
      ImportStep(lines);
      CountedStep(ImportLines(init), init, last);
    }
  }

  lemma NewRowTraced(s: State, lines: seq<string>, line: string)
    requires Good(s) && Traced(s, Headings(lines)) && Counted(s.t, lines)
    requires Placed(lines + [line], |lines|)
    ensures |Step(s, line).t.groups| == |s.t.groups| + 1
    ensures IsRowOf(lines + [line], |lines|, Step(s, line).t, Step(s, line).t.groups[|s.t.groups|])
  {
    PlacedStep(lines, line);
    StepGroups(s, line);
    var i := KitAt(s.t, s.order.value, s.kit.value);
    assert OpenKit(lines) == Some((s.t.kits[i].order, s.t.kits[i].id));
  }

  lemma OldRowsTraced(t: Tables, t': Tables, lines: seq<string>, line: string, idx: seq<nat>)
    requires RowsAt(t, lines, idx) && NamesKept(t, t') && |t'.groups| >= |t.groups|
    requires forall k | 0 <= k < |t.groups| :: t'.groups[k] == t.groups[k]
    ensures RowsAt(t', lines + [line], idx)
  {
    forall k | 0 <= k < |idx|
      ensures Placed(lines + [line], idx[k]) && IsRowOf(lines + [line], idx[k], t', t'.groups[k])
    {
      RowKept(lines, line, idx[k], t, t', t.groups[k]);
    }
  }

  lemma OneMoreRow(t: Tables, lines: seq<string>, idx: seq<nat>, i: nat)
    requires RowsAt(t, lines, idx) && |t.groups| > |idx|
    requires Placed(lines, i) && IsRowOf(lines, i, t, t.groups[|idx|])
    ensures RowsAt(t, lines, idx + [i])
  {}

  lemma GroupsPrefix(s: State, line: string)
    requires Good(s)
    ensures NamesKept(s.t, Step(s, line).t) && |Step(s, line).t.groups| >= |s.t.groups|
    ensures forall k | 0 <= k < |s.t.groups| :: Step(s, line).t.groups[k] == s.t.groups[k]
    ensures !(IsItem(s.section, line) && s.kit.Some?) ==> |Step(s, line).t.groups| == |s.t.groups|
  {
    StepGroups(s, line);
    var g' := Step(s, line).t.groups;
    if g' != s.t.groups {
      assert forall k | 0 <= k < |s.t.groups| :: g'[..|s.t.groups|][k] == g'[k];
    }
  }

  lemma RowsTracedStep(s: State, lines: seq<string>, line: string)
    requires Good(s) && Traced(s, Headings(lines)) && Counted(s.t, lines) && RowsTraced(s.t, lines)
    ensures RowsTraced(Step(s, line).t, lines + [line])
  {
    var t', idx := Step(s, line).t, PlacedLines(lines);
    PlacedStep(lines, line);
    GroupsPrefix(s, line);
    OldRowsTraced(s.t, t', lines, line, idx);
    if Placed(lines + [line], |lines|) {
      NewRowTraced(s, lines, line);
      OneMoreRow(t', lines + [line], idx, |lines|);
    }
  }

  /** The groups table is exactly the placed item lines, in file order. */
  lemma {:induction false} GroupsAreTheItems(lines: seq<string>)
    ensures RowsTraced(ImportLines(lines).t, lines)
  {
    if lines != [] {
      var init, last := lines[..|lines| - 1], lines[|lines| - 1];
      GroupsAreTheItems(init);
      ImportGood(init);
      ImportTraced(init);
      ImportCounted(init);
      ImportStep(lines);
      RowsTracedStep(ImportLines(init), init, last);
    }
  }

  // ---------------------------------------------------------------------------------------
  // Order of the keys, names and tags of the rows
  // ---------------------------------------------------------------------------------------

  predicate KeyLess(a: GroupKey, b: GroupKey) {
    a.order < b.order || (a.order == b.order && (a.kit < b.kit || (a.kit == b.kit && a.id < b.id)))
  }

  ghost predicate KeysAscend(groups: seq<GroupRow>) {
    forall a, b | 0 <= a < b < |groups| :: KeyLess(groups[a].key, groups[b].key)
  }

  /** The next free key of the open kit, the last kit of the last order, lies above all keys in use. */
  lemma NextKeyIsGreatest(s: State, i: nat)
    requires Good(s) && s.kit.Some? && i < |s.t.groups|
    requires (s.order.value, s.kit.value) in KitKeys(s.t.kits)
    ensures var k := s.t.kits[KitAt(s.t, s.order.value, s.kit.value)];
            KeyLess(s.t.groups[i].key, GroupKey(s.order.value, s.kit.value, k.groupCount))
  {
    var key := s.t.groups[i].key;
    KeyPosition(s.t.groups, key);
    assert (key.order, key.kit) in KitKeys(s.t.kits);
    assert key.order in s.t.orders;
  }

  lemma KeysAscendStep(s: State, line: string)
    requires Good(s) && KeysAscend(s.t.groups)
    ensures KeysAscend(Step(s, line).t.groups)
  {
    GroupsPrefix(s, line);
    if IsItem(s.section, line) && s.kit.Some? {
      StepGroups(s, line);
      forall i | 0 <= i < |s.t.groups|
        ensures KeyLess(s.t.groups[i].key, Step(s, line).t.groups[|s.t.groups|].key)
      {
        NextKeyIsGreatest(s, i);
      }
    }
  }

  /** Along the file, group keys strictly increase; so the table is sorted by (order, kit, id). */
  lemma {:induction false} KeysAscendAlongTheFile(lines: seq<string>)
    ensures KeysAscend(ImportLines(lines).t.groups)
  {
    if lines != [] {
      var init, last := lines[..|lines| - 1], lines[|lines| - 1];
      KeysAscendAlongTheFile(init);
      ImportGood(init);
      ImportStep(lines);
      KeysAscendStep(ImportLines(init), last);
    }
  }

  /** The name looked up for an item is the text after the fourth comma, commas included, less one character. */
  lemma ItemNameIsTheRest(line: string)
    requires |Split(line, ',')| >= 5
    ensures var rest := After(line, ',', 4); ItemName(line) == if rest == "" then "" else rest[..|rest| - 1]
  {
    JoinTail(line, ',', 4);
  }

  /** Every group has the numbers, the tag, the flag and the class of its line, in the kit opened last above it. */
  lemma RowFields(lines: seq<string>, k: nat)
    requires k < |PlacedLines(lines)|
    ensures PlacedLines(lines)[k] < |lines| && k < |ImportLines(lines).t.groups|
    ensures var i, t := PlacedLines(lines)[k], ImportLines(lines).t;
            var g, f, rest := t.groups[k], Split(lines[i], ','), After(lines[i], ',', 4);
            && |f| >= 5
            && g.target == IntVal(f[0]) && g.count == IntVal(f[1])
            && g.tag == (if f[2] == "" then None else Some(f[2]))
            && (g.archived <==> f[3] != "f" && f[3] != "")
            && g.classId in t.classes
            && t.classes[g.classId].description == ClassName(if rest == "" then "" else rest[..|rest| - 1])
            && OpenKit(lines[..i]) == Some((g.key.order, g.key.kit))
            && g.key.id == CountPlaced(lines[..i], (g.key.order, g.key.kit))
  {
    var i, t := PlacedLines(lines)[k], ImportLines(lines).t;
    GroupsAreTheItems(lines);
    assert Placed(lines, i) && IsRowOf(lines, i, t, t.groups[k]);
    ItemRowFields(lines[i], t.groups[k].key, t.groups[k].classId);
    ItemNameIsTheRest(lines[i]);
  }

  /** The tag field of an item line. */
  function TagField(line: string): string {
    if |Fields(line)| >= 5 then Fields(line)[2] else ""
  }

  lemma RowTags(lines: seq<string>, k: nat)
    requires k < |PlacedLines(lines)|
    ensures PlacedLines(lines)[k] < |lines| && k < |ImportLines(lines).t.groups|
    ensures var g, field := ImportLines(lines).t.groups[k], TagField(lines[PlacedLines(lines)[k]]);
            (HasTag(g) <==> field != "") && (HasTag(g) ==> g.tag == Some(field))
  {
    GroupsAreTheItems(lines);
    var i := PlacedLines(lines)[k];
    assert Placed(lines, i) && IsRowOf(lines, i, ImportLines(lines).t, ImportLines(lines).t.groups[k]);
  }

  /**
   * An import does not check that tags are used once: its real tags are pairwise distinct exactly if no
   * two placed item lines give the same non-empty tag.
   */
  lemma ImportedTagsDistinct(lines: seq<string>)
    ensures forall k | 0 <= k < |PlacedLines(lines)| :: PlacedLines(lines)[k] < |lines|
    ensures var idx := PlacedLines(lines);
            DistinctTags(ImportLines(lines).t.groups) <==>
            forall a, b | 0 <= a < b < |idx| ::
              TagField(lines[idx[a]]) == "" || TagField(lines[idx[a]]) != TagField(lines[idx[b]])
  {
    var idx := PlacedLines(lines);
    GroupsAreTheItems(lines);
    forall k | 0 <= k < |idx|
      ensures idx[k] < |lines|
      ensures var g := ImportLines(lines).t.groups[k];
              (HasTag(g) <==> TagField(lines[idx[k]]) != "") && (HasTag(g) ==> g.tag == Some(TagField(lines[idx[k]])))
    {
      RowTags(lines, k);
    }
  }
}
