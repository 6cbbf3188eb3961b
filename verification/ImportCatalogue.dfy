/** Which classes and tags an import creates, and what inventory each class ends with. */
module ImportCatalogue {
  import opened Wrappers
  import opened Tables
  import opened Invariants
  import opened Text
  import opened Importing
  import opened ImportMeaning

  /** The class name that a line under the section looks up or creates, if it does. */
  function NameIn(section: Section, line: string): Option<string> {
    if IsInventory(section, line) then Some(ClassName(Fields(line)[0]))
    else if IsItem(section, line) then Some(ClassName(ItemName(line)))
    else None
  }

  /** Line i is an inventory line naming the class. */
  predicate StocksName(lines: seq<string>, i: nat, name: string) {
    i < |lines| && IsInventory(SectionAfter(lines[..i]), lines[i]) && ClassName(Fields(lines[i])[0]) == name
  }

  /** The inventory that the text gives the class, searched from the end. */
  function StatedInventory(lines: seq<string>, name: string): int {
    if lines == [] then DEFAULT_INVENTORY
    else
      var n := |lines| - 1;
      if StocksName(lines, n, name) then IntVal(Fields(lines[n])[1]) else StatedInventory(lines[..n], name)
  }

  /** Some line names the class. */
  ghost predicate Named(lines: seq<string>, name: string) {
    exists i: nat :: i < |lines| && NameIn(SectionAfter(lines[..i]), lines[i]) == Some(name)
  }

  ghost predicate DeclaresTag(section: Section, line: string, tag: string) {
    || (IsBody(line) && section == Tags && line[..|line| - 1] == tag)
    || (IsItem(section, line) && Fields(line)[2] == tag && tag != "")
  }

  ghost predicate Declared(lines: seq<string>, tag: string) {
    exists i: nat :: i < |lines| && DeclaresTag(SectionAfter(lines[..i]), lines[i], tag)
  }

  // ---------------------------------------------------------------------------------------

  lemma StatedStep(lines: seq<string>, line: string, name: string)
    ensures StatedInventory(lines + [line], name) ==
            if IsInventory(SectionAfter(lines), line) && ClassName(Fields(line)[0]) == name
            then IntVal(Fields(line)[1]) else StatedInventory(lines, name)
  {
    assert (lines + [line])[..|lines|] == lines;
  }

  lemma StocksInPrefix(lines: seq<string>, n: nat, i: nat, name: string)
    requires i < n <= |lines|
    ensures StocksName(lines[..n], i, name) == StocksName(lines, i, name)
  {
    assert lines[..n][..i] == lines[..i];
  }

  /** Lines that do not stock the class leave its stated inventory alone. */
  lemma {:induction false} LaterLinesKeep(lines: seq<string>, i: nat, name: string)
    requires i <= |lines|
    requires forall j: nat | i <= j < |lines| :: !StocksName(lines, j, name)
    ensures StatedInventory(lines, name) == StatedInventory(lines[..i], name)
  {
    if i == |lines| {
      assert lines[..i] == lines;
    } else {
      var n := |lines| - 1;
      forall j: nat | i <= j < n ensures !StocksName(lines[..n], j, name) { StocksInPrefix(lines, n, j, name); }
      LaterLinesKeep(lines[..n], i, name);
      assert lines[..n][..i] == lines[..i];
    }
  }

  /** The stated inventory is that of the last two-field inventory line naming the class. */
  lemma LastLineStates(lines: seq<string>, i: nat, name: string)
    requires StocksName(lines, i, name)
    requires forall j: nat | i < j < |lines| :: !StocksName(lines, j, name)
    ensures StatedInventory(lines, name) == IntVal(Fields(lines[i])[1])
  {
    LaterLinesKeep(lines, i + 1, name);
    StocksInPrefix(lines, i + 1, i, name);
  }

  /** A class that no inventory line names has the inventory 0. */
  lemma NoLineStates(lines: seq<string>, name: string)
    requires forall j: nat | j < |lines| :: !StocksName(lines, j, name)
    ensures StatedInventory(lines, name) == 0
  {
    LaterLinesKeep(lines, 0, name);
  }

  lemma NamedStep(lines: seq<string>, line: string, name: string)
    ensures Named(lines + [line], name) <==> Named(lines, name) || NameIn(SectionAfter(lines), line) == Some(name)
  {
    var all := lines + [line];
    assert all[..|lines|] == lines && all[|lines|] == line;
    forall i: nat | i < |lines| ensures all[..i] == lines[..i] && all[i] == lines[i] {}
    if Named(lines, name) {
      var i: nat :| i < |lines| && NameIn(SectionAfter(lines[..i]), lines[i]) == Some(name);
      assert NameIn(SectionAfter(all[..i]), all[i]) == Some(name);
    }
    if Named(all, name) {
      var i: nat :| i < |all| && NameIn(SectionAfter(all[..i]), all[i]) == Some(name);
      if i < |lines| { assert NameIn(SectionAfter(lines[..i]), lines[i]) == Some(name); }
    }
  }

  lemma DeclaredStep(lines: seq<string>, line: string, tag: string)
    ensures Declared(lines + [line], tag) <==> Declared(lines, tag) || DeclaresTag(SectionAfter(lines), line, tag)
  {
    var all := lines + [line];
    assert all[..|lines|] == lines && all[|lines|] == line;
    forall i: nat | i < |lines| ensures all[..i] == lines[..i] && all[i] == lines[i] {}
    if Declared(lines, tag) {
      var i: nat :| i < |lines| && DeclaresTag(SectionAfter(lines[..i]), lines[i], tag);
      assert DeclaresTag(SectionAfter(all[..i]), all[i], tag);
    }
    if Declared(all, tag) {
      var i: nat :| i < |all| && DeclaresTag(SectionAfter(all[..i]), all[i], tag);
      if i < |lines| { assert DeclaresTag(SectionAfter(lines[..i]), lines[i], tag); }
    }
  }

  /** Classes and tags after one line. */
  lemma StepCatalogue(s: State, line: string, tag: string, name: string)
    requires Good(s)
    ensures tag in Step(s, line).t.tags <==> tag in s.t.tags || DeclaresTag(s.section, line, tag)
    ensures HasClass(Step(s, line).t, name) <==> HasClass(s.t, name) || NameIn(s.section, line) == Some(name)
  {
    if IsItem(s.section, line) {
      ItemCatalogue(s, line);
    } else if IsInventory(s.section, line) {
      InventoryCatalogue(s.t, line);
    } else if Heading(line).Some? {
      StepAtHeading(s, line);
    }
  }

  lemma EnsureClassNames(t: Tables, name: string)
    requires WellFormed(t)
    ensures forall n :: HasClass(EnsureClass(t, name), n) <==> HasClass(t, n) || n == name
  {
    EnsureClassGood(t, name);
    var t' := EnsureClass(t, name);
    forall n ensures HasClass(t', n) <==> HasClass(t, n) || n == name {
      if HasClass(t, n) {
        var c :| c in t.classes && t.classes[c].description == n;
        assert c in t'.classes && t'.classes[c].description == n;
      }
      if n == name { assert ClassFor(t, name) in t'.classes; }
      if HasClass(t', n) && n != name {
        var c :| c in t'.classes && t'.classes[c].description == n;
        assert c in t.classes && t.classes[c].description == n;
      }
    }
  }

  lemma SameNamesSameClasses(t: Tables, t': Tables)
    requires t'.classes.Keys == t.classes.Keys
    requires forall c | c in t.classes :: t'.classes[c].description == t.classes[c].description
    ensures forall n :: HasClass(t', n) <==> HasClass(t, n)
  {
    forall n ensures HasClass(t', n) <==> HasClass(t, n) {
      if HasClass(t, n) {
        var c :| c in t.classes && t.classes[c].description == n;
        assert c in t'.classes && t'.classes[c].description == n;
      }
      if HasClass(t', n) {
        var c :| c in t'.classes && t'.classes[c].description == n;
        assert c in t.classes && t.classes[c].description == n;
      }
    }
  }

  lemma ItemCatalogue(s: State, line: string)
    requires Good(s) && IsItem(s.section, line)
    ensures forall tag :: tag in Step(s, line).t.tags <==> tag in s.t.tags || DeclaresTag(s.section, line, tag)
    ensures forall name :: HasClass(Step(s, line).t, name) <==>
                           HasClass(s.t, name) || name == ClassName(ItemName(line))
    ensures Step(s, line).t.classes == EnsureClass(s.t, ClassName(ItemName(line))).classes
  {
    EnsureClassNames(s.t, ClassName(ItemName(line)));
    SameNamesSameClasses(EnsureClass(s.t, ClassName(ItemName(line))), Step(s, line).t);
  }

  lemma InventoryCatalogue(t: Tables, line: string)
    requires WellFormed(t) && |Fields(line)| == 2
    ensures InventoryLine(t, line).tags == t.tags
    ensures forall name :: HasClass(InventoryLine(t, line), name) <==> HasClass(t, name) || name == ClassName(Fields(line)[0])
  {
    EnsureClassNames(t, ClassName(Fields(line)[0]));
    SameNamesSameClasses(EnsureClass(t, ClassName(Fields(line)[0])), InventoryLine(t, line));
  }

  /** The tags table is exactly the declared tags. */
  lemma {:induction false} TagsAreTheDeclared(lines: seq<string>, tag: string)
    ensures tag in ImportLines(lines).t.tags <==> Declared(lines, tag)
  {
    if lines != [] {
      var init, last := lines[..|lines| - 1], lines[|lines| - 1];
      TagsAreTheDeclared(init, tag);
      SectionOfImport(init);
      ImportStep(lines);
      DeclaredStep(init, last, tag);
      StepCatalogue(ImportLines(init), last, tag, "");
    }
  }

  /** The classes are exactly the named ones. */
  lemma {:induction false} ClassesAreTheNamed(lines: seq<string>, name: string)
    ensures HasClass(ImportLines(lines).t, name) <==> Named(lines, name)
  {
    if lines != [] {
      var init, last := lines[..|lines| - 1], lines[|lines| - 1];
      ClassesAreTheNamed(init, name);
      SectionOfImport(init);
      ImportStep(lines);
      NamedStep(init, last, name);
      StepCatalogue(ImportLines(init), last, "", name);
    }
  }

  /** Find-or-create: one id per normalised name. */
  lemma OneIdPerName(t: Tables, name: string, c: int)
    requires WellFormed(t) && c in t.classes && t.classes[c].description == name
    ensures ClassFor(t, name) == c && EnsureClass(t, name) == t
  {}

  ghost predicate InventoriesStated(t: Tables, lines: seq<string>) {
    forall c | c in t.classes :: t.classes[c].inventory == StatedInventory(lines, t.classes[c].description)
  }

  lemma StockedIsNamed(lines: seq<string>, i: nat, name: string)
    requires StocksName(lines, i, name)
    ensures Named(lines, name)
  {
    assert NameIn(SectionAfter(lines[..i]), lines[i]) == Some(name);
  }

  lemma NotNamedNotStocked(lines: seq<string>, name: string)
    requires !Named(lines, name)
    ensures StatedInventory(lines, name) == 0
  {
    forall j: nat | j < |lines| ensures !StocksName(lines, j, name) {
      if StocksName(lines, j, name) { StockedIsNamed(lines, j, name); }
    }
    NoLineStates(lines, name);
  }

  lemma EnsureClassInventories(t: Tables, lines: seq<string>, name: string)
    requires WellFormed(t) && InventoriesStated(t, lines)
    requires HasClass(t, name) || !Named(lines, name)
    ensures InventoriesStated(EnsureClass(t, name), lines)
  {
    if !HasClass(t, name) { NotNamedNotStocked(lines, name); }
  }

  lemma ItemInventories(s: State, lines: seq<string>, line: string)
    requires Good(s) && s.section == SectionAfter(lines) && InventoriesStated(s.t, lines)
    requires IsItem(s.section, line)
    requires HasClass(s.t, ClassName(ItemName(line))) || !Named(lines, ClassName(ItemName(line)))
    ensures InventoriesStated(Step(s, line).t, lines + [line])
  {
    var t' := Step(s, line).t;
    ItemCatalogue(s, line);
    EnsureClassInventories(s.t, lines, ClassName(ItemName(line)));
    forall c | c in t'.classes ensures t'.classes[c].inventory == StatedInventory(lines + [line], t'.classes[c].description) {
      StatedStep(lines, line, t'.classes[c].description);
    }
  }

  lemma StockedInventories(s: State, lines: seq<string>, line: string)
    requires Good(s) && s.section == SectionAfter(lines) && InventoriesStated(s.t, lines)
    requires IsInventory(s.section, line)
    requires HasClass(s.t, ClassName(Fields(line)[0])) || !Named(lines, ClassName(Fields(line)[0]))
    ensures InventoriesStated(Step(s, line).t, lines + [line])
  {
    var t' := Step(s, line).t;
    var name := ClassName(Fields(line)[0]);
    EnsureClassInventories(s.t, lines, name);
    EnsureClassGood(s.t, name);
    var t1, own := EnsureClass(s.t, name), ClassFor(s.t, name);
    assert t' == SetInventory(t1, own, IntVal(Fields(line)[1]));
    forall c | c in t'.classes ensures t'.classes[c].inventory == StatedInventory(lines + [line], t'.classes[c].description) {
      StatedStep(lines, line, t'.classes[c].description);
      assert c != own ==> t1.classes[c].description != name;
    }
  }

  lemma OtherInventories(s: State, lines: seq<string>, line: string)
    requires Good(s) && s.section == SectionAfter(lines) && InventoriesStated(s.t, lines)
    requires !IsItem(s.section, line) && !IsInventory(s.section, line)
    ensures InventoriesStated(Step(s, line).t, lines + [line])
  {
    var t' := Step(s, line).t;
    assert t'.classes == s.t.classes by {
      if Heading(line).Some? { StepAtHeading(s, line); }
    }
    forall c | c in t'.classes ensures t'.classes[c].inventory == StatedInventory(lines + [line], t'.classes[c].description) {
      StatedStep(lines, line, t'.classes[c].description);
    }
  }

  /** A class ends with the inventory of the last two-field inventory line naming it, else the default. */
  lemma {:induction false} LastInventoryLineWins(lines: seq<string>)
    ensures InventoriesStated(ImportLines(lines).t, lines)
  {
    if lines != [] {
      var init, last := lines[..|lines| - 1], lines[|lines| - 1];
      var s := ImportLines(init);
      LastInventoryLineWins(init);
      ImportGood(init);
      ImportTraced(init);
      assert lines == init + [last];
      if IsItem(s.section, last) {
        ClassesAreTheNamed(init, ClassName(ItemName(last)));
        ItemInventories(s, init, last);
      } else if IsInventory(s.section, last) {
        ClassesAreTheNamed(init, ClassName(Fields(last)[0]));
        StockedInventories(s, init, last);
      } else {
        OtherInventories(s, init, last);
      }
    }
  }

  /** A name in brackets that is none of the six. */
  predicate IsUnknownHeader(line: string) {
    HeaderName(line).Some? && HeaderName(line).value !in {"INVENTORY", "TAGS", "ORDER", "KIT", "ITEMS", "USERS"}
  }

  lemma UnknownHeading(line: string)
    requires IsUnknownHeader(line)
    ensures Heading(line) == Some(Unknown)
  {}

  /** Below an unknown header a two-field line is an inventory line: the class it names gets its number. */
  lemma UnknownHeaderStocks(lines: seq<string>, header: string, line: string)
    requires IsUnknownHeader(header) && IsBody(line) && |Fields(line)| == 2
    ensures var t, name := ImportLines(lines + [header] + [line]).t, ClassName(Fields(line)[0]);
            && HasClass(t, name)
            && forall c | c in t.classes && t.classes[c].description == name :: t.classes[c].inventory == IntVal(Fields(line)[1])
  {
    var above := lines + [header];
    var all, name := above + [line], ClassName(Fields(line)[0]);
    assert SectionAfter(above) == Unknown by {
      UnknownHeading(header);
      HeadingsAppend(lines, header);
      SectionStep(Headings(lines), Some(Unknown));
    }
    assert StatedInventory(all, name) == IntVal(Fields(line)[1]) by { StatedStep(above, line, name); }
    assert Named(all, name) by { NamedStep(above, line, name); }
    ClassesAreTheNamed(all, name);
    LastInventoryLineWins(all);
  }
}
