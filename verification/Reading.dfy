/**
 * The importer's dispatch in terms of the text alone: which lines do what, spelled out by their characters
 * and by the names of the headers above them.
 */
module Reading {
  import opened Wrappers
  import opened Tables
  import opened Invariants
  import opened Text
  import opened Importing
  import opened ImportMeaning
  import opened ImportCatalogue

  /** The name of the last header line. */
  function LastHeader(lines: seq<string>): Option<string> {
    if lines == [] then None
    else
      var last := HeaderName(lines[|lines| - 1]);
      if last.Some? then last else LastHeader(lines[..|lines| - 1])
  }

  /** A line that is neither empty, nor a comment, nor in brackets. */
  predicate Plain(line: string) {
    line != "" && line[0] != '#' && line[0] != '['
  }

  /** Inventory lines stand below no header, below [INVENTORY], or below a header with any unknown name. */
  predicate Stocking(header: Option<string>) {
    header.None? || header.value !in {"TAGS", "ORDER", "KIT", "ITEMS", "USERS"}
  }

  // ---------------------------------------------------------------------------------------
  // Headers and sections
  // ---------------------------------------------------------------------------------------

  lemma SectionNames(name: string)
    ensures SectionOf(name) == Tags <==> name == "TAGS"
    ensures SectionOf(name) == Order <==> name == "ORDER"
    ensures SectionOf(name) == Kit <==> name == "KIT"
    ensures SectionOf(name) == Items <==> name == "ITEMS"
    ensures SectionOf(name) == Users <==> name == "USERS"
    ensures SectionOf(name) == Section.Inventory <==> name == "INVENTORY"
  {}

  lemma {:induction false} SectionIsLastHeader(lines: seq<string>)
    ensures SectionAfter(lines) ==
            if LastHeader(lines).None? then Section.Inventory else SectionOf(LastHeader(lines).value)
  {
    if lines == [] {
      assert Headings(lines) == [];
    } else {
      var init, last := lines[..|lines| - 1], lines[|lines| - 1];
      SectionIsLastHeader(init);
      assert lines == init + [last];
      HeadingsAppend(init, last);
      SectionStep(Headings(init), Heading(last));
    }
  }

  lemma StockingSections(lines: seq<string>)
    ensures ActsAsInventory(SectionAfter(lines)) <==> Stocking(LastHeader(lines))
    ensures SectionAfter(lines) == Tags <==> LastHeader(lines) == Some("TAGS")
    ensures SectionAfter(lines) == Items <==> LastHeader(lines) == Some("ITEMS")
  {
    SectionIsLastHeader(lines);
    if LastHeader(lines).Some? { SectionNames(LastHeader(lines).value); }
  }

  // ---------------------------------------------------------------------------------------
  // What the theorems about imports say of a line
  // ---------------------------------------------------------------------------------------

  /** An inventory line naming the class. */
  lemma StocksNameMeans(lines: seq<string>, i: nat, name: string)
    requires i < |lines|
    ensures StocksName(lines, i, name) <==>
            && Plain(lines[i]) && Stocking(LastHeader(lines[..i]))
            && |Split(lines[i], ',')| == 2 && ClassName(Split(lines[i], ',')[0]) == name
  {
    StockingSections(lines[..i]);
  }

  predicate ItemAt(lines: seq<string>, i: nat) {
    i < |lines| && Plain(lines[i]) && LastHeader(lines[..i]) == Some("ITEMS") && |Split(lines[i], ',')| >= 5
  }

  /** A line placed in a kit. */
  lemma PlacedMeans(lines: seq<string>, i: nat)
    ensures Placed(lines, i) <==> ItemAt(lines, i) && OpenKit(lines[..i]).Some?
  {
    if i < |lines| { StockingSections(lines[..i]); }
  }

  function NameText(line: string): string {
    var rest := After(line, ',', 4);
    if rest == "" then "" else rest[..|rest| - 1]
  }

  predicate NamesAt(lines: seq<string>, i: nat, name: string) {
    || (i < |lines| && Plain(lines[i]) && Stocking(LastHeader(lines[..i])) && |Split(lines[i], ',')| == 2
        && ClassName(Split(lines[i], ',')[0]) == name)
    || (ItemAt(lines, i) && ClassName(NameText(lines[i])) == name)
  }

  lemma NamesAtMeans(lines: seq<string>, i: nat, name: string)
    requires i < |lines|
    ensures NameIn(SectionAfter(lines[..i]), lines[i]) == Some(name) <==> NamesAt(lines, i, name)
  {
    StockingSections(lines[..i]);
    if |Split(lines[i], ',')| >= 5 { ItemNameIsTheRest(lines[i]); }
  }

  /** A class exists after an import exactly if an inventory line or an item line names it. */
  lemma ClassesMean(lines: seq<string>, name: string)
    ensures HasClass(ImportLines(lines).t, name) <==> exists i: nat :: NamesAt(lines, i, name)
  {
    ClassesAreTheNamed(lines, name);
    if Named(lines, name) {
      var i: nat :| i < |lines| && NameIn(SectionAfter(lines[..i]), lines[i]) == Some(name);
      NamesAtMeans(lines, i, name);
    }
    if i: nat :| NamesAt(lines, i, name) {
      NamesAtMeans(lines, i, name);
    }
  }

  predicate DeclaresAt(lines: seq<string>, i: nat, tag: string) {
    || (i < |lines| && Plain(lines[i]) && LastHeader(lines[..i]) == Some("TAGS") && lines[i][..|lines[i]| - 1] == tag)
    || (ItemAt(lines, i) && Split(lines[i], ',')[2] == tag && tag != "")
  }

  lemma DeclaresAtMeans(lines: seq<string>, i: nat, tag: string)
    requires i < |lines|
    ensures DeclaresTag(SectionAfter(lines[..i]), lines[i], tag) <==> DeclaresAt(lines, i, tag)
  {
    StockingSections(lines[..i]);
  }

  /** A tag exists after an import exactly if a TAGS line, less its last character, or an item line gives it. */
  lemma TagsMean(lines: seq<string>, tag: string)
    ensures tag in ImportLines(lines).t.tags <==> exists i: nat :: DeclaresAt(lines, i, tag)
  {
    TagsAreTheDeclared(lines, tag);
    if Declared(lines, tag) {
      var i: nat :| i < |lines| && DeclaresTag(SectionAfter(lines[..i]), lines[i], tag);
      DeclaresAtMeans(lines, i, tag);
    }
    if i: nat :| DeclaresAt(lines, i, tag) {
      DeclaresAtMeans(lines, i, tag);
    }
  }

  // ---------------------------------------------------------------------------------------
  // Orders and kits
  // ---------------------------------------------------------------------------------------

  function OrderHeaders(lines: seq<string>): nat {
    if lines == [] then 0
    else OrderHeaders(lines[..|lines| - 1]) + if HeaderName(lines[|lines| - 1]) == Some("ORDER") then 1 else 0
  }

  /** The [KIT] headers below the o-th [ORDER] header and above the next. */
  function KitHeaders(lines: seq<string>, o: int): nat {
    if lines == [] then 0
    else
      var init, last := lines[..|lines| - 1], lines[|lines| - 1];
      KitHeaders(init, o) + if HeaderName(last) == Some("KIT") && OrderHeaders(init) == o then 1 else 0
  }

  lemma HeadingNames(line: string)
    ensures Heading(line) == Some(Order) <==> HeaderName(line) == Some("ORDER")
    ensures Heading(line) == Some(Kit) <==> HeaderName(line) == Some("KIT")
  {
    if HeaderName(line).Some? { SectionNames(HeaderName(line).value); }
  }

  lemma {:induction false} HeadersCounted(lines: seq<string>, o: int)
    ensures CountHeads(Headings(lines), Order) == OrderHeaders(lines)
    ensures KitsOfOrder(Headings(lines), o) == KitHeaders(lines, o)
  {
    if lines == [] {
      assert Headings(lines) == [];
    } else {
      var init, last := lines[..|lines| - 1], lines[|lines| - 1];
      HeadersCounted(init, o);
      HeadingNames(last);
      assert lines == init + [last];
      HeadingsAppend(init, last);
      CountStep(Headings(init), Heading(last), Order);
      KitsOfOrderStep(Headings(init), Heading(last), o);
    }
  }

  /** Orders are numbered by their [ORDER] headers from 1, and have a kit for every [KIT] header of theirs. */
  lemma OrdersMean(lines: seq<string>, o: int)
    ensures o in ImportLines(lines).t.orders <==> 1 <= o <= OrderHeaders(lines)
    ensures o in ImportLines(lines).t.orders ==> ImportLines(lines).t.orders[o] == KitHeaders(lines, o)
  {
    OrdersAreTheHeadings(lines);
    HeadersCounted(lines, o);
  }

  /** The open kit is the last kit of the last order, if that has one. */
  lemma OpenKitMeans(lines: seq<string>)
    ensures var o := OrderHeaders(lines);
            OpenKit(lines) == if o > 0 && KitHeaders(lines, o) > 0 then Some((o, KitHeaders(lines, o) - 1)) else None
  {
    var o := OrderHeaders(lines);
    HeadersCounted(lines, o);
    ImportTraced(lines);
    OrdersMean(lines, o);
  }

  // ---------------------------------------------------------------------------------------
  // What one more line does
  // ---------------------------------------------------------------------------------------

  /** An import starts from empty tables, whatever was there; serial ids start at 1. */
  lemma NothingImported()
    ensures ImportLines([]).t == Tables(map[], 1, {}, map[], 1, [], [])
    ensures ImportLines([]).order.None? && ImportLines([]).kit.None?
  {}

  lemma OneMoreLine(lines: seq<string>, line: string)
    ensures ImportLines(lines + [line]) == Step(ImportLines(lines), line)
    ensures Good(ImportLines(lines)) && ImportLines(lines).section == SectionAfter(lines)
  {
    SectionOfImport(lines);
    ImportStep(lines + [line]);
    assert (lines + [line])[..|lines|] == lines;
  }

  lemma QuietSections(lines: seq<string>)
    requires LastHeader(lines).Some? && LastHeader(lines).value in {"ORDER", "KIT", "USERS"}
    ensures SectionAfter(lines) == Order || SectionAfter(lines) == Kit || SectionAfter(lines) == Users
  {
    SectionIsLastHeader(lines);
    SectionNames(LastHeader(lines).value);
  }

  /** The lines that do nothing, below the header. */
  predicate SaysNothing(header: Option<string>, line: string) {
    || line == "" || line[0] == '#'
    || (line[0] == '[' && HeaderName(line).None?)
    || (Plain(line) && header.Some? && header.value in {"ORDER", "KIT", "USERS"})
    || (Plain(line) && Stocking(header) && |Split(line, ',')| != 2)
    || (Plain(line) && header == Some("ITEMS") && |Split(line, ',')| < 5)
  }

  lemma QuietLine(lines: seq<string>, line: string)
    requires SaysNothing(LastHeader(lines), line)
    ensures ImportLines(lines + [line]) == ImportLines(lines)
  {
    OneMoreLine(lines, line);
    StockingSections(lines);
    if Plain(line) && LastHeader(lines).Some? && LastHeader(lines).value in {"ORDER", "KIT", "USERS"} {
      QuietSections(lines);
    }
  }

  /** Below [TAGS] a line adds its text, less its last character, to the tags, and changes nothing else. */
  lemma TagsLine(lines: seq<string>, line: string)
    requires Plain(line) && LastHeader(lines) == Some("TAGS")
    ensures var s := ImportLines(lines);
            ImportLines(lines + [line]) == s.(t := s.t.(tags := s.t.tags + {line[..|line| - 1]}))
  {
    OneMoreLine(lines, line);
    StockingSections(lines);
  }

  /** A two-field inventory line sets the inventory of the class it names, and changes nothing else. */
  lemma StockingLine(lines: seq<string>, line: string)
    requires Plain(line) && Stocking(LastHeader(lines)) && |Split(line, ',')| == 2
    ensures var s, s', f := ImportLines(lines), ImportLines(lines + [line]), Split(line, ',');
            && s' == s.(t := s.t.(classes := s'.t.classes, nextClass := s'.t.nextClass))
            && HasClass(s'.t, ClassName(f[0]))
            && (forall c | c in s.t.classes :: c in s'.t.classes && s'.t.classes[c].description == s.t.classes[c].description)
            && forall c | c in s'.t.classes ::
                 if s'.t.classes[c].description == ClassName(f[0]) then s'.t.classes[c].inventory == IntVal(f[1])
                 else c in s.t.classes && s'.t.classes[c] == s.t.classes[c]
  {
    var s, f := ImportLines(lines), Split(line, ',');
    OneMoreLine(lines, line);
    StockingSections(lines);
    EnsureClassGood(s.t, ClassName(f[0]));
    InventoryCatalogue(s.t, line);
  }

  /** [ORDER] opens an order without kits, and no kit. */
  lemma OrderHeader(lines: seq<string>, line: string)
    requires HeaderName(line) == Some("ORDER")
    ensures var s, s' := ImportLines(lines), ImportLines(lines + [line]);
            && s'.t == s.t.(orders := s.t.orders[s.t.nextOrder := 0], nextOrder := s.t.nextOrder + 1)
            && s'.order == Some(s.t.nextOrder) && s'.kit == None
  {
    OneMoreLine(lines, line);
    HeadingNames(line);
    StepAtHeading(ImportLines(lines), line);
  }

  lemma EnterKit(s: State)
    requires Good(s) && s.order.Some?
    ensures var o, s' := s.order.value, Enter(s, Kit);
            && o in s.t.orders
            && s'.t == s.t.(orders := s.t.orders[o := s.t.orders[o] + 1], kits := s.t.kits + [KitRow(o, s.t.orders[o], 0, 0)])
            && s'.order == s.order && s'.kit == Some(s.t.orders[o])
  {}

  /** [KIT] opens the next kit of the open order, with no groups and status 0; without an order it does nothing. */
  lemma KitHeader(lines: seq<string>, line: string)
    requires HeaderName(line) == Some("KIT")
    ensures var s, s' := ImportLines(lines), ImportLines(lines + [line]);
            if s.order.Some? then
              var o := s.order.value;
              && o in s.t.orders
              && s'.t == s.t.(orders := s.t.orders[o := s.t.orders[o] + 1], kits := s.t.kits + [KitRow(o, s.t.orders[o], 0, 0)])
              && s'.order == s.order && s'.kit == Some(s.t.orders[o])
            else s'.t == s.t && s'.order == None && s'.kit == s.kit
  {
    OneMoreLine(lines, line);
    HeadingNames(line);
    StepAtHeading(ImportLines(lines), line);
    if ImportLines(lines).order.Some? { EnterKit(ImportLines(lines)); }
  }

  /** Every other header leaves the tables, the open order and the open kit as they were. */
  lemma OtherHeader(lines: seq<string>, line: string)
    requires HeaderName(line).Some? && HeaderName(line).value != "ORDER" && HeaderName(line).value != "KIT"
    ensures var s, s' := ImportLines(lines), ImportLines(lines + [line]);
            s'.t == s.t && s'.order == s.order && s'.kit == s.kit
  {
    OneMoreLine(lines, line);
    SectionNames(HeaderName(line).value);
  }
}
