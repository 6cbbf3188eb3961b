/** A text whose import gives two groups the same tag. */
module ImportWitness {
  import opened Wrappers
  import opened Tables
  import opened Invariants
  import opened Text
  import opened Importing
  import opened ImportMeaning

  const FIELDS: seq<string> := ["5", "1", "T", "f", "bolt\r"]

  /** 5,1,T,f,bolt */
  const ITEM: string := Join(FIELDS, ',')

  function Header(name: string): string {
    "[" + name + "]\r"
  }

  const LINES: seq<string> := [Header("ORDER"), Header("KIT"), Header("ITEMS"), ITEM, ITEM]

  lemma HeadingOf(name: string)
    requires forall c | c in name :: IsAlnum(c)
    ensures Heading(Header(name)) == Some(SectionOf(name))
  {
    assert "[" + name + "]" <= Header(name);
    HeaderNameMatches(Header(name), name);
  }

  lemma ItemFields()
    ensures Fields(ITEM) == FIELDS && ITEM != "" && ITEM[0] == '5'
  {
    SplitJoin(FIELDS, ',');
    assert Join(FIELDS, ',') == "5" + [','] + Join(FIELDS[1..], ',');
  }

  lemma ItemIsItem()
    ensures Heading(ITEM).None? && IsItem(Items, ITEM) && TagField(ITEM) == "T"
  {
    ItemFields();
  }

  lemma OrderHeading()
    ensures Heading(Header("ORDER")) == Some(Order)
  {
    HeadingOf("ORDER");
  }

  lemma KitHeading()
    ensures Heading(Header("KIT")) == Some(Kit)
  {
    HeadingOf("KIT");
  }

  lemma ItemsHeading()
    ensures Heading(Header("ITEMS")) == Some(Items)
  {
    HeadingOf("ITEMS");
  }

  lemma LineHeadings()
    ensures Heading(LINES[0]) == Some(Order) && Heading(LINES[1]) == Some(Kit) && Heading(LINES[2]) == Some(Items)
  {
    OrderHeading();
    KitHeading();
    ItemsHeading();
  }

  lemma HeadingsOf(a: string, b: string, c: string, d: string)
    ensures Headings([a, b, c]) == [Heading(a), Heading(b), Heading(c)]
    ensures Headings([a, b, c, d]) == [Heading(a), Heading(b), Heading(c)] + [Heading(d)]
  {}

  lemma TextHeadings()
    ensures Headings(LINES[..3]) == [Some(Order), Some(Kit), Some(Items)]
    ensures Headings(LINES[..4]) == [Some(Order), Some(Kit), Some(Items)] + [None]
  {
    LineHeadings();
    assert Heading(ITEM) == None by { ItemIsItem(); }
    HeadingsOf(LINES[0], LINES[1], LINES[2], ITEM);
    assert LINES[..3] == [LINES[0], LINES[1], LINES[2]] && LINES[..4] == [LINES[0], LINES[1], LINES[2], ITEM];
  }

  /** Below the three headings the section is ITEMS and a kit is open, and an item line changes neither. */
  lemma OpenBelowHeadings()
    ensures var h := [Some(Order), Some(Kit), Some(Items)];
            && SectionUnder(h) == Items && KitUnder(h).Some?
            && SectionUnder(h + [None]) == Items && KitUnder(h + [None]).Some?
  {
    var h1, h2 := [Some(Order)], [Some(Order), Some(Kit)];
    var h3 := [Some(Order), Some(Kit), Some(Items)];
    assert [] + [Some(Order)] == h1 && h1 + [Some(Kit)] == h2 && h2 + [Some(Items)] == h3;
    CountStep([], Some(Order), Order);
    KitsStep([], Some(Order));
    CountStep(h1, Some(Kit), Order);
    KitsStep(h1, Some(Kit));
    CountStep(h2, Some(Items), Order);
    KitsStep(h2, Some(Items));
    SectionStep(h2, Some(Items));
    CountStep(h3, None, Order);
    KitsStep(h3, None);
    SectionStep(h3, None);
  }

  lemma BothPlaced()
    ensures Placed(LINES, 3) && Placed(LINES, 4)
  {
    TextHeadings();
    OpenBelowHeadings();
    ItemIsItem();
  }

  /** Two item lines with the tag T: the import puts it on both groups. */
  lemma ImportDuplicatesTag() returns (code: string)
    ensures !DistinctTags(Import(code).groups)
  {
    code := Join(LINES, '\n');
    LinesAreClean();
    SplitJoin(LINES, '\n');
    BothPlaced();
    ItemIsItem();
    SameTagTwice(LINES, 3, 4);
  }

  lemma LinesAreClean()
    ensures forall line | line in LINES :: '\n' !in line
  {
    assert '\n' !in ITEM;
  }

  lemma SameTagTwice(lines: seq<string>, i: nat, j: nat)
    requires i < j && Placed(lines, i) && Placed(lines, j)
    requires TagField(lines[i]) != "" && TagField(lines[i]) == TagField(lines[j])
    ensures !DistinctTags(ImportLines(lines).t.groups)
  {
    var idx := PlacedLines(lines);
    assert exists a :: 0 <= a < |idx| && idx[a] == i by { PlacedLinesAll(lines, i); }
    assert exists b :: 0 <= b < |idx| && idx[b] == j by { PlacedLinesAll(lines, j); }
    var a :| 0 <= a < |idx| && idx[a] == i;
    var b :| 0 <= b < |idx| && idx[b] == j;
    RowTags(lines, a);
    RowTags(lines, b);
    PositionsCollide(ImportLines(lines).t.groups, a, b);
  }

  lemma PositionsCollide(groups: seq<GroupRow>, a: int, b: int)
    requires 0 <= a < |groups| && 0 <= b < |groups| && a != b
    requires HasTag(groups[a]) && HasTag(groups[b]) && groups[a].tag == groups[b].tag
    ensures !DistinctTags(groups)
  {
    assert if a < b then groups[a].tag == groups[b].tag else groups[b].tag == groups[a].tag;
  }
}
