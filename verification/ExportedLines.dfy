/** The lines an export shows for a memory, written out. */
module ExportedLines {
  import opened Strings
  import opened Wrappers
  import opened MemoryMarkdown
  import opened MemoryExport
  import opened MemoryRoundTrip

  /** The first fifty characters. */
  predicate IsStart(start: string, content: string) {
    start <= content && (|start| == 50 || (|start| < 50 && start == content))
  }

  predicate IsInteger(s: string, i: int) {
    if i < 0 then s != "" && s[0] == '-' && IsNumeral(s[1..]) && NumeralValue(s[1..]) == -i
    else IsNumeral(s) && NumeralValue(s) == i
  }

  function TagLines(tags: seq<string>): seq<string> {
    if tags == [] then [] else ["- **Tags:** " + JoinWith(", ", tags)]
  }

  function ContextLines(context: Option<string>): seq<string> {
    if context == None || context == Some("") then [] else ["- **Context:** " + context.value]
  }

  /** The lines of one memory, with this excerpt and these numbers. */
  function Block(r: Row, excerpt: string, strength: string, count: string): seq<string> {
    var m := r.memory;
    ["## [" + CategoryName(m.category) + "] " + excerpt + " (" + TrustName(m.trust) + ")", "",
     "**Content:** " + m.content,
     "- **ID:** " + r.id,
     "- **Trust:** " + TrustName(m.trust),
     "- **Strength:** " + strength]
    + TagLines(m.tags) + ["- **Created:** " + r.created] + ContextLines(m.context)
    + ["- **Reinforced:** " + (count + if r.reinforcements == 1 then " time" else " times"), ""]
  }

  ghost predicate IsBlock(block: seq<string>, r: Row) {
    exists excerpt, strength, count ::
      && IsStart(excerpt, r.memory.content) && IsInteger(strength, r.memory.strength)
      && IsInteger(count, r.reinforcements) && block == Block(r, excerpt, strength, count)
  }

  // ----- lines of a joined text -----

  function LinesOf(text: string): seq<string> {
    SplitOn('\n', text)
  }

  function Flattened(items: seq<string>): seq<string> {
    if items == [] then [] else LinesOf(items[0]) + Flattened(items[1..])
  }

  lemma {:induction false} FlattenedConcat(a: seq<string>, b: seq<string>)
    ensures Flattened(a + b) == Flattened(a) + Flattened(b)
  {
    if a == [] {
      assert a + b == b;
    } else {
      assert (a + b)[1..] == a[1..] + b;
      FlattenedConcat(a[1..], b);
    }
  }

  lemma {:induction false} JoinedLines(items: seq<string>)
    requires items != []
    ensures LinesOf(JoinWith("\n", items)) == Flattened(items)
  {
    if |items| == 1 {
      assert items[1..] == [];
    } else {
      var rest := JoinWith("\n", items[1..]);
      SplitConcat('\n', items[0], rest);
      assert JoinWith("\n", items) == items[0] + ['\n'] + rest;
      JoinedLines(items[1..]);
    }
  }

  predicate OneLineItem(item: string) {
    '\n' !in item
  }

  lemma {:induction false} PlainItems(items: seq<string>)
    requires AllOneLine(items)
    ensures Flattened(items) == items
  {
    if items != [] {
      SplitWhole('\n', items[0]);
      PlainItems(items[1..]);
    }
  }

  // ----- the lines of one row -----

  lemma {:induction false} NumberIsInteger(i: int)
    ensures IsInteger(Number(i), i)
  {
    if i < 0 {
      DigitsRead(-i);
      assert ("-" + Digits(-i))[1..] == Digits(-i);
    } else {
      DigitsRead(i);
    }
  }

  lemma {:induction false} HeadingLines(heading: string)
    requires OneLineItem(heading)
    ensures Flattened([heading + "\n"]) == [heading, ""]
  {
    SplitConcat('\n', heading, "");
    assert heading + "\n" == heading + ['\n'] + "";
    SplitWhole('\n', heading);
    SplitWhole('\n', "");
    assert [heading + "\n"][1..] == [];
  }

  lemma {:induction false} TagLinesPlain(m: Memory)
    requires forall k :: 0 <= k < |m.tags| ==> '\n' !in m.tags[k]
    ensures TagItems(MarkdownFormat(), m) == TagLines(m.tags)
    ensures AllOneLine(TagLines(m.tags))
  {
    JoinKeepsOut('\n', ", ", m.tags);
    OneLinePair("- **Tags:** ", JoinTags(m.tags));
  }

  function FirstLines(r: Row): seq<string> {
    ["**Content:** " + r.memory.content, "- **ID:** " + r.id, "- **Trust:** " + TrustName(r.memory.trust),
     "- **Strength:** " + Number(r.memory.strength)]
  }

  function LastLines(r: Row): seq<string> {
    ["- **Reinforced:** " + (Number(r.reinforcements) + Times(r.reinforcements)), ""]
  }

  /** The lines of a row behind its heading. */
  function Body(r: Row): seq<string> {
    FirstLines(r) + TagLines(r.memory.tags) + ["- **Created:** " + r.created] + ContextLines(r.memory.context)
    + LastLines(r)
  }

  predicate AllOneLine(items: seq<string>) {
    forall k :: 0 <= k < |items| ==> OneLineItem(items[k])
  }

  lemma {:induction false} OneLineConcat(a: seq<string>, b: seq<string>)
    requires AllOneLine(a) && AllOneLine(b)
    ensures AllOneLine(a + b)
  {
  }

  lemma {:induction false} OneLinePair(start: string, text: string)
    requires OneLineItem(start) && OneLineItem(text)
    ensures OneLineItem(start + text)
  {
  }

  lemma {:induction false} FirstLinesPlain(r: Row)
    requires Plain(r) && OneLine(r)
    ensures AllOneLine(FirstLines(r))
  {
    NamesAreNames(r.memory.category, r.memory.trust);
    NameHasNoNewline(TrustName(r.memory.trust));
    OneLinePair("**Content:** ", r.memory.content);
    OneLinePair("- **ID:** ", r.id);
    OneLinePair("- **Trust:** ", TrustName(r.memory.trust));
    OneLinePair("- **Strength:** ", Number(r.memory.strength));
  }

  lemma {:induction false} LastLinesPlain(r: Row)
    ensures AllOneLine(LastLines(r))
  {
    OneLinePair("- **Reinforced:** ", Number(r.reinforcements) + Times(r.reinforcements));
  }

  lemma {:induction false} ContextLinesPlain(r: Row)
    requires OneLine(r)
    ensures AllOneLine(ContextLines(r.memory.context))
  {
    if HasContext(r.memory) {
      OneLinePair("- **Context:** ", r.memory.context.value);
    }
  }

  lemma {:induction false} BodyIsPlain(r: Row)
    requires Plain(r) && OneLine(r)
    ensures AllOneLine(Body(r))
  {
    FirstLinesPlain(r);
    TagLinesPlain(r.memory);
    OneLinePair("- **Created:** ", r.created);
    ContextLinesPlain(r);
    LastLinesPlain(r);
    OneLineConcat(FirstLines(r), TagLines(r.memory.tags));
    OneLineConcat(FirstLines(r) + TagLines(r.memory.tags), ["- **Created:** " + r.created]);
    OneLineConcat(FirstLines(r) + TagLines(r.memory.tags) + ["- **Created:** " + r.created],
      ContextLines(r.memory.context));
    OneLineConcat(FirstLines(r) + TagLines(r.memory.tags) + ["- **Created:** " + r.created]
      + ContextLines(r.memory.context), LastLines(r));
  }

  lemma {:induction false} RowItemsAre(r: Row)
    requires OneLine(r)
    ensures RowItems(MarkdownFormat(), r) == [RowHeading(MarkdownFormat(), r.memory) + "\n"] + Body(r)
  {
    var f := MarkdownFormat();
    TagLinesPlain(r.memory);
    assert HeadItems(f, r) == [RowHeading(f, r.memory) + "\n"] + FirstLines(r);
    assert ContextItems(f, r.memory) == ContextLines(r.memory.context);
    assert LastItems(f, r) == LastLines(r);
    FirstBefore([RowHeading(f, r.memory) + "\n"], FirstLines(r), TagItems(f, r.memory), ["- **Created:** " + r.created],
      ContextItems(f, r.memory), LastItems(f, r));
  }

  lemma {:induction false} FirstBefore(a: seq<string>, b: seq<string>, c: seq<string>, d: seq<string>, e: seq<string>,
        g: seq<string>)
    ensures a + b + c + d + e + g == a + (b + c + d + e + g)
  {
  }

  lemma {:induction false} RowBlock(r: Row)
    requires Plain(r) && OneLine(r)
    ensures IsBlock(Flattened(RowItems(MarkdownFormat(), r)), r)
  {
    var f, m := MarkdownFormat(), r.memory;
    RowItemsAre(r);
    FlattenedConcat([RowHeading(f, m) + "\n"], Body(r));
    NamesAreNames(m.category, m.trust);
    NameHasNoNewline(CategoryName(m.category));
    NameHasNoNewline(TrustName(m.trust));
    HeadingHasNoNewline(CategoryName(m.category), Summary(m.content), TrustName(m.trust));
    HeadingLines(RowHeading(f, m));
    BodyIsPlain(r);
    PlainItems(Body(r));
    NumberIsInteger(m.strength);
    NumberIsInteger(r.reinforcements);
    BlockIs(r);
  }

  lemma {:induction false} BlockIs(r: Row)
    ensures [RowHeading(MarkdownFormat(), r.memory), ""] + Body(r) ==
            Block(r, Summary(r.memory.content), Number(r.memory.strength), Number(r.reinforcements))
  {
  }

  // ----- the blocks of an export -----

  type BlockTest = seq<string> -> bool

  /** A block stands in these lines, from line i. */
  ghost predicate StandsAt(lines: seq<string>, isBlock: BlockTest, i: nat, n: nat) {
    i + n <= |lines| && isBlock(lines[i..i + n])
  }

  ghost predicate Stands(lines: seq<string>, isBlock: BlockTest) {
    exists i: nat, n: nat :: StandsAt(lines, isBlock, i, n)
  }

  lemma {:induction false} StandsWhole(lines: seq<string>, isBlock: BlockTest)
    requires isBlock(lines)
    ensures Stands(lines, isBlock)
  {
    assert lines[0..|lines|] == lines;
    assert StandsAt(lines, isBlock, 0, |lines|);
  }

  lemma {:induction false} StandsLeft(a: seq<string>, b: seq<string>, isBlock: BlockTest)
    requires Stands(a, isBlock)
    ensures Stands(a + b, isBlock)
  {
    var i: nat, n: nat :| StandsAt(a, isBlock, i, n);
    assert (a + b)[i..i + n] == a[i..i + n];
    assert StandsAt(a + b, isBlock, i, n);
  }

  lemma {:induction false} StandsRight(a: seq<string>, b: seq<string>, isBlock: BlockTest)
    requires Stands(b, isBlock)
    ensures Stands(a + b, isBlock)
  {
    var i: nat, n: nat :| StandsAt(b, isBlock, i, n);
    assert (a + b)[|a| + i..|a| + i + n] == b[i..i + n];
    assert StandsAt(a + b, isBlock, |a| + i, n);
  }

  lemma {:induction false} LeftItemsStand(a: seq<string>, b: seq<string>, isBlock: BlockTest)
    requires Stands(Flattened(a), isBlock)
    ensures Stands(Flattened(a + b), isBlock)
  {
    FlattenedConcat(a, b);
    StandsLeft(Flattened(a), Flattened(b), isBlock);
  }

  lemma {:induction false} RightItemsStand(a: seq<string>, b: seq<string>, isBlock: BlockTest)
    requires Stands(Flattened(b), isBlock)
    ensures Stands(Flattened(a + b), isBlock)
  {
    FlattenedConcat(a, b);
    StandsRight(Flattened(a), Flattened(b), isBlock);
  }

  lemma {:induction false} RowsShow(f: Format, rows: seq<Row>, k: nat, isBlock: BlockTest)
    requires k < |rows| && isBlock(Flattened(RowItems(f, rows[k])))
    ensures Stands(Flattened(RowsItems(f, rows)), isBlock)
  {
    var rest, last := rows[..|rows| - 1], rows[|rows| - 1];
    if k == |rows| - 1 {
      StandsWhole(Flattened(RowItems(f, last)), isBlock);
      RightItemsStand(RowsItems(f, rest), RowItems(f, last), isBlock);
    } else {
      RowsShow(f, rest, k, isBlock);
      LeftItemsStand(RowsItems(f, rest), RowItems(f, last), isBlock);
    }
  }

  lemma {:induction false} GroupShows(f: Format, rows: seq<Row>, r: Row, isBlock: BlockTest)
    requires r in OfCategory(rows, r.memory.category) && isBlock(Flattened(RowItems(f, r)))
    ensures Stands(Flattened(GroupItems(f, rows, r.memory.category)), isBlock)
  {
    var group := OfCategory(rows, r.memory.category);
    var k :| 0 <= k < |group| && group[k] == r;
    RowsShow(f, group, k, isBlock);
    RightItemsStand([GroupTitle(f, r.memory.category) + "\n"], RowsItems(f, group), isBlock);
  }

  lemma {:induction false} GroupsShow(f: Format, rows: seq<Row>, cs: seq<Category>, c: Category, isBlock: BlockTest)
    requires c in cs && Stands(Flattened(GroupItems(f, rows, c)), isBlock)
    ensures Stands(Flattened(GroupsItems(f, rows, cs)), isBlock)
  {
    var rest, last := cs[..|cs| - 1], cs[|cs| - 1];
    if c == last {
      RightItemsStand(GroupsItems(f, rows, rest), GroupItems(f, rows, last), isBlock);
    } else {
      GroupsShow(f, rows, rest, c, isBlock);
      LeftItemsStand(GroupsItems(f, rows, rest), GroupItems(f, rows, last), isBlock);
    }
  }

  lemma {:induction false} ExportShows(f: Format, rows: seq<Row>, c: Category, isBlock: BlockTest)
    requires rows != [] && Stands(Flattened(GroupItems(f, rows, c)), isBlock)
    ensures Stands(LinesOf(Export(f, rows)), isBlock)
  {
    var groups := GroupsItems(f, rows, AllCategories());
    JoinedLines([f.title + "\n"] + groups);
    EveryCategoryListed(c);
    GroupsShow(f, rows, AllCategories(), c, isBlock);
    RightItemsStand([f.title + "\n"], groups, isBlock);
  }

  ghost function BlockFor(r: Row): BlockTest {
    block => IsBlock(block, r)
  }

  /**
    Every memory of one line is shown by its lines, in this order and next to each other, with the first fifty
    characters in the heading and the numbers in decimal.
   */
  lemma {:induction false} MemoryIsShown(rows: seq<Row>, k: nat)
    requires k < |rows| && Plain(rows[k]) && OneLine(rows[k])
    ensures Stands(LinesOf(Export(MarkdownFormat(), rows)), BlockFor(rows[k]))
  {
    RowBlock(rows[k]);
    OfCategoryHas(rows, k);
    GroupShows(MarkdownFormat(), rows, rows[k], BlockFor(rows[k]));
    ExportShows(MarkdownFormat(), rows, rows[k].memory.category, BlockFor(rows[k]));
  }

  /** The name with an upper-case first letter. */
  predicate IsCapitalized(title: string, name: string) {
    |title| == |name| > 0 && title[1..] == name[1..] && 'a' <= name[0] <= 'z' &&
      title[0] as int - 'A' as int == name[0] as int - 'a' as int
  }

  lemma {:induction false} CategoriesCapitalized(c: Category)
    ensures IsCapitalized(Capitalized(c), CategoryName(c))
  {
    match c
    case Fact =>
    case Preference =>
    case Correction =>
    case Entity =>
    case Custom =>
  }

  predicate IsTitle(block: seq<string>, c: Category) {
    |block| == 2 && block[0] == "# " + Capitalized(c) && block[1] == ""
  }

  function TitleFor(c: Category): BlockTest {
    block => IsTitle(block, c)
  }

  /** The category of every memory has its title. */
  lemma {:induction false} CategoryIsShown(rows: seq<Row>, k: nat)
    requires k < |rows|
    ensures Stands(LinesOf(Export(MarkdownFormat(), rows)), TitleFor(rows[k].memory.category))
  {
    var f, c := MarkdownFormat(), rows[k].memory.category;
    OfCategoryHas(rows, k);
    NamesAreNames(c, rows[k].memory.trust);
    OneLinePair("# ", Capitalized(c));
    HeadingLines(GroupTitle(f, c));
    StandsWhole(Flattened([GroupTitle(f, c) + "\n"]), TitleFor(c));
    LeftItemsStand([GroupTitle(f, c) + "\n"], RowsItems(f, OfCategory(rows, c)), TitleFor(c));
    ExportShows(f, rows, c, TitleFor(c));
  }

  lemma {:induction false} LabelsPlain()
    ensures OneLineItem("# Memory Export") && OneLineItem("No active memories.")
  {
  }

  lemma {:induction false} TitleFirst(f: Format, rows: seq<Row>)
    requires rows != [] && OneLineItem(f.title)
    ensures [f.title, ""] <= LinesOf(Export(f, rows))
  {
    var groups := GroupsItems(f, rows, AllCategories());
    JoinedLines([f.title + "\n"] + groups);
    FlattenedConcat([f.title + "\n"], groups);
    HeadingLines(f.title);
  }

  lemma {:induction false} NothingLines(f: Format)
    requires OneLineItem(f.title) && OneLineItem(f.nothing)
    ensures LinesOf(Export(f, [])) == [f.title, "", f.nothing, ""]
  {
    var first, second := f.title + "\n", f.nothing + "\n";
    assert [first, second][1..] == [second];
    assert first + "\n" + second == f.title + "\n\n" + f.nothing + "\n";
    JoinedLines([first, second]);
    assert [first, second] == [first] + [second];
    FlattenedConcat([first], [second]);
    HeadingLines(f.title);
    HeadingLines(f.nothing);
  }

  /** An export starts with its title, and says if there is nothing to show. */
  lemma {:induction false} TitleIsShown(rows: seq<Row>)
    ensures rows != [] ==> ["# Memory Export", ""] <= LinesOf(Export(MarkdownFormat(), rows))
    ensures rows == [] ==>
              LinesOf(Export(MarkdownFormat(), rows)) == ["# Memory Export", "", "No active memories.", ""]
  {
    LabelsPlain();
    if rows == [] {
      NothingLines(MarkdownFormat());
    } else {
      TitleFirst(MarkdownFormat(), rows);
    }
  }
}
