/** Exporting the active memories as Markdown, and parsing such Markdown back. */
module MemoryExport {
  import opened Strings
  import opened Wrappers
  import opened MemoryMarkdown
  import MemoryStore

  type Memory = MemoryStore.Memory
  type Category = MemoryStore.Category
  type Trust = MemoryStore.Trust

  /** An active memory with what the export adds to it: the id, the creation time and the count of reinforcements. */
  datatype Row = Row(id: string, memory: Memory, created: string, reinforcements: nat)

  // ----- the format -----

  /** The fixed texts of the format, and the names of the enumerations in it. */
  datatype Format = Format(
    title: string, nothing: string,
    content: string, id: string, trust: string, strength: string, tags: string, created: string,
    context: string, reinforced: string,
    categoryName: Category -> string, capitalized: Category -> string, trustName: Trust -> string)

  function MarkdownFormat(): Format {
    Format(
      "# Memory Export", "No active memories.",
      "**Content:** ", "- **ID:** ", "- **Trust:** ", "- **Strength:** ", "- **Tags:** ",
      "- **Created:** ", "- **Context:** ", "- **Reinforced:** ",
      c => CategoryName(c), c => Capitalized(c), t => TrustName(t))
  }

  function CategoryName(c: Category): string {
    match c
    case Fact => "fact"
    case Preference => "preference"
    case Correction => "correction"
    case Entity => "entity"
    case Custom => "custom"
  }

  function Capitalized(c: Category): string {
    match c
    case Fact => "Fact"
    case Preference => "Preference"
    case Correction => "Correction"
    case Entity => "Entity"
    case Custom => "Custom"
  }

  function TrustName(t: Trust): string {
    match t
    case High => "high"
    case Medium => "medium"
    case Low => "low"
  }

  /** How the importer reads the names. */
  datatype Names = Names(category: string -> Option<Category>, trust: string -> Option<Trust>)

  function MarkdownNames(): Names {
    Names(name => CategoryOf(name), name => TrustOf(name))
  }

  /** `Category(name)`, which throws for other names. */
  function CategoryOf(name: string): Option<Category> {
    if name == "fact" then Some(MemoryStore.Fact)
    else if name == "preference" then Some(MemoryStore.Preference)
    else if name == "correction" then Some(MemoryStore.Correction)
    else if name == "entity" then Some(MemoryStore.Entity)
    else if name == "custom" then Some(MemoryStore.Custom)
    else None
  }

  /** `Trust(name)` */
  function TrustOf(name: string): Option<Trust> {
    if name == "high" then Some(MemoryStore.High)
    else if name == "medium" then Some(MemoryStore.Medium)
    else if name == "low" then Some(MemoryStore.Low)
    else None
  }

  /** The reader gives every category and every trust back. */
  ghost predicate NamesRead(f: Format, names: Names) {
    && (forall c :: names.category(f.categoryName(c)) == Some(c))
    && (forall t :: names.trust(f.trustName(t)) == Some(t))
  }

  /** The categories in the order of their names. */
  function AllCategories(): seq<Category> {
    [MemoryStore.Correction, MemoryStore.Custom, MemoryStore.Entity, MemoryStore.Fact, MemoryStore.Preference]
  }

  function Number(i: int): (s: string)
    ensures '\n' !in s
  {
    if i < 0 then "-" + Digits(-i) else Digits(i)
  }

  function Times(n: nat): (s: string)
    ensures '\n' !in s
  {
    if n == 1 then " time" else " times"
  }

  // ----- export -----

  predicate HasContext(m: Memory) {
    m.context.Some? && m.context.value != ""
  }

  function Summary(content: string): string {
    if |content| <= 50 then content else content[..50]
  }

  function Heading(category: string, summary: string, trust: string): string {
    "## [" + category + "] " + summary + " (" + trust + ")"
  }

  function RowHeading(f: Format, m: Memory): string {
    Heading(f.categoryName(m.category), Summary(m.content), f.trustName(m.trust))
  }

  function TagItems(f: Format, m: Memory): seq<string> {
    if m.tags == [] then [] else [f.tags + JoinTags(m.tags)]
  }

  function ContextItems(f: Format, m: Memory): seq<string> {
    if HasContext(m) then [f.context + m.context.value] else []
  }

  function HeadItems(f: Format, r: Row): seq<string> {
    [RowHeading(f, r.memory) + "\n",
     f.content + r.memory.content,
     f.id + r.id,
     f.trust + f.trustName(r.memory.trust),
     f.strength + Number(r.memory.strength)]
  }

  function LastItems(f: Format, r: Row): seq<string> {
    [f.reinforced + (Number(r.reinforcements) + Times(r.reinforcements)), ""]
  }

  /** The strings appended for one memory; the heading ends in a newline of its own. */
  function RowItems(f: Format, r: Row): seq<string> {
    HeadItems(f, r) + TagItems(f, r.memory) + [f.created + r.created] + ContextItems(f, r.memory) + LastItems(f, r)
  }

  function RowsItems(f: Format, rows: seq<Row>): seq<string> {
    if rows == [] then [] else RowsItems(f, rows[..|rows| - 1]) + RowItems(f, rows[|rows| - 1])
  }

  function OfCategory(rows: seq<Row>, c: Category): seq<Row> {
    if rows == [] then [] else
    OfCategory(rows[..|rows| - 1], c) + if rows[|rows| - 1].memory.category == c then [rows[|rows| - 1]] else []
  }

  function GroupTitle(f: Format, c: Category): string {
    "# " + f.capitalized(c)
  }

  function GroupItems(f: Format, rows: seq<Row>, c: Category): seq<string> {
    if OfCategory(rows, c) == [] then [] else [GroupTitle(f, c) + "\n"] + RowsItems(f, OfCategory(rows, c))
  }

  function GroupsItems(f: Format, rows: seq<Row>, cs: seq<Category>): seq<string> {
    if cs == [] then [] else GroupsItems(f, rows, cs[..|cs| - 1]) + GroupItems(f, rows, cs[|cs| - 1])
  }

  function Export(f: Format, rows: seq<Row>): string {
    if rows == [] then f.title + "\n\n" + f.nothing + "\n"
    else JoinWith("\n", [f.title + "\n"] + GroupsItems(f, rows, AllCategories()))
  }

  /** `export_memories`, from the rows the query returns. */
  method ExportMemories(f: Format, rows: seq<Row>) returns (text: string)
    ensures text == Export(f, rows)
  {
    if rows == [] {
      return f.title + "\n\n" + f.nothing + "\n";
    }
    var grouped := GroupByCategory(rows);
    var lines := GroupLines(f, rows, grouped, AllCategories());
    text := JoinWith("\n", [f.title + "\n"] + lines);
  }

  method GroupByCategory(rows: seq<Row>) returns (grouped: map<Category, seq<Row>>)
    ensures forall c :: c in grouped <==> OfCategory(rows, c) != []
    ensures forall c :: c in grouped ==> grouped[c] == OfCategory(rows, c)
  {
    grouped := map[];
    for i := 0 to |rows|
      invariant forall c :: c in grouped <==> OfCategory(rows[..i], c) != []
      invariant forall c :: c in grouped ==> grouped[c] == OfCategory(rows[..i], c)
    {
      assert rows[..i + 1][..i] == rows[..i];
      var c := rows[i].memory.category;
      if c !in grouped {
        grouped := grouped[c := []];
      }
      grouped := grouped[c := grouped[c] + [rows[i]]];
    }
    assert rows[..|rows|] == rows;
  }

  method GroupLines(f: Format, rows: seq<Row>, grouped: map<Category, seq<Row>>, names: seq<Category>)
    returns (lines: seq<string>)
    requires forall c :: c in grouped <==> OfCategory(rows, c) != []
    requires forall c :: c in grouped ==> grouped[c] == OfCategory(rows, c)
    ensures lines == GroupsItems(f, rows, names)
  {
    lines := [];
    for i := 0 to |names|
      invariant lines == GroupsItems(f, rows, names[..i])
    {
      assert names[..i + 1][..i] == names[..i];
      var more := OneGroup(f, rows, grouped, names[i]);
      lines := lines + more;
    }
    assert names[..|names|] == names;
  }

  method OneGroup(f: Format, rows: seq<Row>, grouped: map<Category, seq<Row>>, c: Category) returns (lines: seq<string>)
    requires c in grouped <==> OfCategory(rows, c) != []
    requires c in grouped ==> grouped[c] == OfCategory(rows, c)
    ensures lines == GroupItems(f, rows, c)
  {
    if c !in grouped {
      return [];
    }
    var more := RowsLines(f, grouped[c]);
    lines := [GroupTitle(f, c) + "\n"] + more;
  }

  method RowsLines(f: Format, rows: seq<Row>) returns (lines: seq<string>)
    ensures lines == RowsItems(f, rows)
  {
    lines := [];
    for i := 0 to |rows|
      invariant lines == RowsItems(f, rows[..i])
    {
      assert rows[..i + 1][..i] == rows[..i];
      var more := RowLines(f, rows[i]);
      lines := lines + more;
    }
    assert rows[..|rows|] == rows;
  }

  method RowLines(f: Format, r: Row) returns (lines: seq<string>)
    ensures lines == RowItems(f, r)
  {
    var m := r.memory;
    lines := [Heading(f.categoryName(m.category), Summary(m.content), f.trustName(m.trust)) + "\n"];
    lines := lines + [f.content + m.content];
    lines := lines + [f.id + r.id];
    lines := lines + [f.trust + f.trustName(m.trust)];
    lines := lines + [f.strength + Number(m.strength)];
    if m.tags != [] {
      lines := lines + [f.tags + JoinTags(m.tags)];
    }
    lines := lines + [f.created + r.created];
    if HasContext(m) {
      lines := lines + [f.context + m.context.value];
    }
    lines := lines + [f.reinforced + (Number(r.reinforcements) + Times(r.reinforcements))];
    lines := lines + [""];
  }

  // ----- parse -----

  datatype Draft = Draft(category: string, trust: string, content: Option<string>,
    tags: seq<string>, context: Option<string>)

  /** The finished entries, and the one being read. */
  datatype Parsing = Parsing(entries: seq<Draft>, current: Option<Draft>)

  /** What a line is, apart from the lines the parser skips. */
  datatype Mark = HeadingMark(category: string, trust: string) | ContentMark(text: string)
    | TagsMark(text: string) | ContextMark(text: string)

  type Classify = string -> Option<Mark>

  function MarkOf(f: Format, word: CharTest, line: string): Option<Mark> {
    var heading := MatchHeading(word, line);
    if heading.Some? then Some(HeadingMark(heading.value.0, heading.value.1))
    else if f.content <= line then Some(ContentMark(line[|f.content|..]))
    else if f.tags <= line then Some(TagsMark(line[|f.tags|..]))
    else if f.context <= line then Some(ContextMark(line[|f.context|..]))
    else None
  }

  predicate HasContent(d: Draft) {
    d.content.Some? && d.content.value != ""
  }

  function Kept(p: Parsing): seq<Draft> {
    p.entries + if p.current.Some? && HasContent(p.current.value) then [p.current.value] else []
  }

  function Take(p: Parsing, mark: Mark): Parsing {
    match mark
    case HeadingMark(category, trust) => Parsing(Kept(p), Some(Draft(category, trust, None, [], None)))
    case ContentMark(text) =>
      if p.current == None then p else p.(current := Some(p.current.value.(content := Some(text))))
    case TagsMark(text) =>
      if p.current == None then p else p.(current := Some(p.current.value.(tags := ParseTags(text))))
    case ContextMark(text) =>
      if p.current == None then p else p.(current := Some(p.current.value.(context := Some(text))))
  }

  function TakeAll(p: Parsing, marks: seq<Mark>): Parsing {
    if marks == [] then p else Take(TakeAll(p, marks[..|marks| - 1]), marks[|marks| - 1])
  }

  function Marks(classify: Classify, lines: seq<string>): seq<Mark> {
    if lines == [] then [] else
    var mark := classify(lines[|lines| - 1]);
    Marks(classify, lines[..|lines| - 1]) + if mark.Some? then [mark.value] else []
  }

  function Classifier(f: Format, word: CharTest): Classify {
    line => MarkOf(f, word, line)
  }

  function Parse(f: Format, word: CharTest, text: string): seq<Draft> {
    Kept(TakeAll(Parsing([], None), Marks(Classifier(f, word), SplitOn('\n', text))))
  }

  /** The parser after one line. */
  function AfterLine(classify: Classify, p: Parsing, line: string): Parsing {
    var mark := classify(line);
    if mark == None then p else Take(p, mark.value)
  }

  function AfterLines(classify: Classify, p: Parsing, lines: seq<string>): Parsing {
    if lines == [] then p else AfterLine(classify, AfterLines(classify, p, lines[..|lines| - 1]), lines[|lines| - 1])
  }

  lemma {:induction false} AfterLinesTakesMarks(classify: Classify, p: Parsing, lines: seq<string>)
    ensures AfterLines(classify, p, lines) == TakeAll(p, Marks(classify, lines))
  {
    if lines != [] {
      AfterLinesTakesMarks(classify, p, lines[..|lines| - 1]);
      TakeLast(p, Marks(classify, lines[..|lines| - 1]), classify(lines[|lines| - 1]));
    }
  }

  lemma {:induction false} AfterNext(classify: Classify, p: Parsing, lines: seq<string>, i: nat)
    requires i < |lines|
    ensures AfterLines(classify, p, lines[..i + 1]) ==
            AfterLine(classify, AfterLines(classify, p, lines[..i]), lines[i])
  {
    assert lines[..i + 1][..i] == lines[..i];
  }

  /** `_parse_export_markdown`; word is what `\w` matches. */
  method ParseExportMarkdown(f: Format, word: CharTest, markdown: string) returns (entries: seq<Draft>)
    ensures entries == Parse(f, word, markdown)
  {
    entries := [];
    var current: Option<Draft> := None;
    var lines := SplitOn('\n', markdown);
    for i := 0 to |lines|
      invariant Parsing(entries, current) == AfterLines(Classifier(f, word), Parsing([], None), lines[..i])
    {
      AfterNext(Classifier(f, word), Parsing([], None), lines, i);
      entries, current := ParseLine(f, word, entries, current, lines[i]);
    }
    assert lines[..|lines|] == lines;
    AfterLinesTakesMarks(Classifier(f, word), Parsing([], None), lines);
    if current.Some? && HasContent(current.value) {
      entries := entries + [current.value];
    }
  }

  /** The body of the parser's loop. */
  method ParseLine(f: Format, word: CharTest, entries0: seq<Draft>, current0: Option<Draft>, line: string)
    returns (entries: seq<Draft>, current: Option<Draft>)
    ensures Parsing(entries, current) == AfterLine(Classifier(f, word), Parsing(entries0, current0), line)
  {
    entries, current := entries0, current0;
    var heading := MatchHeading(word, line);
    if heading.Some? {
      if current.Some? && HasContent(current.value) {
        entries := entries + [current.value];
      }
      current := Some(Draft(heading.value.0, heading.value.1, None, [], None));
      return;
    }
    if current == None {
      return;
    }
    if f.content <= line {
      current := Some(current.value.(content := Some(line[|f.content|..])));
    } else if f.tags <= line {
      current := Some(current.value.(tags := ParseTags(line[|f.tags|..])));
    } else if f.context <= line {
      current := Some(current.value.(context := Some(line[|f.context|..])));
    }
  }

  lemma {:induction false} TakeLast(p: Parsing, marks: seq<Mark>, mark: Option<Mark>)
    ensures var more := if mark.Some? then [mark.value] else [];
            TakeAll(p, marks + more) == if mark.Some? then Take(TakeAll(p, marks), mark.value) else TakeAll(p, marks)
  {
    if mark.Some? {
      assert (marks + [mark.value])[..|marks|] == marks;
    } else {
      assert marks + [] == marks;
    }
  }
}
