/** What survives an export of the memories followed by a parse. */
module MemoryRoundTrip {
  import opened Strings
  import opened Wrappers
  import opened MemoryMarkdown
  import opened MemoryExport
  import MemoryStore

  type Entry = MemoryStore.Entry

  // ----- marks of a text -----

  /** The marks of a string that may hold several lines. */
  function ItemMarks(classify: Classify, item: string): seq<Mark> {
    Marks(classify, SplitOn('\n', item))
  }

  type Marker = string -> seq<Mark>

  function Flat(mark: Marker, items: seq<string>): seq<Mark> {
    if items == [] then [] else mark(items[0]) + Flat(mark, items[1..])
  }

  function MarkerOf(classify: Classify): Marker {
    item => ItemMarks(classify, item)
  }

  function ItemsMarks(classify: Classify, items: seq<string>): seq<Mark> {
    Flat(MarkerOf(classify), items)
  }

  lemma {:induction false} FlatConcat(mark: Marker, a: seq<string>, b: seq<string>)
    ensures Flat(mark, a + b) == Flat(mark, a) + Flat(mark, b)
  {
    if a == [] {
      assert a + b == b;
    } else {
      assert (a + b)[1..] == a[1..] + b;
      FlatConcat(mark, a[1..], b);
    }
  }

  lemma {:induction false} FlatOne(mark: Marker, item: string)
    ensures Flat(mark, [item]) == mark(item)
  {
    assert [item][1..] == [];
  }

  lemma {:induction false} FlatFive(mark: Marker, a: seq<string>, b: seq<string>, c: seq<string>, d: seq<string>,
        e: seq<string>)
    ensures Flat(mark, a + b + c + d + e) ==
            Flat(mark, a) + Flat(mark, b) + Flat(mark, c) + Flat(mark, d) + Flat(mark, e)
  {
    FlatConcat(mark, a, b);
    FlatConcat(mark, a + b, c);
    FlatConcat(mark, a + b + c, d);
    FlatConcat(mark, a + b + c + d, e);
  }

  lemma {:induction false} MarksConcat(classify: Classify, a: seq<string>, b: seq<string>)
    ensures Marks(classify, a + b) == Marks(classify, a) + Marks(classify, b)
  {
    if b == [] {
      assert a + b == a;
    } else {
      assert (a + b)[..|a + b| - 1] == a + b[..|b| - 1];
      MarksConcat(classify, a, b[..|b| - 1]);
    }
  }

  lemma {:induction false} ItemsMarksConcat(classify: Classify, a: seq<string>, b: seq<string>)
    ensures ItemsMarks(classify, a + b) == ItemsMarks(classify, a) + ItemsMarks(classify, b)
  {
    FlatConcat(MarkerOf(classify), a, b);
  }

  lemma {:induction false} ItemsMarksOne(classify: Classify, item: string)
    ensures ItemsMarks(classify, [item]) == ItemMarks(classify, item)
  {
    FlatOne(MarkerOf(classify), item);
  }

  /** Lines may be marked item by item. */
  lemma {:induction false} JoinedMarks(classify: Classify, items: seq<string>)
    requires items != []
    ensures ItemMarks(classify, JoinWith("\n", items)) == ItemsMarks(classify, items)
  {
    assert items == [items[0]] + items[1..];
    ItemsMarksConcat(classify, [items[0]], items[1..]);
    ItemsMarksOne(classify, items[0]);
    if |items| > 1 {
      var rest := JoinWith("\n", items[1..]);
      SplitConcat('\n', items[0], rest);
      assert JoinWith("\n", items) == items[0] + ['\n'] + rest;
      MarksConcat(classify, SplitOn('\n', items[0]), SplitOn('\n', rest));
      JoinedMarks(classify, items[1..]);
    }
  }

  function OneMark(mark: Option<Mark>): seq<Mark> {
    if mark.Some? then [mark.value] else []
  }

  lemma {:induction false} LineMarks(classify: Classify, line: string)
    requires '\n' !in line
    ensures ItemMarks(classify, line) == OneMark(classify(line))
  {
    SplitWhole('\n', line);
    assert [line][..0] == [];
  }

  /** A line that brings its own newline is followed by an empty line. */
  lemma {:induction false} EndedLineMarks(classify: Classify, line: string)
    requires '\n' !in line && classify("") == None
    ensures ItemMarks(classify, line + "\n") == OneMark(classify(line))
  {
    SplitConcat('\n', line, "");
    assert line + "\n" == line + ['\n'] + "";
    MarksConcat(classify, SplitOn('\n', line), SplitOn('\n', ""));
    LineMarks(classify, line);
    LineMarks(classify, "");
  }

  // ----- marks of the exported lines -----

  /** Whichever texts follow, no line that starts with a is one that starts with b. */
  predicate Differ(a: string, b: string) {
    exists k :: 0 <= k < |a| && k < |b| && a[k] != b[k]
  }

  lemma {:induction false} NotPrefix(prefix: string, start: string, text: string)
    requires Differ(start, prefix)
    ensures !(prefix <= start + text)
  {
    var k :| 0 <= k < |start| && k < |prefix| && start[k] != prefix[k];
    assert (start + text)[k] == start[k];
  }

  predicate IsLetter(c: char) {
    'a' <= c <= 'z'
  }

  /** The start of a line the parser skips. */
  predicate Skippable(f: Format, start: string) {
    start != "" && start[0] != '#' && '\n' !in start &&
      Differ(start, f.content) && Differ(start, f.tags) && Differ(start, f.context)
  }

  predicate IsName(s: string) {
    s != "" && AllPass(IsLetter, s)
  }

  predicate TitleOk(f: Format) {
    |f.title| > 1 && f.title[0] == '#' && f.title[1] != '#' && '\n' !in f.title
  }

  predicate LabelsOk(f: Format) {
    && f.content != "" && f.content[0] != '#' && '\n' !in f.content
    && f.tags != "" && f.tags[0] != '#' && '\n' !in f.tags && Differ(f.tags, f.content)
    && f.context != "" && f.context[0] != '#' && '\n' !in f.context
      && Differ(f.context, f.content) && Differ(f.context, f.tags)
  }

  ghost predicate NamesOk(f: Format) {
    && (forall c :: IsName(f.categoryName(c)) && '\n' !in f.capitalized(c))
    && (forall t :: IsName(f.trustName(t)))
  }

  /** What the parser relies on in the format. */
  ghost predicate Readable(f: Format) {
    && TitleOk(f) && LabelsOk(f) && NamesOk(f)
    && Skippable(f, f.nothing) && Skippable(f, f.id) && Skippable(f, f.trust) && Skippable(f, f.strength)
    && Skippable(f, f.created) && Skippable(f, f.reinforced)
  }

  lemma {:induction false} DifferAt(a: string, b: string, k: nat)
    requires k < |a| && k < |b| && a[k] != b[k]
    ensures Differ(a, b)
  {
  }

  /** The importer's names are those of the export. */
  lemma {:induction false} MarkdownNamesRead()
    ensures NamesRead(MarkdownFormat(), MarkdownNames())
  {
    var f, names := MarkdownFormat(), MarkdownNames();
    forall c ensures names.category(f.categoryName(c)) == Some(c) {
      CategoryNameRead(c);
    }
    forall t ensures names.trust(f.trustName(t)) == Some(t) {
      TrustNameRead(t);
    }
  }

  lemma {:induction false} CategoryNameRead(c: Category)
    ensures CategoryOf(CategoryName(c)) == Some(c)
  {
    match c
    case Fact =>
    case Preference => assert "preference"[0] != "fact"[0];
    case Correction => assert "correction"[0] != "fact"[0] && "correction"[0] != "preference"[0];
    case Entity => assert "entity"[0] != "fact"[0] && "entity"[0] != "preference"[0] && "entity"[0] != "correction"[0];
    case Custom =>
      assert "custom"[0] != "fact"[0] && "custom"[0] != "preference"[0] && "custom"[0] != "entity"[0];
      assert "custom"[1] != "correction"[1];
  }

  lemma {:induction false} TrustNameRead(t: Trust)
    ensures TrustOf(TrustName(t)) == Some(t)
  {
    match t
    case High =>
    case Medium => assert "medium"[0] != "high"[0];
    case Low => assert "low"[0] != "high"[0] && "low"[0] != "medium"[0];
  }

  /** And no other name is read. */
  lemma {:induction false} NameReadIff(name: string, c: Category, t: Trust)
    ensures CategoryOf(name) == Some(c) <==> name == CategoryName(c)
    ensures TrustOf(name) == Some(t) <==> name == TrustName(t)
  {
    CategoryNameRead(c);
    TrustNameRead(t);
  }

  lemma {:induction false} NamesAreNames(c: Category, t: Trust)
    ensures IsName(CategoryName(c)) && '\n' !in Capitalized(c) && IsName(TrustName(t))
  {
  }

  /** The characters that tell the labels of the format apart. */
  lemma {:induction false} SkippableLabel(f: Format, start: string, k: nat, l: nat)
    requires |f.content| > 0 && |f.tags| > 5 && |f.context| > 5 && k <= 5 && l <= 5
    requires |start| > 5 && start[0] != '#' && start[0] != f.content[0] &&
             start[k] != f.tags[k] && start[l] != f.context[l] && '\n' !in start
    ensures Skippable(f, start)
  {
  }

  lemma {:induction false} MarkdownIsReadable()
    ensures Readable(MarkdownFormat())
  {
    var f := MarkdownFormat();
    forall c ensures IsName(f.categoryName(c)) && '\n' !in f.capitalized(c) {
      NamesAreNames(c, MemoryStore.High);
    }
    forall t ensures IsName(f.trustName(t)) {
      NamesAreNames(MemoryStore.Fact, t);
    }
    MarkdownTitle();
    MarkdownLabels();
    NothingSkips();
    IdSkips();
    TrustSkips();
    StrengthSkips();
    CreatedSkips();
    ReinforcedSkips();
  }

  lemma {:induction false} MarkdownTitle()
    ensures TitleOk(MarkdownFormat())
  {
  }

  lemma {:induction false} MarkdownLabels()
    ensures LabelsOk(MarkdownFormat())
  {
    var f := MarkdownFormat();
    DifferAt(f.tags, f.content, 0);
    DifferAt(f.context, f.content, 0);
    DifferAt(f.context, f.tags, 4);
  }

  lemma {:induction false} NothingSkips()
    ensures var f := MarkdownFormat(); Skippable(f, f.nothing)
  {
  }

  lemma {:induction false} IdSkips()
    ensures var f := MarkdownFormat(); Skippable(f, f.id)
  {
    SkippableLabel(MarkdownFormat(), MarkdownFormat().id, 4, 4);
  }

  lemma {:induction false} TrustSkips()
    ensures var f := MarkdownFormat(); Skippable(f, f.trust)
  {
    SkippableLabel(MarkdownFormat(), MarkdownFormat().trust, 5, 4);
  }

  lemma {:induction false} StrengthSkips()
    ensures var f := MarkdownFormat(); Skippable(f, f.strength)
  {
    SkippableLabel(MarkdownFormat(), MarkdownFormat().strength, 4, 4);
  }

  lemma {:induction false} CreatedSkips()
    ensures var f := MarkdownFormat(); Skippable(f, f.created)
  {
    SkippableLabel(MarkdownFormat(), MarkdownFormat().created, 4, 5);
  }

  lemma {:induction false} ReinforcedSkips()
    ensures var f := MarkdownFormat(); Skippable(f, f.reinforced)
  {
    SkippableLabel(MarkdownFormat(), MarkdownFormat().reinforced, 4, 4);
  }

  lemma {:induction false} NoHeading(word: CharTest, line: string)
    requires line == "" || line[0] != '#' || (|line| > 1 && line[1] != '#')
    ensures MatchHeading(word, line) == None
  {
  }

  lemma {:induction false} HeadingRead(word: CharTest, category: string, summary: string, trust: string)
    requires IsWordTest(word) && summary != "" && IsName(category) && IsName(trust)
    ensures MatchHeading(word, Heading(category, summary, trust)) == Some((category, trust))
  {
    LettersPass(word, category);
    LettersPass(word, trust);
    var body := " " + summary + " ";
    var rest := body + "(" + trust + ")";
    assert rest == rest + "";
    assert TailParts(word, rest, body, trust, "");
    TailFinds(word, rest, body, trust, "");
    var line := Heading(category, summary, trust);
    assert line == "##" + (" " + ['['] + (category + [']'] + rest));
    assert HeadingParts(IsPySpace, word, Tail(word), line, " ", category, rest, trust);
    HeadingFinds(IsPySpace, word, Tail(word), line, " ", category, rest, trust);
  }

  lemma {:induction false} LettersPass(word: CharTest, name: string)
    requires IsWordTest(word) && AllPass(IsLetter, name)
    ensures AllPass(word, name)
  {
  }

  lemma {:induction false} ContentMarked(f: Format, word: CharTest, text: string)
    requires Readable(f)
    ensures MarkOf(f, word, f.content + text) == Some(ContentMark(text))
  {
    NoHeading(word, f.content + text);
    assert (f.content + text)[|f.content|..] == text;
  }

  lemma {:induction false} TagsMarked(f: Format, word: CharTest, text: string)
    requires Readable(f)
    ensures MarkOf(f, word, f.tags + text) == Some(TagsMark(text))
  {
    NoHeading(word, f.tags + text);
    NotPrefix(f.content, f.tags, text);
    assert (f.tags + text)[|f.tags|..] == text;
  }

  lemma {:induction false} ContextMarked(f: Format, word: CharTest, text: string)
    requires Readable(f)
    ensures MarkOf(f, word, f.context + text) == Some(ContextMark(text))
  {
    NoHeading(word, f.context + text);
    NotPrefix(f.content, f.context, text);
    NotPrefix(f.tags, f.context, text);
    assert (f.context + text)[|f.context|..] == text;
  }

  lemma {:induction false} Skipped(f: Format, word: CharTest, start: string, text: string)
    requires Skippable(f, start)
    ensures MarkOf(f, word, start + text) == None
  {
    NoHeading(word, start + text);
    NotPrefix(f.content, start, text);
    NotPrefix(f.tags, start, text);
    NotPrefix(f.context, start, text);
  }

  lemma {:induction false} SkippedTitle(f: Format, word: CharTest, line: string)
    requires Readable(f)
    requires line == "" || (|line| > 1 && line[0] == '#' && line[1] != '#')
    ensures MarkOf(f, word, line) == None
  {
  }

  // ----- one row -----

  /** The generated fields of a row hold no newline. */
  predicate Plain(r: Row) {
    '\n' !in r.id && '\n' !in r.created
  }

  predicate OneLine(r: Row) {
    && r.memory.content != "" && '\n' !in r.memory.content
    && (forall k :: 0 <= k < |r.memory.tags| ==> '\n' !in r.memory.tags[k])
    && (r.memory.context.Some? ==> '\n' !in r.memory.context.value)
  }

  function HeadMarks(f: Format, m: Memory): seq<Mark> {
    [HeadingMark(f.categoryName(m.category), f.trustName(m.trust)), ContentMark(m.content)]
  }

  function TagMarks(m: Memory): seq<Mark> {
    if m.tags == [] then [] else [TagsMark(JoinTags(m.tags))]
  }

  function ContextMarks(m: Memory): seq<Mark> {
    if HasContext(m) then [ContextMark(m.context.value)] else []
  }

  function RowMarks(f: Format, r: Row): seq<Mark> {
    HeadMarks(f, r.memory) + TagMarks(r.memory) + ContextMarks(r.memory)
  }

  lemma {:induction false} JoinKeepsOut(c: char, sep: string, parts: seq<string>)
    requires c !in sep && forall k :: 0 <= k < |parts| ==> c !in parts[k]
    ensures c !in JoinWith(sep, parts)
  {
    if |parts| > 1 { JoinKeepsOut(c, sep, parts[1..]); }
  }

  lemma {:induction false} TagItemsMarks(f: Format, word: CharTest, r: Row)
    requires Readable(f) && OneLine(r)
    ensures ItemsMarks(Classifier(f, word), TagItems(f, r.memory)) == TagMarks(r.memory)
  {
    if r.memory.tags != [] {
      var text := JoinTags(r.memory.tags);
      JoinKeepsOut('\n', ", ", r.memory.tags);
      TagsMarked(f, word, text);
      LineMarks(Classifier(f, word), f.tags + text);
      ItemsMarksOne(Classifier(f, word), f.tags + text);
    }
  }

  lemma {:induction false} ContextItemsMarks(f: Format, word: CharTest, r: Row)
    requires Readable(f) && OneLine(r)
    ensures ItemsMarks(Classifier(f, word), ContextItems(f, r.memory)) == ContextMarks(r.memory)
  {
    if HasContext(r.memory) {
      var text := r.memory.context.value;
      ContextMarked(f, word, text);
      LineMarks(Classifier(f, word), f.context + text);
      ItemsMarksOne(Classifier(f, word), f.context + text);
    }
  }

  lemma {:induction false} SkippedItem(f: Format, word: CharTest, start: string, text: string)
    requires Skippable(f, start) && '\n' !in text
    ensures ItemMarks(Classifier(f, word), start + text) == [] && ItemsMarks(Classifier(f, word), [start + text]) == []
  {
    Skipped(f, word, start, text);
    LineMarks(Classifier(f, word), start + text);
    ItemsMarksOne(Classifier(f, word), start + text);
  }

  lemma {:induction false} FiveItems(mark: Marker, a: string, b: string, c: string, d: string, e: string)
    ensures Flat(mark, [a, b, c, d, e]) == mark(a) + mark(b) + mark(c) + mark(d) + mark(e)
  {
    FlatFive(mark, [a], [b], [c], [d], [e]);
    assert [a, b, c, d, e] == [a] + [b] + [c] + [d] + [e];
    FlatOne(mark, a);
    FlatOne(mark, b);
    FlatOne(mark, c);
    FlatOne(mark, d);
    FlatOne(mark, e);
  }

  lemma {:induction false} NameHasNoNewline(name: string)
    requires IsName(name)
    ensures '\n' !in name
  {
  }

  lemma {:induction false} HeadingMarks(f: Format, word: CharTest, m: Memory)
    requires Readable(f) && IsWordTest(word) && m.content != "" && '\n' !in m.content
    ensures ItemMarks(Classifier(f, word), RowHeading(f, m) + "\n") ==
            [HeadingMark(f.categoryName(m.category), f.trustName(m.trust))]
  {
    var category, trust := f.categoryName(m.category), f.trustName(m.trust);
    HeadingRead(word, category, Summary(m.content), trust);
    NameHasNoNewline(category);
    NameHasNoNewline(trust);
    HeadingHasNoNewline(category, Summary(m.content), trust);
    SkippedTitle(f, word, "");
    EndedLineMarks(Classifier(f, word), RowHeading(f, m));
  }

  lemma {:induction false} HeadingHasNoNewline(category: string, summary: string, trust: string)
    requires '\n' !in category && '\n' !in summary && '\n' !in trust
    ensures '\n' !in Heading(category, summary, trust)
  {
  }

  lemma {:induction false} HeadItemsMarks(f: Format, word: CharTest, r: Row)
    requires Readable(f) && IsWordTest(word) && Plain(r) && OneLine(r)
    ensures ItemsMarks(Classifier(f, word), HeadItems(f, r)) == HeadMarks(f, r.memory)
  {
    var m := r.memory;
    var number, trust := Number(m.strength), f.trustName(m.trust);
    NameHasNoNewline(trust);
    HeadingMarks(f, word, m);
    ContentMarked(f, word, m.content);
    LineMarks(Classifier(f, word), f.content + m.content);
    SkippedItem(f, word, f.id, r.id);
    SkippedItem(f, word, f.trust, trust);
    SkippedItem(f, word, f.strength, number);
    FiveItems(MarkerOf(Classifier(f, word)), RowHeading(f, m) + "\n", f.content + m.content,
      f.id + r.id, f.trust + trust, f.strength + number);
  }

  lemma {:induction false} LastItemsMarks(f: Format, word: CharTest, r: Row)
    requires Readable(f)
    ensures ItemsMarks(Classifier(f, word), LastItems(f, r)) == []
  {
    var text := Number(r.reinforcements) + Times(r.reinforcements);
    SkippedItem(f, word, f.reinforced, text);
    assert LastItems(f, r) == [f.reinforced + text] + [""];
    ItemsMarksConcat(Classifier(f, word), [f.reinforced + text], [""]);
    ItemsMarksOne(Classifier(f, word), "");
    SkippedTitle(f, word, "");
    LineMarks(Classifier(f, word), "");
  }

  lemma {:induction false} RowItemsFlat(f: Format, mark: Marker, r: Row, head: seq<Mark>, tags: seq<Mark>,
        context: seq<Mark>)
    requires Flat(mark, HeadItems(f, r)) == head && Flat(mark, TagItems(f, r.memory)) == tags
    requires Flat(mark, [f.created + r.created]) == [] && Flat(mark, ContextItems(f, r.memory)) == context
    requires Flat(mark, LastItems(f, r)) == []
    ensures Flat(mark, RowItems(f, r)) == head + tags + context
  {
    FlatFive(mark, HeadItems(f, r), TagItems(f, r.memory),
      [f.created + r.created], ContextItems(f, r.memory), LastItems(f, r));
  }

  lemma {:induction false} RowItemsMarks(f: Format, word: CharTest, r: Row)
    requires Readable(f) && IsWordTest(word) && Plain(r) && OneLine(r)
    ensures ItemsMarks(Classifier(f, word), RowItems(f, r)) == RowMarks(f, r)
  {
    HeadItemsMarks(f, word, r);
    TagItemsMarks(f, word, r);
    SkippedItem(f, word, f.created, r.created);
    ContextItemsMarks(f, word, r);
    LastItemsMarks(f, word, r);
    RowItemsFlat(f, MarkerOf(Classifier(f, word)), r,
      HeadMarks(f, r.memory), TagMarks(r.memory), ContextMarks(r.memory));
  }

  // ----- what the parser makes of the marks -----

  lemma {:induction false} TakeAllConcat(p: Parsing, a: seq<Mark>, b: seq<Mark>)
    ensures TakeAll(p, a + b) == TakeAll(TakeAll(p, a), b)
  {
    if b == [] {
      assert a + b == a;
    } else {
      assert (a + b)[..|a + b| - 1] == a + b[..|b| - 1];
      TakeAllConcat(p, a, b[..|b| - 1]);
    }
  }

  lemma {:induction false} TakeOne(p: Parsing, mark: Mark)
    ensures TakeAll(p, [mark]) == Take(p, mark)
  {
    assert [mark][..0] == [];
  }

  /** What an entry is after export and parse. */
  function Recovered(f: Format, r: Row): Draft {
    Draft(f.categoryName(r.memory.category), f.trustName(r.memory.trust), Some(r.memory.content),
      ParseTags(JoinTags(r.memory.tags)),
          if HasContext(r.memory) then r.memory.context else None)
  }

  lemma {:induction false} NoTagsParse()
    ensures ParseTags(JoinTags([])) == []
  {
    GoodTagsParse([]);
  }

  lemma {:induction false} TakeHead(f: Format, p: Parsing, m: Memory)
    ensures TakeAll(p, HeadMarks(f, m)) ==
            Parsing(Kept(p), Some(Draft(f.categoryName(m.category), f.trustName(m.trust), Some(m.content), [], None)))
  {
    var heading, content := HeadingMark(f.categoryName(m.category), f.trustName(m.trust)), ContentMark(m.content);
    assert [heading, content] == [heading] + [content];
    TakeAllConcat(p, [heading], [content]);
    TakeOne(p, heading);
    TakeOne(Take(p, heading), content);
  }

  lemma {:induction false} TakeTags(p: Parsing, m: Memory)
    requires p.current.Some? && p.current.value.tags == []
    ensures TakeAll(p, TagMarks(m)) == p.(current := Some(p.current.value.(tags := ParseTags(JoinTags(m.tags)))))
  {
    if m.tags == [] {
      NoTagsParse();
    } else {
      TakeOne(p, TagsMark(JoinTags(m.tags)));
    }
  }

  lemma {:induction false} TakeContext(p: Parsing, m: Memory)
    requires p.current.Some? && p.current.value.context == None
    ensures TakeAll(p, ContextMarks(m)) ==
            p.(current := Some(p.current.value.(context := if HasContext(m) then m.context else None)))
  {
    if HasContext(m) {
      TakeOne(p, ContextMark(m.context.value));
    }
  }

  lemma {:induction false} TakeRow(f: Format, p: Parsing, r: Row)
    requires r.memory.content != ""
    ensures Kept(TakeAll(p, RowMarks(f, r))) == Kept(p) + [Recovered(f, r)]
  {
    var m := r.memory;
    TakeAllConcat(p, HeadMarks(f, m) + TagMarks(m), ContextMarks(m));
    TakeAllConcat(p, HeadMarks(f, m), TagMarks(m));
    TakeHead(f, p, m);
    var p2 := TakeAll(p, HeadMarks(f, m));
    TakeTags(p2, m);
    TakeContext(TakeAll(p2, TagMarks(m)), m);
  }

  function RowsMarks(f: Format, rows: seq<Row>): seq<Mark> {
    if rows == [] then [] else RowsMarks(f, rows[..|rows| - 1]) + RowMarks(f, rows[|rows| - 1])
  }

  function Recovereds(f: Format, rows: seq<Row>): seq<Draft> {
    seq(|rows|, k requires 0 <= k < |rows| => Recovered(f, rows[k]))
  }

  lemma {:induction false} RecoveredsSnoc(f: Format, rows: seq<Row>)
    requires rows != []
    ensures Recovereds(f, rows) == Recovereds(f, rows[..|rows| - 1]) + [Recovered(f, rows[|rows| - 1])]
  {
  }

  lemma {:induction false} TakeRows(f: Format, rows: seq<Row>)
    requires forall k :: 0 <= k < |rows| ==> rows[k].memory.content != ""
    ensures Kept(TakeAll(Parsing([], None), RowsMarks(f, rows))) == Recovereds(f, rows)
  {
    if rows != [] {
      var rest, last := rows[..|rows| - 1], rows[|rows| - 1];
      TakeRows(f, rest);
      TakeAllConcat(Parsing([], None), RowsMarks(f, rest), RowMarks(f, last));
      TakeRow(f, TakeAll(Parsing([], None), RowsMarks(f, rest)), last);
      RecoveredsSnoc(f, rows);
    }
  }

  // ----- the groups -----

  /** The rows in the order of the export: by category name, and within a category as the query gave them. */
  function Grouped(rows: seq<Row>, cs: seq<Category>): seq<Row> {
    if cs == [] then [] else Grouped(rows, cs[..|cs| - 1]) + OfCategory(rows, cs[|cs| - 1])
  }

  function ExportOrder(rows: seq<Row>): seq<Row> {
    Grouped(rows, AllCategories())
  }

  ghost predicate AllRows(rows: seq<Row>, test: Row -> bool) {
    forall k :: 0 <= k < |rows| ==> test(rows[k])
  }

  lemma {:induction false} OfCategoryKeeps(rows: seq<Row>, c: Category, test: Row -> bool)
    requires AllRows(rows, test)
    ensures AllRows(OfCategory(rows, c), test)
  {
    if rows != [] { OfCategoryKeeps(rows[..|rows| - 1], c, test); }
  }

  lemma {:induction false} GroupedKeeps(rows: seq<Row>, cs: seq<Category>, test: Row -> bool)
    requires AllRows(rows, test)
    ensures AllRows(Grouped(rows, cs), test)
  {
    if cs != [] {
      GroupedKeeps(rows, cs[..|cs| - 1], test);
      OfCategoryKeeps(rows, cs[|cs| - 1], test);
    }
  }

  /** A row whose category is listed is among the grouped rows. */
  lemma {:induction false} OfCategoryHas(rows: seq<Row>, k: nat)
    requires k < |rows|
    ensures rows[k] in OfCategory(rows, rows[k].memory.category)
  {
    if k < |rows| - 1 { OfCategoryHas(rows[..|rows| - 1], k); }
  }

  lemma {:induction false} GroupedHas(rows: seq<Row>, cs: seq<Category>, r: Row)
    requires r.memory.category in cs && r in OfCategory(rows, r.memory.category)
    ensures r in Grouped(rows, cs)
  {
    if r.memory.category != cs[|cs| - 1] { GroupedHas(rows, cs[..|cs| - 1], r); }
  }

  lemma {:induction false} EveryCategoryListed(c: Category)
    ensures c in AllCategories()
  {
    var all := AllCategories();
    match c
    case Correction => assert all[0] == c;
    case Custom => assert all[1] == c;
    case Entity => assert all[2] == c;
    case Fact => assert all[3] == c;
    case Preference => assert all[4] == c;
  }

  lemma {:induction false} ExportOrderHas(rows: seq<Row>, k: nat)
    requires k < |rows|
    ensures rows[k] in ExportOrder(rows)
  {
    var c := rows[k].memory.category;
    var all := AllCategories();
    EveryCategoryListed(c);
    OfCategoryHas(rows, k);
    GroupedHas(rows, all, rows[k]);
  }

  predicate GoodForMarks(r: Row) {
    Plain(r) && OneLine(r)
  }

  lemma {:induction false} RowsItemsMarks(f: Format, word: CharTest, rows: seq<Row>)
    requires Readable(f) && IsWordTest(word) && AllRows(rows, GoodForMarks)
    ensures ItemsMarks(Classifier(f, word), RowsItems(f, rows)) == RowsMarks(f, rows)
  {
    if rows != [] {
      var rest, last := rows[..|rows| - 1], rows[|rows| - 1];
      RowsItemsMarks(f, word, rest);
      ItemsMarksConcat(Classifier(f, word), RowsItems(f, rest), RowItems(f, last));
      assert GoodForMarks(last);
      RowItemsMarks(f, word, last);
    }
  }

  lemma {:induction false} TitleMarks(f: Format, word: CharTest, title: string)
    requires Readable(f)
    requires '\n' !in title && |title| > 1 && title[0] == '#' && title[1] != '#'
    ensures ItemsMarks(Classifier(f, word), [title + "\n"]) == []
  {
    SkippedTitle(f, word, title);
    SkippedTitle(f, word, "");
    EndedLineMarks(Classifier(f, word), title);
    ItemsMarksOne(Classifier(f, word), title + "\n");
  }

  lemma {:induction false} GroupItemsMarks(f: Format, word: CharTest, rows: seq<Row>, c: Category)
    requires Readable(f) && IsWordTest(word) && AllRows(rows, GoodForMarks)
    ensures ItemsMarks(Classifier(f, word), GroupItems(f, rows, c)) == RowsMarks(f, OfCategory(rows, c))
  {
    var group := OfCategory(rows, c);
    OfCategoryKeeps(rows, c, GoodForMarks);
    if group != [] {
      var title := GroupTitle(f, c);
      TitleMarks(f, word, title);
      RowsItemsMarks(f, word, group);
      ItemsMarksConcat(Classifier(f, word), [title + "\n"], RowsItems(f, group));
    }
  }

  lemma {:induction false} RowsMarksConcat(f: Format, a: seq<Row>, b: seq<Row>)
    ensures RowsMarks(f, a + b) == RowsMarks(f, a) + RowsMarks(f, b)
  {
    if b == [] {
      assert a + b == a;
    } else {
      var rest, last := b[..|b| - 1], b[|b| - 1];
      assert (a + b)[..|a + b| - 1] == a + rest && (a + b)[|a + b| - 1] == last;
      RowsMarksConcat(f, a, rest);
      MarksAssociate(RowsMarks(f, a), RowsMarks(f, rest), RowMarks(f, last));
    }
  }

  lemma {:induction false} MarksAssociate(a: seq<Mark>, b: seq<Mark>, c: seq<Mark>)
    ensures a + (b + c) == a + b + c
  {
  }

  lemma {:induction false} GroupsItemsMarks(f: Format, word: CharTest, rows: seq<Row>, cs: seq<Category>)
    requires Readable(f) && IsWordTest(word) && AllRows(rows, GoodForMarks)
    ensures ItemsMarks(Classifier(f, word), GroupsItems(f, rows, cs)) == RowsMarks(f, Grouped(rows, cs))
  {
    if cs != [] {
      var rest, last := cs[..|cs| - 1], cs[|cs| - 1];
      GroupsItemsMarks(f, word, rows, rest);
      GroupItemsMarks(f, word, rows, last);
      ItemsMarksConcat(Classifier(f, word), GroupsItems(f, rows, rest), GroupItems(f, rows, last));
      RowsMarksConcat(f, Grouped(rows, rest), OfCategory(rows, last));
    }
  }

  lemma {:induction false} ExportMarks(f: Format, word: CharTest, rows: seq<Row>)
    requires Readable(f) && IsWordTest(word) && AllRows(rows, GoodForMarks) && rows != []
    ensures ItemMarks(Classifier(f, word), Export(f, rows)) == RowsMarks(f, ExportOrder(rows))
  {
    var groups := GroupsItems(f, rows, AllCategories());
    JoinedMarks(Classifier(f, word), [f.title + "\n"] + groups);
    TitleMarks(f, word, f.title);
    ItemsMarksConcat(Classifier(f, word), [f.title + "\n"], groups);
    GroupsItemsMarks(f, word, rows, AllCategories());
  }

  lemma {:induction false} EmptyExport(f: Format, word: CharTest)
    requires Readable(f)
    ensures Parse(f, word, Export(f, [])) == []
  {
    var classify := Classifier(f, word);
    var first, second := f.title + "\n", f.nothing + "\n";
    assert [first, second][1..] == [second];
    assert first + "\n" + second == f.title + "\n\n" + f.nothing + "\n";
    JoinedMarks(classify, [first, second]);
    TitleMarks(f, word, f.title);
    assert [first, second] == [first] + [second];
    ItemsMarksConcat(classify, [first], [second]);
    Skipped(f, word, f.nothing, "");
    assert f.nothing + "" == f.nothing;
    SkippedTitle(f, word, "");
    EndedLineMarks(classify, f.nothing);
    ItemsMarksOne(classify, second);
  }

  lemma {:induction false} OneLineRowsParsed(f: Format, word: CharTest, rows: seq<Row>)
    requires Readable(f) && IsWordTest(word) && AllRows(rows, GoodForMarks)
    ensures Parse(f, word, Export(f, rows)) == Recovereds(f, ExportOrder(rows))
  {
    var order := ExportOrder(rows);
    GroupedKeeps(rows, AllCategories(), GoodForMarks);
    if rows == [] {
      EmptyExport(f, word);
      NothingToExport(AllCategories());
    } else {
      ExportMarks(f, word, rows);
      assert forall k :: 0 <= k < |order| ==> GoodForMarks(order[k]);
      TakeRows(f, order);
    }
  }

  lemma {:induction false} NothingToExport(cs: seq<Category>)
    ensures Grouped([], cs) == []
  {
    if cs != [] { NothingToExport(cs[..|cs| - 1]); }
  }

  // ----- what any parse yields -----

  predicate CleanTags(tags: seq<string>) {
    forall k :: 0 <= k < |tags| ==> GoodTag(tags[k]) && '\n' !in tags[k]
  }

  predicate CleanDraft(d: Draft) {
    && (d.content.Some? ==> '\n' !in d.content.value)
    && CleanTags(d.tags)
    && (d.context.Some? ==> '\n' !in d.context.value)
  }

  predicate CleanMark(mark: Mark) {
    match mark
    case HeadingMark(_, _) => true
    case ContentMark(text) => '\n' !in text
    case TagsMark(text) => '\n' !in text
    case ContextMark(text) => '\n' !in text
  }

  ghost predicate KeepsClean(classify: Classify) {
    forall line :: '\n' !in line && classify(line).Some? ==> CleanMark(classify(line).value)
  }

  lemma {:induction false} TidyKeepsOut(parts: seq<string>, c: char)
    requires forall k :: 0 <= k < |parts| ==> c !in parts[k]
    ensures forall k :: 0 <= k < |Tidy(parts)| ==> c !in Tidy(parts)[k]
  {
    if parts != [] {
      TrimSubset(IsPySpace, parts[0], c);
      TidyKeepsOut(parts[1..], c);
    }
  }

  lemma {:induction false} ParsedTagsAreClean(text: string)
    requires '\n' !in text
    ensures CleanTags(ParseTags(text))
  {
    ParsedTagsAreGood(text);
    PartsAreClean(',', text);
    TidyKeepsOut(SplitOn(',', text), '\n');
  }

  lemma {:induction false} ClassifierKeepsClean(f: Format, word: CharTest)
    ensures KeepsClean(Classifier(f, word))
  {
    forall line | '\n' !in line && Classifier(f, word)(line).Some? ensures CleanMark(Classifier(f, word)(line).value) {
      assert Classifier(f, word)(line) == MarkOf(f, word, line);
    }
  }

  lemma {:induction false} MarksAreClean(classify: Classify, lines: seq<string>)
    requires KeepsClean(classify) && forall k :: 0 <= k < |lines| ==> '\n' !in lines[k]
    ensures forall k :: 0 <= k < |Marks(classify, lines)| ==> CleanMark(Marks(classify, lines)[k])
  {
    if lines != [] { MarksAreClean(classify, lines[..|lines| - 1]); }
  }

  predicate CleanEntry(d: Draft) {
    CleanDraft(d) && HasContent(d)
  }

  predicate CleanParsing(p: Parsing) {
    && (forall k :: 0 <= k < |p.entries| ==> CleanEntry(p.entries[k]))
    && (p.current.Some? ==> CleanDraft(p.current.value))
  }

  lemma {:induction false} TakeKeepsClean(p: Parsing, mark: Mark)
    requires CleanParsing(p) && CleanMark(mark)
    ensures CleanParsing(Take(p, mark))
  {
    if mark.TagsMark? {
      ParsedTagsAreClean(mark.text);
    }
  }

  lemma {:induction false} TakeAllKeepsClean(p: Parsing, marks: seq<Mark>)
    requires CleanParsing(p) && forall k :: 0 <= k < |marks| ==> CleanMark(marks[k])
    ensures CleanParsing(TakeAll(p, marks))
  {
    if marks != [] {
      TakeAllKeepsClean(p, marks[..|marks| - 1]);
      TakeKeepsClean(TakeAll(p, marks[..|marks| - 1]), marks[|marks| - 1]);
    }
  }

  /** Whatever the text, every entry read has content, and is one line with good tags. */
  lemma {:induction false} ParsedIsClean(f: Format, word: CharTest, text: string)
    ensures forall k :: 0 <= k < |Parse(f, word, text)| ==> CleanEntry(Parse(f, word, text)[k])
  {
    var marks := Marks(Classifier(f, word), SplitOn('\n', text));
    PartsAreClean('\n', text);
    ClassifierKeepsClean(f, word);
    MarksAreClean(Classifier(f, word), SplitOn('\n', text));
    TakeAllKeepsClean(Parsing([], None), marks);
  }

  // ----- the round trip -----

  /** What the importer stores for a parsed entry, or None if a name is unknown. */
  function EntryOf(names: Names, d: Draft): Option<Entry> {
    var category, trust := names.category(d.category), names.trust(d.trust);
    if category == None || trust == None || d.content == None then None
    else Some(MemoryStore.Entry(d.content.value, d.context, category.value, trust.value, d.tags, false, None))
  }

  function EntriesOf(names: Names, ds: seq<Draft>): seq<Option<Entry>> {
    seq(|ds|, k requires 0 <= k < |ds| => EntryOf(names, ds[k]))
  }

  function EntriesRead(f: Format, names: Names, word: CharTest, text: string): seq<Option<Entry>> {
    EntriesOf(names, Parse(f, word, text))
  }

  /** All that an export is for of a memory. */
  function Original(m: Memory): Option<Entry> {
    Some(MemoryStore.Entry(m.content, m.context, m.category, m.trust, m.tags, false, None))
  }

  function Originals(rows: seq<Row>): seq<Option<Entry>> {
    seq(|rows|, k requires 0 <= k < |rows| => Original(rows[k].memory))
  }

  /** The memory with tidied tags, and without an empty context. */
  function Tidied(m: Memory): Option<Entry> {
    Original(m.(tags := ParseTags(JoinTags(m.tags)), context := if m.context == Some("") then None else m.context))
  }

  function AllTidied(rows: seq<Row>): seq<Option<Entry>> {
    seq(|rows|, k requires 0 <= k < |rows| => Tidied(rows[k].memory))
  }

  lemma {:induction false} RecoveredIsTidied(f: Format, names: Names, r: Row)
    requires NamesRead(f, names)
    ensures EntryOf(names, Recovered(f, r)) == Tidied(r.memory)
  {
  }

  lemma {:induction false} RecoveredsAreTidied(f: Format, names: Names, rows: seq<Row>)
    requires NamesRead(f, names)
    ensures EntriesOf(names, Recovereds(f, rows)) == AllTidied(rows)
  {
    forall k | 0 <= k < |rows| ensures EntryOf(names, Recovered(f, rows[k])) == Tidied(rows[k].memory) {
      RecoveredIsTidied(f, names, rows[k]);
    }
  }

  /** Rows of one line each come back in order, with tidied tags and without empty contexts. */
  lemma {:induction false} OneLineRowsRecovered(f: Format, names: Names, word: CharTest, rows: seq<Row>)
    requires Readable(f) && NamesRead(f, names) && IsWordTest(word) && AllRows(rows, GoodForMarks)
    ensures EntriesRead(f, names, word, Export(f, rows)) == AllTidied(ExportOrder(rows))
  {
    OneLineRowsParsed(f, word, rows);
    RecoveredsAreTidied(f, names, ExportOrder(rows));
  }

  /** One non-empty line, a context only if it is not empty, and good tags. */
  predicate GoodRow(r: Row) {
    OneLine(r) && GoodTags(r.memory.tags) && r.memory.context != Some("")
  }

  lemma {:induction false} TidyIff(m: Memory)
    ensures Tidied(m) == Original(m) <==> GoodTags(m.tags) && m.context != Some("")
  {
    TagsReadBackIff(m.tags);
  }

  lemma {:induction false} GoodRowsRoundTrip(f: Format, names: Names, word: CharTest, rows: seq<Row>)
    requires Readable(f) && NamesRead(f, names) && IsWordTest(word)
    requires forall k :: 0 <= k < |rows| ==> Plain(rows[k]) && GoodRow(rows[k])
    ensures EntriesRead(f, names, word, Export(f, rows)) == Originals(ExportOrder(rows))
  {
    OneLineRowsRecovered(f, names, word, rows);
    var order := ExportOrder(rows);
    GroupedKeeps(rows, AllCategories(), GoodRow);
    forall k | 0 <= k < |order| ensures Tidied(order[k].memory) == Original(order[k].memory) {
      TidyIff(order[k].memory);
    }
  }

  /** A row that comes back is one line. */
  lemma {:induction false} RoundTripNeedsOneLine(f: Format, names: Names, word: CharTest, rows: seq<Row>, k: nat)
    requires EntriesRead(f, names, word, Export(f, rows)) == Originals(ExportOrder(rows)) && k < |rows|
    ensures OneLine(rows[k])
  {
    ExportOrderHas(rows, k);
    ParsedIsClean(f, word, Export(f, rows));
    var order, drafts := ExportOrder(rows), Parse(f, word, Export(f, rows));
    var j :| 0 <= j < |order| && order[j] == rows[k];
    assert Originals(order)[j] == Original(rows[k].memory);
    assert EntriesOf(names, drafts)[j] == EntryOf(names, drafts[j]);
    assert CleanEntry(drafts[j]) && CleanTags(drafts[j].tags);
  }

  /**
    Reading an export gives back the category, trust, content, tags and context of every memory, in the
    export's order, exactly if every row is good: the content one non-empty line, the context absent or
    one non-empty line, and each tag one trimmed, non-empty line without a comma.
   */
  lemma {:induction false} RoundTripIff(f: Format, names: Names, word: CharTest, rows: seq<Row>)
    requires Readable(f) && NamesRead(f, names) && IsWordTest(word)
    requires forall k :: 0 <= k < |rows| ==> Plain(rows[k])
    ensures EntriesRead(f, names, word, Export(f, rows)) == Originals(ExportOrder(rows)) <==>
            forall k :: 0 <= k < |rows| ==> GoodRow(rows[k])
  {
    if forall k :: 0 <= k < |rows| ==> GoodRow(rows[k]) {
      GoodRowsRoundTrip(f, names, word, rows);
    }
    if EntriesRead(f, names, word, Export(f, rows)) == Originals(ExportOrder(rows)) {
      forall k | 0 <= k < |rows| ensures OneLine(rows[k]) {
        RoundTripNeedsOneLine(f, names, word, rows, k);
      }
      OneLineRowsRecovered(f, names, word, rows);
      forall k | 0 <= k < |rows| ensures GoodRow(rows[k]) {
        TidyRowBack(rows, k);
      }
    }
  }

  lemma {:induction false} TidyRowBack(rows: seq<Row>, k: nat)
    requires AllTidied(ExportOrder(rows)) == Originals(ExportOrder(rows)) && k < |rows| && OneLine(rows[k])
    ensures GoodRow(rows[k])
  {
    ExportOrderHas(rows, k);
    var order := ExportOrder(rows);
    var j :| 0 <= j < |order| && order[j] == rows[k];
    assert AllTidied(order)[j] == Tidied(order[j].memory) && Originals(order)[j] == Original(order[j].memory);
    TidyIff(rows[k].memory);
  }

  // ----- the order -----

  function Rank(c: Category): nat {
    match c
    case Correction => 0
    case Custom => 1
    case Entity => 2
    case Fact => 3
    case Preference => 4
  }

  /** The order of strings, which the query sorts the category names by. */
  predicate Less(a: string, b: string) {
    b != "" && (a == "" || a[0] < b[0] || (a[0] == b[0] && Less(a[1..], b[1..])))
  }

  lemma {:induction false} LessAt(a: string, b: string, k: nat)
    requires k < |a| && k < |b| && a[..k] == b[..k] && a[k] < b[k]
    ensures Less(a, b) && !Less(b, a)
  {
    if k > 0 {
      assert a[0] == a[..k][0] == b[..k][0] == b[0];
      assert a[1..][..k - 1] == a[..k][1..] == b[..k][1..] == b[1..][..k - 1];
      LessAt(a[1..], b[1..], k - 1);
    }
  }

  lemma {:induction false} NamesSorted()
    ensures Less(CategoryName(MemoryStore.Correction), CategoryName(MemoryStore.Custom))
    ensures Less(CategoryName(MemoryStore.Custom), CategoryName(MemoryStore.Entity))
    ensures Less(CategoryName(MemoryStore.Entity), CategoryName(MemoryStore.Fact))
    ensures Less(CategoryName(MemoryStore.Fact), CategoryName(MemoryStore.Preference))
  {
    LessAt("correction", "custom", 1);
    LessAt("custom", "entity", 0);
    LessAt("entity", "fact", 0);
    LessAt("fact", "preference", 0);
  }

  lemma {:induction false} LessIsTransitive(a: string, b: string, c: string)
    requires Less(a, b) && Less(b, c)
    ensures Less(a, c)
  {
    if a != "" && a[0] == b[0] == c[0] { LessIsTransitive(a[1..], b[1..], c[1..]); }
  }

  lemma {:induction false} LessIsStrict(a: string, b: string)
    requires Less(a, b)
    ensures !Less(b, a)
  {
    if a != "" && a[0] == b[0] { LessIsStrict(a[1..], b[1..]); }
  }

  lemma {:induction false} NextRankLess(a: Category, b: Category)
    requires Rank(b) == Rank(a) + 1
    ensures Less(CategoryName(a), CategoryName(b))
  {
    NamesSorted();
  }

  lemma {:induction false} HigherRankLess(a: Category, b: Category)
    requires Rank(a) < Rank(b)
    ensures Less(CategoryName(a), CategoryName(b))
    decreases Rank(b)
  {
    if Rank(b) == Rank(a) + 1 {
      NextRankLess(a, b);
    } else {
      var c := AllCategories()[Rank(b) - 1];
      HigherRankLess(a, c);
      NextRankLess(c, b);
      LessIsTransitive(CategoryName(a), CategoryName(c), CategoryName(b));
    }
  }

  /** No row stands behind one whose category has a later name. */
  predicate SortedByCategory(rows: seq<Row>) {
    forall j, k :: 0 <= j < k < |rows| ==>
      !Less(CategoryName(rows[k].memory.category), CategoryName(rows[j].memory.category))
  }

  lemma {:induction false} SortedByRank(rows: seq<Row>, j: nat, k: nat)
    requires SortedByCategory(rows) && j < k < |rows|
    ensures Rank(rows[j].memory.category) <= Rank(rows[k].memory.category)
  {
    if Rank(rows[k].memory.category) < Rank(rows[j].memory.category) {
      HigherRankLess(rows[k].memory.category, rows[j].memory.category);
      assert false;
    }
  }

  lemma {:induction false} NoneOfCategory(rows: seq<Row>, c: Category)
    requires forall k :: 0 <= k < |rows| ==> rows[k].memory.category != c
    ensures OfCategory(rows, c) == []
  {
    if rows != [] { NoneOfCategory(rows[..|rows| - 1], c); }
  }

  predicate InRankOrder(cs: seq<Category>) {
    forall n :: 0 <= n < |cs| ==> Rank(cs[n]) == n
  }

  lemma {:induction false} SameRank(a: Category, b: Category)
    requires Rank(a) == Rank(b)
    ensures a == b
  {
  }

  lemma {:induction false} OfCategorySnoc(rows: seq<Row>, r: Row, c: Category)
    ensures OfCategory(rows + [r], c) == OfCategory(rows, c) + if r.memory.category == c then [r] else []
  {
    assert (rows + [r])[..|rows|] == rows;
  }

  /** A row of the last category so far goes behind all the others of the listed categories. */
  lemma {:induction false} GroupedSnoc(rows: seq<Row>, r: Row, cs: seq<Category>)
    requires InRankOrder(cs)
    requires forall k :: 0 <= k < |rows| ==> Rank(rows[k].memory.category) <= Rank(r.memory.category)
    ensures Grouped(rows + [r], cs) == Grouped(rows, cs) + if Rank(r.memory.category) < |cs| then [r] else []
  {
    if cs != [] {
      var rest, c := cs[..|cs| - 1], cs[|cs| - 1];
      GroupedSnoc(rows, r, rest);
      OfCategorySnoc(rows, r, c);
      assert Rank(c) == |rest|;
      var rank := Rank(r.memory.category);
      if rank < |rest| {
        NoneOfCategory(rows, c);
      } else if rank == |rest| {
        SameRank(r.memory.category, c);
      }
      RowBetween(Grouped(rows, rest), if rank < |rest| then [r] else [],
        OfCategory(rows, c), if rank == |rest| then [r] else []);
    }
  }

  lemma {:induction false} RowBetween(before: seq<Row>, first: seq<Row>, group: seq<Row>, second: seq<Row>)
    requires first == [] || (group == [] && second == [])
    ensures before + first + (group + second) == before + group + (first + second)
  {
  }

  /** The query sorts by category name, so its rows are exported in the order it returns them. */
  lemma {:induction false} SortedRowsKeepOrder(rows: seq<Row>)
    requires SortedByCategory(rows)
    ensures ExportOrder(rows) == rows
  {
    if rows == [] {
      NothingToExport(AllCategories());
    } else {
      var rest, last := rows[..|rows| - 1], rows[|rows| - 1];
      assert rows == rest + [last];
      SortedRowsKeepOrder(rest);
      forall k | 0 <= k < |rest| ensures Rank(rest[k].memory.category) <= Rank(last.memory.category) {
        SortedByRank(rows, k, |rows| - 1);
      }
      assert InRankOrder(AllCategories());
      GroupedSnoc(rest, last, AllCategories());
      RankBelow(last.memory.category);
    }
  }

  lemma {:induction false} RankBelow(c: Category)
    ensures Rank(c) < |AllCategories()|
  {
  }
}
