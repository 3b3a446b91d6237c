/** The setup driver's status blocks: the printer and the chunk-fed parser. */
module StatusStreams {
  import opened Strings
  import opened TextPieces
  import opened Wrappers

  const START: string := "=== NANOCLAW SETUP: "
  const CLOSE: string := " ==="
  const END: string := "=== END ==="

  datatype Block = Block(kind: string, fields: map<string, string>)

  predicate NotSpace(c: char) { !IsJsSpace(c) }

  predicate NoSpace(s: string) {
    forall i :: 0 <= i < |s| ==> !IsJsSpace(s[i])
  }

  // ----- one line -----

  /** The text matched by `\S+` in the pattern `^(before)(\S+)(after)`, when after starts with a space. */
  function MatchBetween(before: string, after: string, line: string): Option<string> {
    if !(before <= line) then None else
    var rest := line[|before|..];
    var n := Run(NotSpace, rest);
    if n > 0 && after <= rest[n..] then Some(rest[..n]) else None
  }

  /** The pattern has at most one reading: the group ends at the first white space. */
  lemma {:induction false} MatchBetweenExact(before: string, after: string, line: string, kind: string)
    requires after != "" && IsJsSpace(after[0])
    ensures MatchBetween(before, after, line) == Some(kind) <==>
            kind != "" && NoSpace(kind) && before + kind + after <= line
  {
    if kind != "" && NoSpace(kind) && before + kind + after <= line {
      MatchBetweenFinds(before, after, kind, line[|before + kind + after|..]);
      assert line == before + kind + after + line[|before + kind + after|..];
    }
    if MatchBetween(before, after, line) == Some(kind) {
      MatchBetweenSound(before, after, line);
    }
  }

  lemma {:induction false} PrefixChain(before: string, kind: string, after: string, rest: string)
    requires after <= rest
    ensures before + kind + after <= before + (kind + rest)
  {
    assert rest == after + rest[|after|..];
    assert before + (kind + rest) == before + kind + after + rest[|after|..];
  }

  lemma {:induction false} MatchBetweenSound(before: string, after: string, line: string)
    requires MatchBetween(before, after, line).Some?
    ensures var kind := MatchBetween(before, after, line).value;
            kind != "" && NoSpace(kind) && before + kind + after <= line
  {
    var rest := line[|before|..];
    var n := Run(NotSpace, rest);
    assert line == before + rest && rest == rest[..n] + rest[n..];
    PrefixChain(before, rest[..n], after, rest[n..]);
  }

  lemma {:induction false} MatchBetweenFinds(before: string, after: string, kind: string, tail: string)
    requires after != "" && IsJsSpace(after[0]) && kind != "" && NoSpace(kind)
    ensures MatchBetween(before, after, before + kind + after + tail) == Some(kind)
  {
    var line := before + kind + after + tail;
    var rest := kind + (after + tail);
    assert line[|before|..] == rest;
    RunIs(NotSpace, rest, |kind|);
    assert rest[|kind|..] == after + tail;
  }

  /** `line.match(/^=== NANOCLAW SETUP: (\S+) ===/)`, as its group. */
  function MatchStart(line: string): Option<string> {
    MatchBetween(START, CLOSE, line)
  }

  /** A plain object drops a string stored under this key. */
  const PROTO: string := "__proto__"

  function SetField(block: Block, line: string): Block {
    var colon := IndexOf(line, ':');
    if colon == -1 then block else
    var key, value := Trim(IsJsSpace, line[..colon]), Trim(IsJsSpace, line[colon + 1..]);
    if key == "" || key == PROTO then block else block.(fields := block.fields[key := value])
  }

  /** The block parser between lines; `calls` lists the blocks its callback was given. */
  datatype Parser = Parser(current: Option<Block>, blocks: seq<Block>, calls: seq<Block>)

  function ProcessLine(p: Parser, line: string): Parser {
    var start := MatchStart(line);
    if start.Some? then p.(current := Some(Block(start.value, map[])))
    else if END <= line then
      if p.current == None then p
      else Parser(None, p.blocks + [p.current.value], p.calls + [p.current.value])
    else if p.current == None then p
    else p.(current := Some(SetField(p.current.value, line)))
  }

  // ----- chunks -----

  datatype State = State(parser: Parser, lineBuf: string)

  type LineStep = (Parser, string) -> Parser

  /** One character: a newline ends the line in the buffer, any other is added to it. */
  function FeedChar(step: LineStep, s: State, c: char): State {
    if c == '\n' then State(step(s.parser, s.lineBuf), "") else s.(lineBuf := s.lineBuf + [c])
  }

  function Feed(step: LineStep, s: State, text: string): State {
    if text == "" then s else FeedChar(step, Feed(step, s, text[..|text| - 1]), text[|text| - 1])
  }

  lemma {:induction false} FeedConcat(step: LineStep, s: State, a: string, b: string)
    ensures Feed(step, s, a + b) == Feed(step, Feed(step, s, a), b)
  {
    if b == "" {
      assert a + b == a;
    } else {
      assert (a + b)[..|a + b| - 1] == a + b[..|b| - 1];
      FeedConcat(step, s, a, b[..|b| - 1]);
    }
  }

  lemma {:induction false} FeedWithoutNewline(step: LineStep, s: State, text: string)
    requires '\n' !in text
    ensures Feed(step, s, text) == s.(lineBuf := s.lineBuf + text)
  {
    if text != "" {
      FeedWithoutNewline(step, s, text[..|text| - 1]);
    }
  }

  lemma {:induction false} FeedRest(step: LineStep, p: Parser, text: string)
    requires '\n' !in text
    ensures Feed(step, State(p, ""), text) == State(p, text)
  {
    FeedWithoutNewline(step, State(p, ""), text);
    assert "" + text == text;
  }

  /** The buffer and a new chunk are read as one text. */
  lemma {:induction false} FeedBuffer(step: LineStep, s: State, chunk: string)
    requires '\n' !in s.lineBuf
    ensures Feed(step, s, chunk) == Feed(step, State(s.parser, ""), s.lineBuf + chunk)
  {
    FeedRest(step, s.parser, s.lineBuf);
    FeedConcat(step, State(s.parser, ""), s.lineBuf, chunk);
  }

  lemma {:induction false} FeedEndsLine(step: LineStep, s: State, text: string)
    requires if text == "" then s.lineBuf == "" else text[|text| - 1] == '\n'
    ensures Feed(step, s, text).lineBuf == ""
  {
  }

  lemma {:induction false} FeedOneLine(step: LineStep, p: Parser, line: string)
    requires '\n' !in line
    ensures Feed(step, State(p, ""), line + "\n") == State(step(p, line), "")
  {
    FeedRest(step, p, line);
    assert (line + "\n")[..|line|] == line;
  }

  /** What one pass of the loop in `write` does to the text in its buffer. */
  lemma {:induction false} FeedLine(step: LineStep, p: Parser, line: string, rest: string)
    requires '\n' !in line
    ensures Feed(step, State(p, ""), line + "\n" + rest) == Feed(step, State(step(p, line), ""), rest)
  {
    FeedOneLine(step, p, line);
    FeedConcat(step, State(p, ""), line + "\n", rest);
  }

  function WriteChunk(s: State, chunk: string): State {
    Feed(ProcessLine, s, chunk)
  }

  function WriteChunks(s: State, chunks: seq<string>): State
    decreases |chunks|
  {
    if chunks == [] then s else WriteChunks(WriteChunk(s, chunks[0]), chunks[1..])
  }

  lemma {:induction false} CutLine(text: string, idx: nat)
    requires idx < |text| && text[idx] == '\n'
    ensures text == text[..idx] + "\n" + text[idx + 1..]
  {
  }

  class StatusStream {
    var lineBuf: string
    var current: Option<Block>
    var blocks: seq<Block>
    var transcript: string
    /** The blocks handed to onBlock, in call order. */
    ghost var calls: seq<Block>

    ghost function Contents(): State
      reads this
    {
      State(Parser(current, blocks, calls), lineBuf)
    }

    constructor ()
      ensures Contents() == State(Parser(None, [], []), "") && transcript == ""
    {
      lineBuf, current, blocks, transcript, calls := "", None, [], "", [];
    }

    method Write(chunk: string)
      requires '\n' !in lineBuf
      modifies this
      ensures Contents() == WriteChunk(old(Contents()), chunk)
      ensures '\n' !in lineBuf
      ensures transcript == old(transcript) + chunk
    {
      ghost var target := WriteChunk(Contents(), chunk);
      FeedBuffer(ProcessLine, Contents(), chunk);
      transcript := transcript + chunk;
      lineBuf := lineBuf + chunk;
      var idx := IndexOf(lineBuf, '\n');
      while idx != -1
        invariant idx == IndexOf(lineBuf, '\n')
        invariant Feed(ProcessLine, State(Contents().parser, ""), lineBuf) == target
        invariant transcript == old(transcript) + chunk
        decreases |lineBuf|
      {
        var line := lineBuf[..idx];
        CutLine(lineBuf, idx);
        FeedLine(ProcessLine, Contents().parser, line, lineBuf[idx + 1..]);
        lineBuf := lineBuf[idx + 1..];
        ConsumeLine(line);
        idx := IndexOf(lineBuf, '\n');
      }
      FeedRest(ProcessLine, Contents().parser, lineBuf);
    }

    /** `processLine` */
    method ConsumeLine(line: string)
      modifies this`current, this`blocks, this`calls
      ensures Contents().parser == ProcessLine(old(Contents().parser), line)
    {
      var start := MatchStart(line);
      if start.Some? {
        current := Some(Block(start.value, map[]));
        return;
      }
      if END <= line {
        if current.Some? {
          blocks := blocks + [current.value];
          calls := calls + [current.value];
          current := None;
        }
        return;
      }
      if current == None {
        return;
      }
      ConsumeField(line);
    }

    method ConsumeField(line: string)
      requires current.Some?
      modifies this`current
      ensures current == Some(SetField(old(current).value, line))
    {
      var colon := IndexOf(line, ':');
      if colon == -1 {
        return;
      }
      var key := Trim(IsJsSpace, line[..colon]);
      var value := Trim(IsJsSpace, line[colon + 1..]);
      if key != "" && key != PROTO {
        var block := current.value;
        current := Some(block.(fields := block.fields[key := value]));
      }
    }
  }

  /** However a text is cut into chunks, the parser ends in the state one write of it gives. */
  lemma {:induction false} ChunkInvariant(s: State, chunks: seq<string>)
    ensures WriteChunks(s, chunks) == WriteChunk(s, Concat(chunks))
    decreases |chunks|
  {
    if chunks != [] {
      ChunkInvariant(WriteChunk(s, chunks[0]), chunks[1..]);
      FeedConcat(ProcessLine, s, chunks[0], Concat(chunks[1..]));
    }
  }

  // ----- the printer -----

  /** An object's own fields in enumeration order: no key occurs twice. */
  type Entries = seq<(string, string)>

  function FieldLine(key: string, value: string): string {
    key + ": " + value
  }

  function FieldLines(entries: Entries): seq<string> {
    if entries == [] then [] else [FieldLine(entries[0].0, entries[0].1)] + FieldLines(entries[1..])
  }

  function StatusLines(kind: string, entries: Entries): seq<string> {
    ["=== NANOCLAW SETUP: " + kind + " ==="] + FieldLines(entries) + ["=== END ==="]
  }

  /** The lines, each ended by a newline: joined by newlines, with the one console.log adds. */
  function Text(lines: seq<string>): string {
    if lines == [] then "" else lines[0] + "\n" + Text(lines[1..])
  }

  lemma {:induction false} JoinIsText(lines: seq<string>)
    requires lines != []
    ensures JoinWith("\n", lines) + "\n" == Text(lines)
  {
    if |lines| > 1 {
      JoinIsText(lines[1..]);
      assert JoinWith("\n", lines) + "\n" == lines[0] + "\n" + (JoinWith("\n", lines[1..]) + "\n");
    } else {
      assert lines[1..] == [];
    }
  }

  lemma {:induction false} FieldLinesSnoc(entries: Entries, e: (string, string))
    ensures FieldLines(entries + [e]) == FieldLines(entries) + [FieldLine(e.0, e.1)]
  {
    if entries == [] {
      assert [e][1..] == [];
    } else {
      assert (entries + [e])[1..] == entries[1..] + [e];
      FieldLinesSnoc(entries[1..], e);
    }
  }

  /** What console.log sends to standard output. */
  method EmitStatus(step: string, fields: Entries) returns (output: string)
    ensures output == Text(StatusLines(step, fields))
  {
    var lines := ["=== NANOCLAW SETUP: " + step + " ==="];
    for i := 0 to |fields|
      invariant lines == ["=== NANOCLAW SETUP: " + step + " ==="] + FieldLines(fields[..i])
    {
      assert fields[..i + 1] == fields[..i] + [fields[i]];
      FieldLinesSnoc(fields[..i], fields[i]);
      lines := lines + [FieldLine(fields[i].0, fields[i].1)];
    }
    assert fields[..|fields|] == fields;
    lines := lines + ["=== END ==="];
    JoinIsText(lines);
    output := JoinWith("\n", lines) + "\n";
  }

  // ----- printing, then parsing -----

  /** The fields a caller may print and expect back. */
  predicate GoodField(key: string, value: string) {
    && key != "" && key != "__proto__" && Trimmed(IsJsSpace, key) && ':' !in key
    && Trimmed(IsJsSpace, value)
    && !(END <= key)
    && MatchStart(FieldLine(key, value)) == None
  }

  /**
    Exactly the good fields survive: from an open block without the key, the printed line adds the
    key with its value if and only if the field is good.
   */
  lemma {:induction false} FieldRoundTripExact(p: Parser, key: string, value: string)
    requires p.current.Some? && key !in p.current.value.fields
    ensures ProcessLine(p, FieldLine(key, value)) ==
            p.(current := Some(p.current.value.(fields := p.current.value.fields[key := value])))
            <==> GoodField(key, value)
  {
    var line, block := FieldLine(key, value), p.current.value;
    var wanted := block.(fields := block.fields[key := value]);
    EndInKey(key, value);
    SetFieldExact(block, key, value);
    assert key in wanted.fields;
  }

  lemma {:induction false} SetFieldExact(block: Block, key: string, value: string)
    requires key !in block.fields
    ensures SetField(block, FieldLine(key, value)) == block.(fields := block.fields[key := value])
            <==> key != "" && key != PROTO && Trimmed(IsJsSpace, key) && ':' !in key && Trimmed(IsJsSpace, value)
  {
    var line := FieldLine(key, value);
    var wanted := block.(fields := block.fields[key := value]);
    assert wanted.fields[key] == value;
    if ':' !in key {
      SplitAtColon(key, value);
      TrimIsTrimmed(IsJsSpace, key);
      TrimIsTrimmed(IsJsSpace, value);
    } else {
      FirstColonInKey(key, value);
      TrimIsTrimmed(IsJsSpace, line[..IndexOf(line, ':')]);
      assert key !in SetField(block, line).fields;
    }
  }

  lemma {:induction false} FirstColonInKey(key: string, value: string)
    requires ':' in key
    ensures IndexOf(FieldLine(key, value), ':') < |key|
  {
    var i := IndexOf(key, ':');
    IndexOfIs(FieldLine(key, value), ':', i);
  }

  lemma {:induction false} SplitAtColon(key: string, value: string)
    requires ':' !in key
    ensures IndexOf(FieldLine(key, value), ':') == |key|
    ensures FieldLine(key, value)[..|key|] == key
    ensures Trim(IsJsSpace, FieldLine(key, value)[|key| + 1..]) == Trim(IsJsSpace, value)
  {
    var line := FieldLine(key, value);
    assert line[..|key|] == key;
    IndexOfIs(line, ':', |key|);
    assert line[|key| + 1..] == " " + value;
    TrimAfterSpace(IsJsSpace, ' ', value);
  }

  /** The end marker has no colon, so it starts a field line only if it starts the key. */
  lemma {:induction false} EndInKey(key: string, value: string)
    ensures END <= FieldLine(key, value) <==> END <= key
  {
    PrefixWithoutColon(END, key, value);
  }

  lemma {:induction false} PrefixWithoutColon(mark: string, key: string, value: string)
    requires ':' !in mark
    ensures mark <= FieldLine(key, value) <==> mark <= key
  {
    var line := FieldLine(key, value);
    assert line[..|key|] == key && line[|key|] == ':';
    var atColon := if |key| < |mark| then mark[|key|] else '-';
    assert atColon != ':';
    assert mark <= line ==> |mark| <= |key|;
    assert |mark| <= |key| ==> line[..|mark|] == key[..|mark|];
  }

  function FoldLines(step: LineStep, p: Parser, lines: seq<string>): Parser
    decreases |lines|
  {
    if lines == [] then p else FoldLines(step, step(p, lines[0]), lines[1..])
  }

  ghost predicate OneLineEach(lines: seq<string>) {
    forall i :: 0 <= i < |lines| ==> '\n' !in lines[i]
  }

  lemma {:induction false} FeedText(step: LineStep, p: Parser, lines: seq<string>)
    requires OneLineEach(lines)
    ensures Feed(step, State(p, ""), Text(lines)) == State(FoldLines(step, p, lines), "")
    decreases |lines|
  {
    if lines != [] {
      var line, rest := lines[0], Text(lines[1..]);
      FeedLine(step, p, line, rest);
      FeedText(step, step(p, line), lines[1..]);
    }
  }

  lemma {:induction false} FoldLinesSplit(step: LineStep, p: Parser, a: seq<string>, b: seq<string>)
    ensures FoldLines(step, p, a + b) == FoldLines(step, FoldLines(step, p, a), b)
    decreases |a|
  {
    if a == [] {
      assert a + b == b;
    } else {
      assert (a + b)[1..] == a[1..] + b;
      FoldLinesSplit(step, step(p, a[0]), a[1..], b);
    }
  }

  function AddFields(fields: map<string, string>, entries: Entries): map<string, string>
    decreases |entries|
  {
    if entries == [] then fields else AddFields(fields[entries[0].0 := entries[0].1], entries[1..])
  }

  ghost predicate DistinctKeys(entries: Entries) {
    forall i, j :: 0 <= i < j < |entries| ==> entries[i].0 != entries[j].0
  }

  /** The parsed object holds the printed fields and no others. */
  lemma {:induction false} AddFieldsExact(fields: map<string, string>, entries: Entries)
    requires DistinctKeys(entries)
    ensures forall i :: 0 <= i < |entries| ==>
              entries[i].0 in AddFields(fields, entries) && AddFields(fields, entries)[entries[i].0] == entries[i].1
    ensures forall k :: k in AddFields(fields, entries) <==>
              k in fields || exists i :: 0 <= i < |entries| && entries[i].0 == k
    ensures forall k :: k in fields && (forall i :: 0 <= i < |entries| ==> entries[i].0 != k) ==>
              AddFields(fields, entries)[k] == fields[k]
    decreases |entries|
  {
    if entries != [] {
      var e, rest := entries[0], entries[1..];
      AddFieldsExact(fields[e.0 := e.1], rest);
      assert forall i :: 1 <= i < |entries| ==> entries[i] == rest[i - 1];
      assert forall i :: 0 <= i < |rest| ==> rest[i] == entries[i + 1];
    }
  }

  predicate Printable(key: string, value: string) {
    GoodField(key, value) && '\n' !in key && '\n' !in value
  }

  ghost predicate AllPrintable(entries: Entries) {
    forall i :: 0 <= i < |entries| ==> Printable(entries[i].0, entries[i].1)
  }

  lemma {:induction false} FieldLinesParse(p: Parser, entries: Entries)
    requires p.current.Some? && AllPrintable(entries)
    ensures var block := p.current.value;
            FoldLines(ProcessLine, p, FieldLines(entries)) ==
            p.(current := Some(block.(fields := AddFields(block.fields, entries))))
    ensures OneLineEach(FieldLines(entries))
    decreases |entries|
  {
    if entries != [] {
      var key, value := entries[0].0, entries[0].1;
      FieldLineParses(p, key, value);
      FieldLinesParse(ProcessLine(p, FieldLine(key, value)), entries[1..]);
    }
  }

  lemma {:induction false} FieldLineParses(p: Parser, key: string, value: string)
    requires p.current.Some? && Printable(key, value)
    ensures '\n' !in FieldLine(key, value)
    ensures ProcessLine(p, FieldLine(key, value)) ==
            p.(current := Some(p.current.value.(fields := p.current.value.fields[key := value])))
  {
    EndInKey(key, value);
    SplitAtColon(key, value);
    TrimIsTrimmed(IsJsSpace, value);
  }

  lemma {:induction false} ControlLines(p: Parser, kind: string)
    requires kind != "" && NoSpace(kind)
    ensures ProcessLine(p, START + kind + CLOSE) == p.(current := Some(Block(kind, map[])))
    ensures '\n' !in START + kind + CLOSE && '\n' !in END
  {
    MatchBetweenExact(START, CLOSE, START + kind + CLOSE, kind);
    assert '\n' !in kind;
  }

  lemma {:induction false} EndLine(p: Parser)
    requires p.current.Some?
    ensures ProcessLine(p, END) == Parser(None, p.blocks + [p.current.value], p.calls + [p.current.value])
  {
  }

  /**
    Printed, then parsed: at a line boundary, whatever the parser was doing, the printed lines add
    exactly one block, of the same kind and with the same fields, and call back once.
   */
  lemma {:induction false} PrintedBlockParses(s: State, kind: string, entries: Entries)
    requires s.lineBuf == ""
    requires kind != "" && NoSpace(kind) && AllPrintable(entries)
    ensures var block := Block(kind, AddFields(map[], entries));
            WriteChunk(s, Text(StatusLines(kind, entries))) ==
            State(Parser(None, s.parser.blocks + [block], s.parser.calls + [block]), "")
  {
    var p := s.parser;
    var first, fields, last := [START + kind + CLOSE], FieldLines(entries), [END];
    var p1 := p.(current := Some(Block(kind, map[])));
    ControlLines(p, kind);
    FieldLinesParse(p1, entries);
    var p2 := FoldLines(ProcessLine, p1, fields);
    EndLine(p2);
    FoldLinesSplit(ProcessLine, p, first + fields, last);
    FoldLinesSplit(ProcessLine, p, first, fields);
    assert first[1..] == [] && last[1..] == [];
    assert OneLineEach(first + fields + last);
    FeedText(ProcessLine, p, StatusLines(kind, entries));
  }

  // ----- the result of a step -----

  predicate HasStatus(block: Block) {
    "STATUS" in block.fields && block.fields["STATUS"] != ""
  }

  /** `[...blocks].reverse().find((b) => b.fields.STATUS) ?? null` */
  function Terminal(blocks: seq<Block>): (t: Option<Block>)
    ensures t.Some? ==> HasStatus(t.value) && t.value in blocks
    ensures t == None ==> forall b :: b in blocks ==> !HasStatus(b)
  {
    if blocks == [] then None
    else if HasStatus(blocks[|blocks| - 1]) then Some(blocks[|blocks| - 1])
    else Terminal(blocks[..|blocks| - 1])
  }

  /** A field of this name with a text that is not empty. */
  ghost predicate SaysStatus(block: Block) {
    exists status :: status != "" && ("STATUS", status) in block.fields.Items
  }

  lemma {:induction false} SaysStatusIff(block: Block)
    ensures SaysStatus(block) <==> HasStatus(block)
  {
    if HasStatus(block) {
      assert ("STATUS", block.fields["STATUS"]) in block.fields.Items;
    }
  }

  type BlockTest = Block -> bool

  ghost function StatusTest(): BlockTest {
    block => SaysStatus(block)
  }

  /** Block k passes the test, and none behind it does. */
  predicate LastToPass(blocks: seq<Block>, test: BlockTest, k: int) {
    0 <= k < |blocks| && test(blocks[k]) && forall j :: k < j < |blocks| ==> !test(blocks[j])
  }

  predicate NonePasses(blocks: seq<Block>, test: BlockTest) {
    forall k :: 0 <= k < |blocks| ==> !test(blocks[k])
  }

  lemma {:induction false} PassedBefore(blocks: seq<Block>, test: BlockTest, k: int)
    requires blocks != [] && !test(blocks[|blocks| - 1])
    ensures LastToPass(blocks[..|blocks| - 1], test, k) ==> LastToPass(blocks, test, k)
    ensures NonePasses(blocks[..|blocks| - 1], test) ==> NonePasses(blocks, test)
  {
    var rest := blocks[..|blocks| - 1];
    assert forall j :: 0 <= j < |rest| ==> rest[j] == blocks[j];
  }

  lemma {:induction false} TerminalPasses(blocks: seq<Block>, test: BlockTest)
    requires forall b :: test(b) <==> HasStatus(b)
    ensures Terminal(blocks).Some? ==> exists k :: LastToPass(blocks, test, k) && Terminal(blocks).value == blocks[k]
    ensures Terminal(blocks) == None ==> NonePasses(blocks, test)
  {
    if blocks != [] && test(blocks[|blocks| - 1]) {
      assert LastToPass(blocks, test, |blocks| - 1);
    } else if blocks != [] {
      var rest := blocks[..|blocks| - 1];
      TerminalPasses(rest, test);
      if Terminal(rest).Some? {
        var k :| LastToPass(rest, test, k) && Terminal(rest).value == rest[k];
        PassedBefore(blocks, test, k);
      } else {
        PassedBefore(blocks, test, 0);
      }
    }
  }

  /** The result of a step is its last block with a status; it is missing exactly if no block has one. */
  lemma {:induction false} TerminalIsLast(blocks: seq<Block>)
    ensures Terminal(blocks).Some? ==>
              exists k :: LastToPass(blocks, StatusTest(), k) && Terminal(blocks).value == blocks[k]
    ensures Terminal(blocks) == None ==> NonePasses(blocks, StatusTest())
  {
    forall b ensures StatusTest()(b) <==> HasStatus(b) {
      SaysStatusIff(b);
    }
    TerminalPasses(blocks, StatusTest());
  }

  predicate StepOk(exitCode: Option<int>, blocks: seq<Block>) {
    && exitCode == Some(0)
    && Terminal(blocks).Some?
    && Terminal(blocks).value.fields["STATUS"] in {"success", "skipped"}
  }

  lemma {:induction false} NoiseThenBlock(chunks: seq<string>, noise: string, kind: string, entries: Entries)
    requires Concat(chunks) == noise + Text(StatusLines(kind, entries))
    requires noise == "" || noise[|noise| - 1] == '\n'
    requires kind != "" && NoSpace(kind) && AllPrintable(entries)
    ensures var blocks := WriteChunks(State(Parser(None, [], []), ""), chunks).parser.blocks;
            blocks != [] && blocks[|blocks| - 1] == Block(kind, AddFields(map[], entries))
  {
    var start := State(Parser(None, [], []), "");
    ChunkInvariant(start, chunks);
    FeedEndsLine(ProcessLine, start, noise);
    FeedConcat(ProcessLine, start, noise, Text(StatusLines(kind, entries)));
    PrintedBlockParses(WriteChunk(start, noise), kind, entries);
  }

  /**
    A step that prints anything, then a status block as its last lines, is judged by that block:
    however the decoded output is cut into chunks, and whatever blocks came before.
   */
  lemma {:induction false} StepJudgedByLastBlock(chunks: seq<string>, noise: string, kind: string, entries: Entries,
                              status: string, exitCode: Option<int>)
    requires Concat(chunks) == noise + Text(StatusLines(kind, entries))
    requires noise == "" || noise[|noise| - 1] == '\n'
    requires kind != "" && NoSpace(kind) && AllPrintable(entries) && DistinctKeys(entries)
    requires status != "" && exists i :: 0 <= i < |entries| && entries[i] == ("STATUS", status)
    ensures var blocks := WriteChunks(State(Parser(None, [], []), ""), chunks).parser.blocks;
            && Terminal(blocks) == Some(Block(kind, AddFields(map[], entries)))
            && (StepOk(exitCode, blocks) <==> exitCode == Some(0) && (status == "success" || status == "skipped"))
  {
    NoiseThenBlock(chunks, noise, kind, entries);
    AddFieldsExact(map[], entries);
  }
}
