/** The status blocks of a step, read from the bytes its pipe delivers: each buffer is decoded alone. */
module StatusPipe {
  import opened Numbers
  import opened Strings
  import opened StatusStreams
  import opened TextPieces
  import opened Utf8
  import opened Wrappers

  const START_STATE := State(Parser(None, [], []), "")

  /** The blocks after `chunk.toString('utf-8')` of each buffer has been written to the stream. */
  function BlocksOf(buffers: seq<Bytes>): seq<Block> {
    WriteChunks(START_STATE, DecodeEach(Codec8(), buffers)).parser.blocks
  }

  /**
    A step that writes any bytes, then on a new line a status block as its last lines, is judged by that block,
    however the pipe cuts its bytes, if it does not cut inside a character of the block itself.
   */
  lemma {:induction false} StepJudgedFromBytes(buffers: seq<Bytes>, noise: Bytes, kind: string, entries: Entries,
        status: string, exitCode: Option<int>)
    requires Concat(buffers) == noise + EncodeAll(Codec8(), Text(StatusLines(kind, entries)))
    requires UncutFrom(buffers, |noise|)
    requires noise == [] || noise[|noise| - 1] == 10
    requires kind != "" && NoSpace(kind) && AllPrintable(entries) && DistinctKeys(entries)
    requires status != "" && exists i :: 0 <= i < |entries| && entries[i] == ("STATUS", status)
    ensures Terminal(BlocksOf(buffers)) == Some(Block(kind, AddFields(map[], entries)))
    ensures StepOk(exitCode, BlocksOf(buffers)) <==> exitCode == Some(0) && (status == "success" || status == "skipped")
  {
    var read := ReadNoise(buffers, noise, Text(StatusLines(kind, entries)));
    StepJudgedByLastBlock(DecodeEach(Codec8(), buffers), read, kind, entries, status, exitCode);
  }

  /** What is read before the block: nothing, or something that ends in a newline. */
  lemma {:induction false} ReadNoise(buffers: seq<Bytes>, noise: Bytes, text: string) returns (read: string)
    requires Concat(buffers) == noise + EncodeAll(Codec8(), text) && UncutFrom(buffers, |noise|)
    requires noise == [] || noise[|noise| - 1] == 10
    ensures Concat(DecodeEach(Codec8(), buffers)) == read + text
    ensures read == "" || read[|read| - 1] == '\n'
  {
    Utf8Synchronizes();
    if noise == [] {
      assert noise + EncodeAll(Codec8(), text) == EncodeAll(Codec8(), text);
      UncutThroughout(buffers, 0);
      DecodedPiecesIff(buffers, text);
      read := "";
    } else {
      NewlineResumes();
      var before := noise[..|noise| - 1];
      assert noise == before + [10];
      var garbage := TextBehind(Codec8(), buffers, before, 10, '\n', text);
      read := garbage + ['\n'];
    }
  }

  lemma {:induction false} OneField(key: string, value: string)
    ensures FieldLines([(key, value)]) == [FieldLine(key, value)]
    ensures AddFields(map[], [(key, value)]) == map[key := value]
  {
    assert [(key, value)][1..] == [];
  }

  /** The text of a block with one field, around the field's value. */
  lemma {:induction false} OneFieldText(kind: string, key: string, value: string)
    ensures Text(StatusLines(kind, [(key, value)])) ==
            START + kind + CLOSE + "\n" + key + ": " + value + ("\n" + END + "\n")
  {
    OneField(key, value);
    var lines := [START + kind + CLOSE, FieldLine(key, value), END];
    assert StatusLines(kind, [(key, value)]) == lines;
    TextOfThree(lines[0], lines[1], lines[2]);
  }

  lemma {:induction false} TextOfThree(a: string, b: string, c: string)
    ensures Text([a, b, c]) == a + "\n" + b + "\n" + c + "\n"
  {
    assert [a, b, c][1..] == [b, c] && [b, c][1..] == [c] && [c][1..] == [];
    assert Text([c]) == c + "\n" + "";
    assert Text([b, c]) == b + "\n" + Text([c]);
    assert Text([a, b, c]) == a + "\n" + Text([b, c]);
  }

  lemma {:induction false} ReplacementsAre(n: nat)
    ensures forall i :: 0 <= i < n ==> Replacements(n)[i] == REPLACEMENT
  {
    if n > 0 { ReplacementsAre(n - 1); }
  }

  lemma {:induction false} StatusPrintable(n: nat)
    ensures AllPrintable([("STATUS", Replacements(n))])
  {
    ReplacementsAre(n);
    var key, value := "STATUS", Replacements(n);
    var line := FieldLine(key, value);
    assert line[0] == 'S' && START[0] == '=';
    assert key[0] == 'S' && END[0] == '=';
    assert MatchStart(line) == None;
    assert Printable(key, value);
  }

  /** Around the status in the text of a block that has only that field. */
  function StatusBefore(kind: string): string {
    START + kind + CLOSE + "\n" + "STATUS" + ": "
  }

  function StatusAfter(): string {
    "\n" + END + "\n"
  }

  lemma {:induction false} StatusText(kind: string, status: string)
    ensures Text(StatusLines(kind, [("STATUS", status)])) == StatusBefore(kind) + status + StatusAfter()
  {
    OneFieldText(kind, "STATUS", status);
  }

  lemma {:induction false} ReplacedStatusRead(chunks: seq<string>, kind: string, n: nat)
    requires kind != "" && NoSpace(kind) && n > 0
    requires Concat(chunks) == StatusBefore(kind) + Replacements(n) + StatusAfter()
    ensures Terminal(WriteChunks(START_STATE, chunks).parser.blocks) ==
            Some(Block(kind, map["STATUS" := Replacements(n)]))
  {
    StatusText(kind, Replacements(n));
    StatusPrintable(n);
    OneField("STATUS", Replacements(n));
    NoiseThenBlock(chunks, "", kind, [("STATUS", Replacements(n))]);
  }

  /** The bytes of a text, cut inside one of its characters. */
  function CutBuffers(before: string, c: char, after: string, k: nat): seq<Bytes>
    requires k <= |Encode(c)|
  {
    [EncodeAll(Codec8(), before) + Encode(c)[..k], Encode(c)[k..] + EncodeAll(Codec8(), after)]
  }

  lemma {:induction false} CutAround(before: string, c: char, after: string, k: nat)
    requires 0 < k < |Encode(c)|
    ensures var buffers, n := CutBuffers(before, c, after, k), 1 + (|Encode(c)| - k);
            && Concat(buffers) == EncodeAll(Codec8(), before + [c] + after)
            && Concat(DecodeEach(Codec8(), buffers)) == before + Replacements(n) + after
            && Replacements(n) != [c]
  {
    Utf8Synchronizes();
    CutCharacterIsLost(before, c, after, k);
    CutDecodes(Codec8(), before, c, after, k);
  }

  /** Two buffers hold a printed block with this status, and the second begins k bytes into the status. */
  predicate CutInStatus(buffers: seq<Bytes>, kind: string, c: char, k: nat) {
    && |buffers| == 2
    && Concat(buffers) == EncodeAll(Codec8(), Text(StatusLines(kind, [("STATUS", [c])])))
    && |buffers[0]| == |EncodeAll(Codec8(), StatusBefore(kind))| + k
  }

  lemma {:induction false} PairConcat(a: seq<Bytes>)
    requires |a| == 2
    ensures Concat(a) == a[0] + a[1]
  {
    var rest := a[1..];
    assert rest[1..] == [];
    assert Concat(rest) == rest[0] + Concat(rest[1..]);
  }

  lemma {:induction false} PairsAgree(a: seq<Bytes>, b: seq<Bytes>)
    requires |a| == 2 && |b| == 2 && Concat(a) == Concat(b) && |a[0]| == |b[0]|
    ensures a == b
  {
    PairConcat(a);
    PairConcat(b);
    assert a[0] == Concat(a)[..|a[0]|] && b[0] == Concat(b)[..|b[0]|];
    assert a[1] == Concat(a)[|a[0]|..] && b[1] == Concat(b)[|b[0]|..];
  }

  lemma {:induction false} BuffersDecode(buffers: seq<Bytes>, kind: string, c: char, k: nat)
    requires 0 < k < |Encode(c)| && CutInStatus(buffers, kind, c, k)
    ensures Concat(DecodeEach(Codec8(), buffers)) ==
            StatusBefore(kind) + Replacements(1 + (|Encode(c)| - k)) + StatusAfter()
    ensures Replacements(1 + (|Encode(c)| - k)) != [c]
  {
    StatusText(kind, [c]);
    CutAround(StatusBefore(kind), c, StatusAfter(), k);
    PairsAgree(buffers, CutBuffers(StatusBefore(kind), c, StatusAfter(), k));
  }

  lemma {:induction false} GarbledRead(buffers: seq<Bytes>, kind: string, n: nat)
    requires kind != "" && NoSpace(kind) && n > 0
    requires Concat(DecodeEach(Codec8(), buffers)) == StatusBefore(kind) + Replacements(n) + StatusAfter()
    ensures Terminal(BlocksOf(buffers)) == Some(Block(kind, map["STATUS" := Replacements(n)]))
  {
    ReplacedStatusRead(DecodeEach(Codec8(), buffers), kind, n);
  }

  /**
    At a cut inside a character of the status the block is read with replacements in its place, so the step
    is not judged by what it printed.
   */
  lemma {:induction false} CutStatusIsGarbled(buffers: seq<Bytes>, kind: string, c: char, k: nat)
    requires kind != "" && NoSpace(kind) && 0 < k < |Encode(c)| && CutInStatus(buffers, kind, c, k)
    ensures var n := 1 + (|Encode(c)| - k);
            Terminal(BlocksOf(buffers)) == Some(Block(kind, map["STATUS" := Replacements(n)])) && Replacements(n) != [c]
  {
    BuffersDecode(buffers, kind, c, k);
    GarbledRead(buffers, kind, 1 + (|Encode(c)| - k));
  }

  /** There are such buffers for every such cut. */
  lemma {:induction false} EveryCutHappens(kind: string, c: char, k: nat)
    requires 0 < k < |Encode(c)|
    ensures exists buffers :: CutInStatus(buffers, kind, c, k)
  {
    StatusText(kind, [c]);
    CutAround(StatusBefore(kind), c, StatusAfter(), k);
    assert CutInStatus(CutBuffers(StatusBefore(kind), c, StatusAfter(), k), kind, c, k);
  }
}
