/** Splitting a long outbound message into chunks a platform accepts. */
module MessageSplitter {
  import opened Strings

  /** JavaScript strings count, index and cut UTF-16 code units. */
  type CodeUnit = u: int | 0 <= u < 0x10000

  type Text = seq<CodeUnit>

  const NEWLINE: CodeUnit := 10
  const SPACE: CodeUnit := 32

  /** What trimStart and trimEnd remove; no half of a surrogate pair. */
  predicate IsSpace(u: CodeUnit) {
    !(0xd800 <= u < 0xe000) && IsJsSpace(u as char)
  }

  lemma {:induction false} Spaces(u: CodeUnit)
    ensures IsSpace(u) <==>
            || 9 <= u <= 13 || 8192 <= u <= 8202 || u in {32, 160, 5760, 8232, 8233, 8239, 8287, 12288, 65279}
  {
    if !(0xd800 <= u < 0xe000) { JsSpaces(u as char); }
  }

  predicate AllSpace(s: Text) {
    forall i :: 0 <= i < |s| ==> IsSpace(s[i])
  }

  predicate At(s: Text, pattern: Text, i: int) {
    0 <= i && i + |pattern| <= |s| && s[i..i + |pattern|] == pattern
  }

  /** The last position up to `from` where the pattern occurs, or -1. */
  function LastIndexOf(s: Text, pattern: Text, from: int): (i: int)
    ensures i == -1 || (0 <= i <= from && At(s, pattern, i))
    ensures forall k :: i < k <= from ==> !At(s, pattern, k)
    decreases from + 1
  {
    if from < 0 then -1
    else if At(s, pattern, from) then from
    else LastIndexOf(s, pattern, from - 1)
  }

  /** What trimStart took away. */
  function LeadingSpace(s: Text): (g: Text)
    ensures AllSpace(g) && g + TrimStart(IsSpace, s) == s
  {
    if s == [] || !IsSpace(s[0]) then []
    else
      assert [s[0]] + LeadingSpace(s[1..]) + TrimStart(IsSpace, s[1..]) == [s[0]] + s[1..];
      [s[0]] + LeadingSpace(s[1..])
  }

  /** What trimEnd took away. */
  function TrailingSpace(s: Text): (g: Text)
    ensures AllSpace(g) && TrimEnd(IsSpace, s) + g == s
  {
    if s == [] || !IsSpace(s[|s| - 1]) then []
    else
      var n := |s| - 1;
      assert TrimEnd(IsSpace, s[..n]) + (TrailingSpace(s[..n]) + [s[n]]) == s[..n] + [s[n]];
      TrailingSpace(s[..n]) + [s[n]]
  }

  // ----- where to cut -----

  function Cut(s: Text, limit: nat): int {
    var paragraph := LastIndexOf(s, [NEWLINE, NEWLINE], limit);
    if paragraph > 0 then paragraph else
    var line := LastIndexOf(s, [NEWLINE], limit);
    if line > 0 then line else
    var word := LastIndexOf(s, [SPACE], limit);
    if word > 0 then word else limit
  }

  predicate IsBreak(s: Text, i: int)
    requires 0 <= i < |s|
  {
    s[i] == 10 || s[i] == 32
  }

  lemma {:induction false} AtOne(s: Text, u: CodeUnit, i: nat)
    requires i < |s|
    ensures At(s, [u], i) <==> s[i] == u
  {
    assert s[i..i + 1] == [s[i]];
  }

  /**
    The cut makes progress and fits; it is in front of a newline or a space unless the next `limit`
    positions hold none, where it is at the limit, and a paragraph break beats a line break, which beats a space.
   */
  lemma {:induction false} CutIsBest(s: Text, limit: nat)
    requires 1 <= limit < |s|
    ensures 1 <= Cut(s, limit) <= limit
    ensures IsBreak(s, Cut(s, limit)) || forall i :: 1 <= i <= limit ==> !IsBreak(s, i)
    ensures (forall i :: 1 <= i <= limit ==> !IsBreak(s, i)) ==> Cut(s, limit) == limit
    ensures forall i :: 1 <= i <= limit && At(s, [NEWLINE, NEWLINE], i) ==>
              At(s, [NEWLINE, NEWLINE], Cut(s, limit)) && i <= Cut(s, limit)
    ensures (exists i :: 1 <= i <= limit && s[i] == NEWLINE) ==> s[Cut(s, limit)] == NEWLINE
    ensures s[Cut(s, limit)] == NEWLINE && !At(s, [NEWLINE, NEWLINE], Cut(s, limit)) ==>
              forall i :: Cut(s, limit) < i <= limit ==> s[i] != NEWLINE
    ensures s[Cut(s, limit)] == SPACE ==> forall i :: Cut(s, limit) < i <= limit ==> s[i] != SPACE
  {
    var cut := Cut(s, limit);
    forall i | 1 <= i <= limit
      ensures (At(s, [NEWLINE], i) <==> s[i] == NEWLINE) && (At(s, [SPACE], i) <==> s[i] == SPACE)
    {
      AtOne(s, NEWLINE, i);
      AtOne(s, SPACE, i);
    }
    if At(s, [NEWLINE, NEWLINE], cut) {
      assert s[cut] == s[cut..cut + 2][0];
    }
  }

  // ----- the chunks -----

  function Rest(s: Text, limit: nat): Text
    requires 1 <= limit < |s|
    ensures |Rest(s, limit)| < |s|
  {
    CutIsBest(s, limit);
    TrimStart(IsSpace, s[Cut(s, limit)..])
  }

  function Head(s: Text, limit: nat): Text
    requires 1 <= limit < |s|
  {
    CutIsBest(s, limit);
    TrimEnd(IsSpace, s[..Cut(s, limit)])
  }

  function Pieces(s: Text, limit: nat): seq<Text>
    requires limit >= 1
    decreases |s|
  {
    if |s| > limit then [Head(s, limit)] + Pieces(Rest(s, limit), limit)
    else if s == [] then [] else [s]
  }

  function Split(text: Text, limit: nat): seq<Text>
    requires limit >= 1
  {
    if |text| <= limit then [text] else Pieces(text, limit)
  }

  method FindCut(remaining: Text, limit: nat) returns (cut: int)
    ensures cut == Cut(remaining, limit)
  {
    cut := LastIndexOf(remaining, [NEWLINE, NEWLINE], limit);
    if cut <= 0 {
      cut := LastIndexOf(remaining, [NEWLINE], limit);
    }
    if cut <= 0 {
      cut := LastIndexOf(remaining, [SPACE], limit);
    }
    if cut <= 0 {
      cut := limit;
    }
  }

  lemma {:induction false} AppendAssociates(chunks: seq<Text>, head: Text, others: seq<Text>)
    ensures chunks + ([head] + others) == chunks + [head] + others
  {
  }

  /** With a limit of 0 the loop never shortens a text that starts with no white space. */
  method SplitForLimit(text: Text, limit: nat) returns (chunks: seq<Text>)
    requires limit >= 1
    ensures chunks == Split(text, limit)
  {
    if |text| <= limit {
      return [text];
    }
    chunks := [];
    var remaining := text;
    while |remaining| > limit
      invariant chunks + Pieces(remaining, limit) == Pieces(text, limit)
      decreases |remaining|
    {
      var cut := FindCut(remaining, limit);
      CutIsBest(remaining, limit);
      AppendAssociates(chunks, Head(remaining, limit), Pieces(Rest(remaining, limit), limit));
      chunks := chunks + [TrimEnd(IsSpace, remaining[..cut])];
      remaining := TrimStart(IsSpace, remaining[cut..]);
    }
    if |remaining| > 0 {
      chunks := chunks + [remaining];
    }
  }

  /** The white space dropped behind each chunk. */
  function Gaps(s: Text, limit: nat): seq<Text>
    requires limit >= 1
    decreases |s|
  {
    if |s| > limit then
      CutIsBest(s, limit);
      var cut := Cut(s, limit);
      [TrailingSpace(s[..cut]) + LeadingSpace(s[cut..])] + Gaps(Rest(s, limit), limit)
    else if s == [] then [] else [[]]
  }

  function Weave(chunks: seq<Text>, gaps: seq<Text>): Text
    requires |chunks| == |gaps|
  {
    if chunks == [] then [] else chunks[0] + gaps[0] + Weave(chunks[1..], gaps[1..])
  }

  function Concat(chunks: seq<Text>): Text {
    if chunks == [] then [] else chunks[0] + Concat(chunks[1..])
  }

  function NonSpace(s: Text): Text {
    if s == [] then [] else (if IsSpace(s[0]) then [] else [s[0]]) + NonSpace(s[1..])
  }

  ghost predicate AllGaps(gaps: seq<Text>) {
    forall i :: 0 <= i < |gaps| ==> AllSpace(gaps[i])
  }

  lemma {:induction false} Rejoin(s: Text, cut: nat, head: Text, tail: Text, lead: Text, rest: Text)
    requires cut <= |s| && head + tail == s[..cut] && lead + rest == s[cut..]
    ensures head + (tail + lead) + rest == s
  {
  }

  lemma {:induction false} PiecesWeave(s: Text, limit: nat)
    requires limit >= 1
    ensures |Pieces(s, limit)| == |Gaps(s, limit)| && AllGaps(Gaps(s, limit))
    ensures Weave(Pieces(s, limit), Gaps(s, limit)) == s
    decreases |s|
  {
    if |s| > limit {
      CutIsBest(s, limit);
      var cut, rest := Cut(s, limit), Rest(s, limit);
      PiecesWeave(rest, limit);
      Rejoin(s, cut, Head(s, limit), TrailingSpace(s[..cut]), LeadingSpace(s[cut..]), rest);
    }
  }

  /** The chunks are pieces of the text in order, and only white space is lost between them. */
  lemma {:induction false} SplitLosesOnlySpace(text: Text, limit: nat) returns (gaps: seq<Text>)
    requires limit >= 1
    ensures |gaps| == |Split(text, limit)| && AllGaps(gaps)
    ensures Weave(Split(text, limit), gaps) == text
    ensures NonSpace(Concat(Split(text, limit))) == NonSpace(text)
  {
    if |text| <= limit {
      gaps := [[]];
      assert [text][1..] == [] && gaps[1..] == [];
    } else {
      gaps := Gaps(text, limit);
      PiecesWeave(text, limit);
    }
    WeaveNonSpace(Split(text, limit), gaps);
  }

  lemma {:induction false} NonSpaceConcat(a: Text, b: Text)
    ensures NonSpace(a + b) == NonSpace(a) + NonSpace(b)
  {
    if a == [] {
      assert a + b == b;
    } else {
      assert (a + b)[1..] == a[1..] + b;
      NonSpaceConcat(a[1..], b);
    }
  }

  lemma {:induction false} NonSpaceOfSpace(g: Text)
    requires AllSpace(g)
    ensures NonSpace(g) == []
  {
    if g != [] { NonSpaceOfSpace(g[1..]); }
  }

  lemma {:induction false} WeaveNonSpace(chunks: seq<Text>, gaps: seq<Text>)
    requires |chunks| == |gaps| && AllGaps(gaps)
    ensures NonSpace(Weave(chunks, gaps)) == NonSpace(Concat(chunks))
  {
    if chunks != [] {
      WeaveNonSpace(chunks[1..], gaps[1..]);
      NonSpaceConcat(chunks[0] + gaps[0], Weave(chunks[1..], gaps[1..]));
      NonSpaceConcat(chunks[0], gaps[0]);
      NonSpaceOfSpace(gaps[0]);
      NonSpaceConcat(chunks[0], Concat(chunks[1..]));
    }
  }

  lemma {:induction false} PiecesFit(s: Text, limit: nat)
    requires limit >= 1
    ensures forall i :: 0 <= i < |Pieces(s, limit)| ==> |Pieces(s, limit)[i]| <= limit
    ensures forall i :: 1 <= i < |Pieces(s, limit)| ==> Pieces(s, limit)[i] != []
    ensures s != [] && !IsSpace(s[0]) ==> |Pieces(s, limit)| > 0 && Pieces(s, limit)[0] != []
    decreases |s|
  {
    if |s| > limit {
      CutIsBest(s, limit);
      var rest := Rest(s, limit);
      PiecesFit(rest, limit);
      assert Pieces(s, limit)[1..] == Pieces(rest, limit);
      if !IsSpace(s[0]) { TrimEndKeepsHead(s[..Cut(s, limit)]); }
    }
  }

  lemma {:induction false} TrimEndKeepsHead(s: Text)
    requires s != [] && !IsSpace(s[0])
    ensures TrimEnd(IsSpace, s) != []
  {
    if IsSpace(s[|s| - 1]) { TrimEndKeepsHead(s[..|s| - 1]); }
  }

  lemma {:induction false} TrimEndEmpty(s: Text)
    ensures TrimEnd(IsSpace, s) == [] <==> AllSpace(s)
  {
    assert TrimEnd(IsSpace, s) + TrailingSpace(s) == s;
    var kept := TrimEnd(IsSpace, s);
    if kept != [] { assert kept[|kept| - 1] == s[|kept| - 1]; }
  }

  /**
    Every chunk fits the limit. When the text is split, every chunk after the first holds text, and the
    first is empty exactly when only white space stands before the first cut.
   */
  lemma {:induction false} SplitFits(text: Text, limit: nat)
    requires limit >= 1
    ensures forall i :: 0 <= i < |Split(text, limit)| ==> |Split(text, limit)[i]| <= limit
    ensures |text| > limit ==>
              && |Split(text, limit)| > 0
              && (forall i :: 1 <= i < |Split(text, limit)| ==> Split(text, limit)[i] != [])
              && (Split(text, limit)[0] == [] <==> AllSpace(text[..Cut(text, limit)]))
  {
    PiecesFit(text, limit);
    if |text| > limit {
      CutIsBest(text, limit);
      TrimEndEmpty(text[..Cut(text, limit)]);
    }
  }

  /**
    Why the limit must be positive: with 0, one pass only trims the text, so a second pass changes
    nothing, and the loop ends only on a text of white space.
   */
  lemma {:induction false} ZeroLimitStalls(text: Text)
    ensures Cut(text, 0) == 0
    ensures var left := TrimStart(IsSpace, text[Cut(text, 0)..]);
            TrimStart(IsSpace, left[Cut(left, 0)..]) == left && (left == [] <==> AllSpace(text))
  {
    assert text[0..] == text;
    var left := TrimStart(IsSpace, text);
    assert left[0..] == left;
    assert LeadingSpace(text) + left == text;
    if left != [] { assert text[|LeadingSpace(text)|] == left[0]; }
  }
}
