/** A text whose bytes arrive in pieces that are decoded one by one, for any code that marks where characters begin. */
module TextPieces {
  import opened Numbers

  const REPLACEMENT: char := '\U{FFFD}'

  datatype Codec = Codec(encode: char -> Bytes, decode: Bytes -> string)

  /** A byte that belongs to a character begun before. */
  predicate Continues(b: Byte) {
    0x80 <= b < 0xC0
  }

  predicate AllContinue(s: Bytes) {
    forall k :: 0 <= k < |s| ==> Continues(s[k])
  }

  function EncodeAll(x: Codec, s: string): Bytes {
    if s == "" then [] else x.encode(s[0]) + EncodeAll(x, s[1..])
  }

  // ----- what is needed of the code -----

  predicate Shaped(x: Codec, c: char) {
    var e := x.encode(c);
    e != [] && !Continues(e[0]) && AllContinue(e[1..])
  }

  /** A whole character at the front is read as that character. */
  ghost predicate ReadsWhole(x: Codec, c: char) {
    forall rest: Bytes :: x.decode(x.encode(c) + rest) == [c] + x.decode(rest)
  }

  /** The beginning of a character, cut off at the end, is replaced as a whole. */
  predicate ReadsCut(x: Codec, c: char) {
    forall k :: 0 < k < |x.encode(c)| ==> x.decode(x.encode(c)[..k]) == [REPLACEMENT]
  }

  /** A stray byte is replaced alone. */
  ghost predicate ReadsStray(x: Codec, b: Byte) {
    forall rest: Bytes :: Continues(b) ==> x.decode([b] + rest) == [REPLACEMENT] + x.decode(rest)
  }

  ghost predicate SelfSynchronizing(x: Codec) {
    && x.decode([]) == ""
    && (forall c :: Shaped(x, c) && ReadsWhole(x, c) && ReadsCut(x, c))
    && (forall b :: ReadsStray(x, b))
  }

  // ----- pieces -----

  function Concat<T>(pieces: seq<seq<T>>): seq<T> {
    if pieces == [] then [] else pieces[0] + Concat(pieces[1..])
  }

  /** Each piece is decoded alone. */
  function DecodeEach(x: Codec, pieces: seq<Bytes>): seq<string> {
    if pieces == [] then [] else [x.decode(pieces[0])] + DecodeEach(x, pieces[1..])
  }

  /** How many bytes at the front belong to a character begun before. */
  function Strays(s: Bytes): (n: nat)
    ensures n <= |s|
  {
    if s == [] || !Continues(s[0]) then 0 else 1 + Strays(s[1..])
  }

  function AllStrays(pieces: seq<Bytes>): nat {
    if pieces == [] then 0 else Strays(pieces[0]) + AllStrays(pieces[1..])
  }

  function Replacements(n: nat): (s: string)
    ensures |s| == n
  {
    if n == 0 then "" else [REPLACEMENT] + Replacements(n - 1)
  }

  lemma {:induction false} DecodeStrays(x: Codec, tail: Bytes, rest: Bytes)
    requires AllContinue(tail) && forall b :: ReadsStray(x, b)
    ensures x.decode(tail + rest) == Replacements(|tail|) + x.decode(rest)
    decreases |tail|
  {
    if tail == [] {
      assert tail + rest == rest;
    } else {
      assert tail + rest == [tail[0]] + (tail[1..] + rest);
      assert ReadsStray(x, tail[0]);
      DecodeStrays(x, tail[1..], rest);
    }
  }

  lemma {:induction false} StraysOf(tail: Bytes, rest: Bytes)
    requires AllContinue(tail) && (rest == [] || !Continues(rest[0]))
    ensures Strays(tail + rest) == |tail|
    decreases |tail|
  {
    if tail == [] {
      assert tail + rest == rest;
    } else {
      assert (tail + rest)[1..] == tail[1..] + rest;
      StraysOf(tail[1..], rest);
    }
  }

  lemma {:induction false} Regroup<T>(a: seq<T>, b: seq<T>, c: seq<T>)
    ensures a + b + c == a + (b + c)
  {
  }

  lemma {:induction false} DecodeWhole(x: Codec, u: string, rest: Bytes)
    requires forall c :: ReadsWhole(x, c)
    ensures x.decode(EncodeAll(x, u) + rest) == u + x.decode(rest)
    decreases |u|
  {
    if u == "" {
      assert EncodeAll(x, u) + rest == rest && "" + x.decode(rest) == x.decode(rest);
    } else {
      var more := EncodeAll(x, u[1..]) + rest;
      Regroup(x.encode(u[0]), EncodeAll(x, u[1..]), rest);
      assert ReadsWhole(x, u[0]);
      assert x.decode(x.encode(u[0]) + more) == [u[0]] + x.decode(more);
      DecodeWhole(x, u[1..], rest);
      Regroup([u[0]], u[1..], x.decode(rest));
      assert [u[0]] + u[1..] == u;
    }
  }

  /** Where a cut falls: behind whole characters, and perhaps inside the next. */
  datatype Cut = Cut(whole: nat, inside: nat)

  predicate CutsAt(x: Codec, u: string, front: Bytes, back: Bytes, cut: Cut) {
    && cut.whole <= |u|
    && if cut.inside == 0 then front == EncodeAll(x, u[..cut.whole]) && back == EncodeAll(x, u[cut.whole..])
       else
         && cut.whole < |u| && cut.inside < |x.encode(u[cut.whole])|
         && front == EncodeAll(x, u[..cut.whole]) + x.encode(u[cut.whole])[..cut.inside]
         && back == x.encode(u[cut.whole])[cut.inside..] + EncodeAll(x, u[cut.whole + 1..])
  }

  lemma {:induction false} FindCut(x: Codec, u: string, front: Bytes, back: Bytes) returns (cut: Cut)
    requires SelfSynchronizing(x)
    requires front + back == EncodeAll(x, u)
    ensures CutsAt(x, u, front, back, cut)
    decreases |u|
  {
    if front == [] {
      assert u[..0] == "" && u[0..] == u && front + back == back;
      return Cut(0, 0);
    }
    assert Shaped(x, u[0]);
    var e := x.encode(u[0]);
    if |front| < |e| {
      FrontOf(front, back, e, EncodeAll(x, u[1..]));
      assert u[..0] == "" && u[0 + 1..] == u[1..];
      assert front == EncodeAll(x, u[..0]) + e[..|front|];
      return Cut(0, |front|);
    }
    FrontOf(e, EncodeAll(x, u[1..]), front, back);
    var rest := front[|e|..];
    assert front == e + rest && rest + back == EncodeAll(x, u[1..]);
    var later := FindCut(x, u[1..], rest, back);
    cut := Cut(later.whole + 1, later.inside);
    assert u[1..][later.whole..] == u[cut.whole..];
    FirstThen(x, u, later.whole);
    if later.inside > 0 {
      assert u[1..][later.whole] == u[cut.whole] && u[1..][later.whole + 1..] == u[cut.whole + 1..];
      assert front == e + EncodeAll(x, u[1..][..later.whole]) + x.encode(u[cut.whole])[..cut.inside];
    }
  }

  lemma {:induction false} FirstThen(x: Codec, u: string, n: nat)
    requires n < |u|
    ensures EncodeAll(x, u[..n + 1]) == x.encode(u[0]) + EncodeAll(x, u[1..][..n])
  {
    assert u[..n + 1][1..] == u[1..][..n];
  }

  /** Of two ways to cut one sequence, the shorter front begins the longer. */
  lemma {:induction false} FrontOf(a: Bytes, b: Bytes, c: Bytes, d: Bytes)
    requires a + b == c + d && |a| <= |c|
    ensures a == c[..|a|] && b == c[|a|..] + d
  {
    assert a == (a + b)[..|a|] && b == (a + b)[|a|..];
    assert (c + d)[..|a|] == c[..|a|] && (c + d)[|a|..] == c[|a|..] + d;
  }

  lemma {:induction false} DecodeFront(x: Codec, u: string, front: Bytes, back: Bytes, cut: Cut)
    requires SelfSynchronizing(x)
    requires CutsAt(x, u, front, back, cut)
    ensures x.decode(front) == u[..cut.whole] + Replacements(if cut.inside == 0 then 0 else 1)
  {
    if cut.inside == 0 {
      DecodeWhole(x, u[..cut.whole], []);
      assert EncodeAll(x, u[..cut.whole]) + [] == front && x.decode([]) == "";
    } else {
      DecodeWhole(x, u[..cut.whole], x.encode(u[cut.whole])[..cut.inside]);
      assert ReadsCut(x, u[cut.whole]);
      assert Replacements(1) == [REPLACEMENT] + "";
    }
  }

  lemma {:induction false} LeadsFirst(x: Codec, u: string)
    requires SelfSynchronizing(x)
    ensures u != "" ==> EncodeAll(x, u) != [] && !Continues(EncodeAll(x, u)[0])
  {
    if u != "" { assert Shaped(x, u[0]); }
  }

  /** What is left of a text behind a cut: the rest of the character cut, and the characters after it. */
  lemma {:induction false} BackOf(x: Codec, u: string, front: Bytes, back: Bytes, cut: Cut)
    returns (tail: Bytes, v: string)
    requires SelfSynchronizing(x)
    requires CutsAt(x, u, front, back, cut)
    ensures back == tail + EncodeAll(x, v) && AllContinue(tail)
    ensures |u| == cut.whole + |v| + if cut.inside == 0 then 0 else 1
    ensures if cut.inside == 0 then tail == [] && v == u[cut.whole..] else tail != []
  {
    if cut.inside == 0 {
      tail, v := [], u[cut.whole..];
    } else {
      assert Shaped(x, u[cut.whole]);
      tail, v := x.encode(u[cut.whole])[cut.inside..], u[cut.whole + 1..];
    }
  }

  lemma {:induction false} PieceOfTail(x: Codec, piece: Bytes)
    requires SelfSynchronizing(x)
    requires AllContinue(piece)
    ensures x.decode(piece) == Replacements(|piece|) && Strays(piece) == |piece|
  {
    DecodeStrays(x, piece, []);
    StraysOf(piece, []);
    assert piece + [] == piece;
  }

  /** What one piece takes from the tail of a first character and the characters u after it, and what it leaves. */
  ghost predicate Taken(x: Codec, piece: Bytes, tail: Bytes, u: string, tail': Bytes, v: string) {
    && AllContinue(tail')
    && |x.decode(piece)| + |v| == |u| + Strays(piece)
    && (tail != [] && Strays(piece) == 0 ==> tail' != [])
    && (tail == [] && tail' == [] && Strays(piece) == 0 ==> x.decode(piece) + v == u)
  }

  lemma {:induction false} ShortPiece(x: Codec, piece: Bytes, rest: Bytes, tail: Bytes, u: string)
    returns (tail': Bytes)
    requires SelfSynchronizing(x)
    requires piece + rest == tail + EncodeAll(x, u) && AllContinue(tail) && |piece| <= |tail|
    ensures rest == tail' + EncodeAll(x, u) && Taken(x, piece, tail, u, tail', u)
  {
    FrontOf(piece, rest, tail, EncodeAll(x, u));
    PieceOfTail(x, piece);
    tail' := tail[|piece|..];
    if piece == [] {
      assert tail' == tail && x.decode(piece) + u == u;
    }
  }

  lemma {:induction false} LongPiece(x: Codec, piece: Bytes, rest: Bytes, tail: Bytes, u: string)
    returns (tail': Bytes, v: string)
    requires SelfSynchronizing(x)
    requires piece + rest == tail + EncodeAll(x, u) && AllContinue(tail) && |tail| < |piece|
    ensures rest == tail' + EncodeAll(x, v) && Taken(x, piece, tail, u, tail', v)
  {
    LeadsFirst(x, u);
    FrontOf(tail, EncodeAll(x, u), piece, rest);
    var front := piece[|tail|..];
    assert piece == tail + front && front + rest == EncodeAll(x, u);
    assert front[0] == EncodeAll(x, u)[0];
    StraysOf(tail, front);
    DecodeStrays(x, tail, front);
    var cut := FindCut(x, u, front, rest);
    DecodeFront(x, u, front, rest, cut);
    tail', v := BackOf(x, u, front, rest, cut);
    if tail == [] && cut.inside == 0 {
      assert u[..cut.whole] + u[cut.whole..] == u;
      assert x.decode(piece) == u[..cut.whole];
    }
  }

  /**
    A text of which the tail of a first character and the characters after it arrive in pieces: every
    stray byte at the front of a piece is one character too many.
   */
  lemma {:induction false} PiecesDecoded(x: Codec, pieces: seq<Bytes>, tail: Bytes, u: string)
    requires SelfSynchronizing(x)
    requires Concat(pieces) == tail + EncodeAll(x, u) && AllContinue(tail)
    ensures |Concat(DecodeEach(x, pieces))| == |u| + AllStrays(pieces)
    ensures tail != [] ==> AllStrays(pieces) > 0
    ensures tail == [] && AllStrays(pieces) == 0 ==> Concat(DecodeEach(x, pieces)) == u
    decreases |pieces|
  {
    if pieces == [] {
      LeadsFirst(x, u);
    } else {
      var piece, more := pieces[0], pieces[1..];
      var tail', v := tail, u;
      if |piece| <= |tail| {
        tail' := ShortPiece(x, piece, Concat(more), tail, u);
      } else {
        tail', v := LongPiece(x, piece, Concat(more), tail, u);
      }
      PiecesDecoded(x, more, tail', v);
      assert Concat(DecodeEach(x, pieces)) == x.decode(piece) + Concat(DecodeEach(x, more)) by {
        assert DecodeEach(x, pieces)[1..] == DecodeEach(x, more);
      }
    }
  }

  /** No piece begins in the middle of a character. */
  predicate CutsBetweenCharacters(pieces: seq<Bytes>) {
    forall k :: 0 <= k < |pieces| && pieces[k] != [] ==> !Continues(pieces[k][0])
  }

  lemma {:induction false} NoStraysIff(pieces: seq<Bytes>)
    ensures AllStrays(pieces) == 0 <==> CutsBetweenCharacters(pieces)
  {
    if pieces != [] {
      NoStraysIff(pieces[1..]);
      assert forall k :: 1 <= k < |pieces| ==> pieces[k] == pieces[1..][k - 1];
      assert Strays(pieces[0]) == 0 <==> (pieces[0] != [] ==> !Continues(pieces[0][0]));
    }
  }

  /** A text is given back exactly if no piece begins inside a character. */
  lemma {:induction false} PiecesIff(x: Codec, pieces: seq<Bytes>, text: string)
    requires SelfSynchronizing(x) && Concat(pieces) == EncodeAll(x, text)
    ensures Concat(DecodeEach(x, pieces)) == text <==> CutsBetweenCharacters(pieces)
  {
    assert EncodeAll(x, text) == [] + EncodeAll(x, text);
    PiecesDecoded(x, pieces, [], text);
    NoStraysIff(pieces);
  }

  lemma {:induction false} TwoPieces(first: Bytes, second: Bytes)
    ensures Concat([first, second]) == first + second
  {
    assert [first, second][1..] == [second];
    assert Concat([second]) == second + Concat([second][1..]) && [second][1..] == [];
  }

  lemma {:induction false} EncodeConcat(x: Codec, a: string, b: string)
    ensures EncodeAll(x, a + b) == EncodeAll(x, a) + EncodeAll(x, b)
    decreases |a|
  {
    if a == "" {
      assert a + b == b;
    } else {
      assert (a + b)[1..] == a[1..] + b;
      EncodeConcat(x, a[1..], b);
      Regroup(x.encode(a[0]), EncodeAll(x, a[1..]), EncodeAll(x, b));
    }
  }

  lemma {:induction false} EncodeAround(x: Codec, before: string, c: char, after: string)
    ensures EncodeAll(x, before + [c] + after) == EncodeAll(x, before) + x.encode(c) + EncodeAll(x, after)
  {
    EncodeConcat(x, before + [c], after);
    EncodeConcat(x, before, [c]);
    assert [c][1..] == "";
  }

  lemma {:induction false} CutIsLost(x: Codec, before: string, c: char, after: string, k: nat)
    requires SelfSynchronizing(x) && 0 < k < |x.encode(c)|
    ensures var e, text := x.encode(c), before + [c] + after;
            var pieces := [EncodeAll(x, before) + e[..k], e[k..] + EncodeAll(x, after)];
            Concat(pieces) == EncodeAll(x, text) && Concat(DecodeEach(x, pieces)) != text
  {
    var e := x.encode(c);
    var first, second := EncodeAll(x, before) + e[..k], e[k..] + EncodeAll(x, after);
    EncodeAround(x, before, c, after);
    TwoPieces(first, second);
    assert e[..k] + e[k..] == e;
    assert first + second == EncodeAll(x, before) + e + EncodeAll(x, after);
    assert Shaped(x, c) && e[1..][k - 1] == e[k];
    assert second[0] == e[k] && [first, second][1] == second;
    PiecesIff(x, [first, second], before + [c] + after);
  }

  lemma {:induction false} ReplacementsConcat(m: nat, n: nat)
    ensures Replacements(m + n) == Replacements(m) + Replacements(n)
  {
    if m > 0 {
      ReplacementsConcat(m - 1, n);
      Regroup([REPLACEMENT], Replacements(m - 1), Replacements(n));
    } else {
      assert "" + Replacements(n) == Replacements(n);
    }
  }

  lemma {:induction false} DecodeEachTwo(x: Codec, first: Bytes, second: Bytes)
    ensures Concat(DecodeEach(x, [first, second])) == x.decode(first) + x.decode(second)
  {
    assert [first, second][1..] == [second];
    var rest := DecodeEach(x, [second]);
    assert [second][1..] == [] && DecodeEach(x, []) == [];
    assert rest == [x.decode(second)];
    assert DecodeEach(x, [first, second]) == [x.decode(first)] + rest;
    assert ([x.decode(first)] + rest)[1..] == rest && rest[1..] == [];
    assert Concat(rest) == x.decode(second) + Concat(rest[1..]);
  }

  lemma {:induction false} CutFront(x: Codec, before: string, c: char, k: nat)
    requires SelfSynchronizing(x) && 0 < k < |x.encode(c)|
    ensures x.decode(EncodeAll(x, before) + x.encode(c)[..k]) == before + Replacements(1)
  {
    DecodeWhole(x, before, x.encode(c)[..k]);
    assert ReadsCut(x, c);
    assert Replacements(1) == [REPLACEMENT] + "";
  }

  lemma {:induction false} CutBack(x: Codec, tail: Bytes, after: string)
    requires SelfSynchronizing(x) && AllContinue(tail)
    ensures x.decode(tail + EncodeAll(x, after)) == Replacements(|tail|) + after
  {
    DecodeStrays(x, tail, EncodeAll(x, after));
    DecodeWhole(x, after, []);
    assert EncodeAll(x, after) + [] == EncodeAll(x, after) && after + "" == after;
  }

  /** What a cut character becomes: one replacement for its beginning, one for each byte behind the cut. */
  lemma {:induction false} CutDecodes(x: Codec, before: string, c: char, after: string, k: nat)
    requires SelfSynchronizing(x) && 0 < k < |x.encode(c)|
    ensures var e := x.encode(c);
            var pieces := [EncodeAll(x, before) + e[..k], e[k..] + EncodeAll(x, after)];
            Concat(DecodeEach(x, pieces)) == before + Replacements(1 + (|e| - k)) + after
  {
    var e := x.encode(c);
    var n := |e| - k;
    DecodeEachTwo(x, EncodeAll(x, before) + e[..k], e[k..] + EncodeAll(x, after));
    CutFront(x, before, c, k);
    assert Shaped(x, c);
    assert forall i :: 0 <= i < |e[k..]| ==> e[k..][i] == e[1..][k - 1 + i];
    CutBack(x, e[k..], after);
    ReplacementsConcat(1, n);
    Regroup(before + Replacements(1), Replacements(n), after);
    Regroup(before, Replacements(1), Replacements(n));
  }

  // ----- text behind bytes of any kind -----

  /** The byte is read as this character whatever surrounds it, and its surroundings are read alone. */
  ghost predicate ReadsAround(x: Codec, b: Byte, c: char) {
    forall front: Bytes, rest: Bytes :: x.decode(front + [b] + rest) == x.decode(front) + [c] + x.decode(rest)
  }

  /** No piece that begins behind this many bytes begins inside a character. */
  predicate UncutFrom(pieces: seq<Bytes>, start: int) {
    pieces == [] ||
    ((start <= 0 && pieces[0] != [] ==> !Continues(pieces[0][0])) && UncutFrom(pieces[1..], start - |pieces[0]|))
  }

  lemma {:induction false} UncutThroughout(pieces: seq<Bytes>, start: int)
    requires start <= 0
    ensures UncutFrom(pieces, start) <==> CutsBetweenCharacters(pieces)
  {
    if pieces != [] {
      UncutThroughout(pieces[1..], start - |pieces[0]|);
      assert forall k :: 1 <= k < |pieces| ==> pieces[k] == pieces[1..][k - 1];
    }
  }

  lemma {:induction false} DecodeEachCons(x: Codec, piece: Bytes, more: seq<Bytes>)
    ensures Concat([piece] + more) == piece + Concat(more)
    ensures Concat(DecodeEach(x, [piece] + more)) == x.decode(piece) + Concat(DecodeEach(x, more))
  {
    assert ([piece] + more)[1..] == more;
    assert DecodeEach(x, [piece] + more)[1..] == DecodeEach(x, more);
  }

  /** The piece in which the text begins, and those after it, give the text. */
  lemma {:induction false} TextFromPiece(x: Codec, first: Bytes, more: seq<Bytes>, text: string)
    requires SelfSynchronizing(x)
    requires first + Concat(more) == EncodeAll(x, text) && CutsBetweenCharacters(more)
    ensures x.decode(first) + Concat(DecodeEach(x, more)) == text
  {
    DecodeEachCons(x, first, more);
    PiecesIff(x, [first] + more, text);
    LeadsFirst(x, text);
    if first != [] {
      assert first[0] == EncodeAll(x, text)[0];
    }
  }

  /** Behind any bytes and such a byte a text is read whole, if no piece begins inside one of its own characters. */
  lemma {:induction false} TextBehind(x: Codec, pieces: seq<Bytes>, noise: Bytes, b: Byte, c: char, text: string)
    returns (garbage: string)
    requires SelfSynchronizing(x) && ReadsAround(x, b, c)
    requires Concat(pieces) == noise + [b] + EncodeAll(x, text) && UncutFrom(pieces, |noise| + 1)
    ensures Concat(DecodeEach(x, pieces)) == garbage + [c] + text
    decreases |pieces|
  {
    var piece, more, bytes := pieces[0], pieces[1..], EncodeAll(x, text);
    assert pieces == [piece] + more;
    DecodeEachCons(x, piece, more);
    if |piece| <= |noise| {
      Regroup(noise, [b], bytes);
      FrontOf(piece, Concat(more), noise, [b] + bytes);
      Regroup(noise[|piece|..], [b], bytes);
      var later := TextBehind(x, more, noise[|piece|..], b, c, text);
      garbage := x.decode(piece) + later;
      assert garbage + [c] + text == x.decode(piece) + (later + [c] + text);
    } else {
      FrontOf(noise + [b], bytes, piece, Concat(more));
      var first := piece[|noise| + 1..];
      assert piece == noise + [b] + first;
      garbage := x.decode(noise);
      UncutThroughout(more, |noise| + 1 - |piece|);
      TextFromPiece(x, first, more, text);
      Regroup(garbage + [c], x.decode(first), Concat(DecodeEach(x, more)));
    }
  }
}
