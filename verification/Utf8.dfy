/** Text in UTF-8, and what is read back when its bytes arrive in pieces that are decoded one by one. */
module Utf8 {
  import opened Numbers
  import opened TextPieces
  import opened Wrappers

  /** The bytes of a character: one to four, by its number. */
  function Encode(c: char): Bytes {
    var n := c as int;
    if n < 0x80 then [n]
    else if n < 0x800 then [0xC0 + n / 64, 0x80 + n % 64]
    else if n < 0x10000 then [0xE0 + n / 4096, 0x80 + n / 64 % 64, 0x80 + n % 64]
    else [0xF0 + n / 262144, 0x80 + n / 4096 % 64, 0x80 + n / 64 % 64, 0x80 + n % 64]
  }

  // ----- decoding -----

  /** How many bytes follow this first byte; None if no character starts with it. */
  function Needs(b: Byte): Option<nat> {
    if b < 0x80 then Some(0)
    else if 0xC2 <= b < 0xE0 then Some(1)
    else if 0xE0 <= b < 0xF0 then Some(2)
    else if 0xF0 <= b < 0xF5 then Some(3)
    else None
  }

  /** The second byte must not make a short form, a surrogate or a number beyond the last character. */
  predicate SecondFits(first: Byte, b: Byte) {
    Continues(b) && (first == 0xE0 ==> b >= 0xA0) && (first == 0xED ==> b < 0xA0) &&
    (first == 0xF0 ==> b >= 0x90) && (first == 0xF4 ==> b < 0x90)
  }

  /** How many bytes after the first belong to the character it starts. */
  function Follows(s: Bytes): (k: nat)
    requires s != [] && Needs(s[0]).Some?
    ensures k <= Needs(s[0]).value && k < |s|
  {
    var need := Needs(s[0]).value;
    if need == 0 || |s| < 2 || !SecondFits(s[0], s[1]) then 0
    else if need == 1 || |s| < 3 || !Continues(s[2]) then 1
    else if need == 2 || |s| < 4 || !Continues(s[3]) then 2
    else 3
  }

  /** The bits that two, three and four bytes carry. */
  function Join2(a: int, b: int): int { (a - 0xC0) * 64 + (b - 0x80) }

  function Join3(a: int, b: int, c: int): int { (a - 0xE0) * 4096 + (b - 0x80) * 64 + (c - 0x80) }

  function Join4(a: int, b: int, c: int, d: int): int {
    (a - 0xF0) * 262144 + (b - 0x80) * 4096 + (c - 0x80) * 64 + (d - 0x80)
  }

  function CharOf(s: Bytes): char
    requires s != [] && Needs(s[0]).Some? && Follows(s) == Needs(s[0]).value
  {
    var need := Needs(s[0]).value;
    if need == 0 then s[0] as char
    else if need == 1 then Join2(s[0], s[1]) as char
    else if need == 2 then Join3(s[0], s[1], s[2]) as char
    else Join4(s[0], s[1], s[2], s[3]) as char
  }

  /** How many bytes the first character read takes. */
  function Used(s: Bytes): (n: nat)
    requires s != []
    ensures 1 <= n <= |s|
  {
    if Needs(s[0]) == None then 1 else Follows(s) + 1
  }

  /** The first character read: the longest broken beginning of a character is replaced as a whole. */
  function First(s: Bytes): char
    requires s != []
  {
    if Needs(s[0]).Some? && Follows(s) == Needs(s[0]).value then CharOf(s) else REPLACEMENT
  }

  /** `toString('utf-8')` */
  function Decode(s: Bytes): string {
    if s == [] then "" else [First(s)] + Decode(s[Used(s)..])
  }

  lemma {:induction false} EncodeShape(c: char)
    ensures var e := Encode(c);
            && 1 <= |e| <= 4 && Needs(e[0]) == Some(|e| - 1) && !Continues(e[0])
            && (forall k :: 1 <= k < |e| ==> Continues(e[k]))
            && (|e| > 1 ==> SecondFits(e[0], e[1]))
  {
  }

  /** Follows and CharOf look at the bytes of the character only. */
  lemma {:induction false} FollowsOfFront(e: Bytes, rest: Bytes)
    requires 1 <= |e| <= 4 && Needs(e[0]) == Some(|e| - 1)
    requires (forall k :: 1 <= k < |e| ==> Continues(e[k])) && (|e| > 1 ==> SecondFits(e[0], e[1]))
    ensures Follows(e) == |e| - 1 && Follows(e + rest) == |e| - 1 && CharOf(e + rest) == CharOf(e)
  {
    var s := e + rest;
    assert forall k :: 0 <= k < |e| ==> s[k] == e[k];
  }

  lemma {:induction false} Recompose(n: nat)
    ensures n / 64 * 64 + n % 64 == n
    ensures n / 4096 * 4096 + n / 64 % 64 * 64 + n % 64 == n
    ensures n / 262144 * 262144 + n / 4096 % 64 * 4096 + n / 64 % 64 * 64 + n % 64 == n
  {
    assert n / 64 / 64 == n / 4096 && n / 4096 / 64 == n / 262144;
  }

  lemma {:induction false} EncodeReads(c: char)
    requires Needs(Encode(c)[0]) == Some(|Encode(c)| - 1) && Follows(Encode(c)) == |Encode(c)| - 1
    ensures CharOf(Encode(c)) == c
  {
    Recompose(c as int);
  }

  lemma {:induction false} DecodeOne(c: char, rest: Bytes)
    ensures Decode(Encode(c) + rest) == [c] + Decode(rest)
  {
    EncodeShape(c);
    FollowsOfFront(Encode(c), rest);
    EncodeReads(c);
    assert (Encode(c) + rest)[|Encode(c)|..] == rest;
  }

  /** The beginning of a character, cut off, is replaced. */
  lemma {:induction false} DecodeCut(c: char, k: nat)
    requires 0 < k < |Encode(c)|
    ensures Decode(Encode(c)[..k]) == [REPLACEMENT]
  {
    EncodeShape(c);
    var s := Encode(c)[..k];
    assert Follows(s) == k - 1;
    assert s[k..] == [];
  }

  lemma {:induction false} DecodeStray(b: Byte, rest: Bytes)
    requires Continues(b)
    ensures Decode([b] + rest) == [REPLACEMENT] + Decode(rest)
  {
    assert ([b] + rest)[1..] == rest;
  }

  // ----- the codec -----

  function Codec8(): Codec {
    Codec(c => Encode(c), s => Decode(s))
  }

  lemma {:induction false} Utf8Synchronizes()
    ensures SelfSynchronizing(Codec8())
  {
    forall c ensures Shaped(Codec8(), c) && ReadsWhole(Codec8(), c) && ReadsCut(Codec8(), c) {
      EncodeShape(c);
      forall rest: Bytes ensures Decode(Encode(c) + rest) == [c] + Decode(rest) {
        DecodeOne(c, rest);
      }
      forall k | 0 < k < |Encode(c)| ensures Decode(Encode(c)[..k]) == [REPLACEMENT] {
        DecodeCut(c, k);
      }
    }
    forall b ensures ReadsStray(Codec8(), b) {
      forall rest: Bytes | Continues(b) ensures Decode([b] + rest) == [REPLACEMENT] + Decode(rest) {
        DecodeStray(b, rest);
      }
    }
  }

  /**
    The bytes of a text in UTF-8, decoded piece by piece, give the text back exactly if no piece begins inside a
    character.
   */
  lemma {:induction false} DecodedPiecesIff(pieces: seq<Bytes>, text: string)
    requires Concat(pieces) == EncodeAll(Codec8(), text)
    ensures Concat(DecodeEach(Codec8(), pieces)) == text <==> CutsBetweenCharacters(pieces)
  {
    Utf8Synchronizes();
    PiecesIff(Codec8(), pieces, text);
  }

  /** Any character of more than one byte is lost when it is cut. */
  lemma {:induction false} CutCharacterIsLost(before: string, c: char, after: string, k: nat)
    requires 0 < k < |Encode(c)|
    ensures var e, text := Encode(c), before + [c] + after;
            var pieces := [EncodeAll(Codec8(), before) + e[..k], e[k..] + EncodeAll(Codec8(), after)];
            Concat(pieces) == EncodeAll(Codec8(), text) && Concat(DecodeEach(Codec8(), pieces)) != text
  {
    Utf8Synchronizes();
    CutIsLost(Codec8(), before, c, after, k);
  }

  // ----- text behind bytes of any kind -----

  /** What is read first ends before a byte that is a character by itself. */
  lemma {:induction false} FirstBefore(front: Bytes, b: Byte, rest: Bytes)
    requires b < 0x80 && front != []
    ensures var s := front + [b] + rest; Used(s) == Used(front) && First(s) == First(front)
  {
    var s := front + [b] + rest;
    assert forall i :: 0 <= i < |front| ==> s[i] == front[i];
    assert s[|front|] == b && !Continues(b);
  }

  /** The decoder reads one character, then the rest. */
  predicate ReadsStep(decode: Bytes -> string, first: Bytes -> char, used: Bytes -> nat, s: Bytes) {
    if s == [] then decode(s) == "" else 1 <= used(s) <= |s| && decode(s) == [first(s)] + decode(s[used(s)..])
  }

  /** Of what comes before the byte, the same is read first whether the byte follows or not. */
  predicate StopsBefore(first: Bytes -> char, used: Bytes -> nat, front: Bytes, b: Byte, rest: Bytes) {
    front != [] ==> used(front + [b] + rest) == used(front) && first(front + [b] + rest) == first(front)
  }

  lemma {:induction false} AroundBySteps(decode: Bytes -> string, first: Bytes -> char, used: Bytes -> nat,
        front: Bytes, b: Byte, rest: Bytes)
    requires forall s: Bytes :: ReadsStep(decode, first, used, s)
    requires forall f: Bytes :: StopsBefore(first, used, f, b, rest)
    requires used([b] + rest) == 1
    ensures decode(front + [b] + rest) == decode(front) + [first([b] + rest)] + decode(rest)
    decreases |front|
  {
    var s := front + [b] + rest;
    assert ReadsStep(decode, first, used, s) && ReadsStep(decode, first, used, front);
    if front == [] {
      assert s == [b] + rest && s[1..] == rest;
    } else {
      var k := used(front);
      assert StopsBefore(first, used, front, b, rest);
      AroundBySteps(decode, first, used, front[k..], b, rest);
      assert s[k..] == front[k..] + [b] + rest;
    }
  }

  function FirstOr(s: Bytes): char {
    if s == [] then REPLACEMENT else First(s)
  }

  function UsedOf(s: Bytes): nat {
    if s == [] then 0 else Used(s)
  }

  lemma {:induction false} DecodeAround(front: Bytes, b: Byte, rest: Bytes)
    requires b < 0x80
    ensures Decode(front + [b] + rest) == Decode(front) + [b as char] + Decode(rest)
  {
    forall f: Bytes ensures StopsBefore(FirstOr, UsedOf, f, b, rest) {
      if f != [] {
        FirstBefore(f, b, rest);
      }
    }
    AroundBySteps(Decode, FirstOr, UsedOf, front, b, rest);
  }

  /** Whatever comes before it, a newline is read as one, and what follows is read alone. */
  lemma {:induction false} NewlineResumes()
    ensures ReadsAround(Codec8(), 10, '\n')
  {
    forall front: Bytes, rest: Bytes ensures Decode(front + [10] + rest) == Decode(front) + ['\n'] + Decode(rest) {
      DecodeAround(front, 10, rest);
    }
  }
}
