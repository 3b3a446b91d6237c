/** Pairing codes: drawing them, and reading them from messages that may address the bot by name. */
module PairingCode {
  import opened Strings
  import opened Wrappers

  type Code = string

  const DRAWS := 50

  // ----- codes -----

  predicate IsWord(c: char) {
    'a' <= c <= 'z' || 'A' <= c <= 'Z' || IsDigit(c) || c == '_'
  }

  predicate IsCode(s: string) {
    |s| == 4 && AllPass(IsDigit, s)
  }

  function Value(digit: char): (v: nat)
    requires IsDigit(digit)
    ensures v < 10
  {
    digit as int - '0' as int
  }

  /** The number that a code shows. */
  function DrawOf(code: Code): (draw: nat)
    requires IsCode(code)
    ensures draw < 10000
  {
    1000 * Value(code[0]) + 100 * Value(code[1]) + 10 * Value(code[2]) + Value(code[3])
  }

  /** A draw from 0 to 9999, padded with zeros. */
  function CodeOf(draw: nat): (code: Code)
    requires draw < 10000
    ensures IsCode(code)
  {
    [Digit(draw / 1000), Digit(draw / 100 % 10), Digit(draw / 10 % 10), Digit(draw % 10)]
  }

  function Digit(d: nat): (c: char)
    requires d < 10
    ensures IsDigit(c)
  {
    '0' + d as char
  }

  lemma {:induction false} CodeReadsAsDraw(draw: nat)
    requires draw < 10000
    ensures DrawOf(CodeOf(draw)) == draw
  {
    DigitReads(draw / 1000);
    DigitReads(draw / 100 % 10);
    DigitReads(draw / 10 % 10);
    DigitReads(draw % 10);
    Decimal(draw);
  }

  lemma {:induction false} Decimal(n: nat)
    ensures 1000 * (n / 1000) + 100 * (n / 100 % 10) + 10 * (n / 10 % 10) + n % 10 == n
  {
    assert n / 100 / 10 == n / 1000 && n / 10 / 10 == n / 100;
  }

  lemma {:induction false} DigitReads(d: nat)
    requires d < 10
    ensures Value(Digit(d)) == d
  {
  }

  lemma {:induction false} LastDigit(rest: nat, d: nat)
    requires d < 10
    ensures (10 * rest + d) / 10 == rest && (10 * rest + d) % 10 == d
  {
  }

  lemma {:induction false} DigitsOf(a: nat, b: nat, c: nat, d: nat)
    requires b < 10 && c < 10 && d < 10
    ensures var n := 1000 * a + 100 * b + 10 * c + d;
            n % 10 == d && n / 10 % 10 == c && n / 100 % 10 == b && n / 1000 == a
  {
    var n := 1000 * a + 100 * b + 10 * c + d;
    LastDigit(100 * a + 10 * b + c, d);
    LastDigit(10 * a + b, c);
    LastDigit(a, b);
    assert n / 100 == n / 10 / 10 && n / 1000 == n / 10 / 10 / 10;
  }

  /** Every code is the code of one draw. */
  lemma {:induction false} CodeOfDraw(code: Code)
    requires IsCode(code)
    ensures CodeOf(DrawOf(code)) == code
  {
    DigitsOf(Value(code[0]), Value(code[1]), Value(code[2]), Value(code[3]));
    DigitOfValue(code[0]);
    DigitOfValue(code[1]);
    DigitOfValue(code[2]);
    DigitOfValue(code[3]);
  }

  lemma {:induction false} DigitOfValue(c: char)
    requires IsDigit(c)
    ensures Digit(Value(c)) == c
  {
  }

  /** Fifty draws of `Math.random`. */
  type Draws = d: seq<nat> | |d| == 50 && forall i :: 0 <= i < |d| ==> d[i] < 10000 witness seq(50, i => 0)

  method GenerateCode(active: set<Code>, draws: Draws) returns (code: Option<Code>)
    ensures code == FirstFree(active, draws)
  {
    var i := 0;
    while i < DRAWS
      invariant 0 <= i <= DRAWS
      invariant FirstFree(active, draws) == FirstFree(active, draws[i..])
    {
      var drawn := CodeOf(draws[i]);
      if drawn !in active {
        return Some(drawn);
      }
      i := i + 1;
    }
    code := None;
  }

  function FirstFree(active: set<Code>, draws: seq<nat>): (code: Option<Code>)
    requires forall i :: 0 <= i < |draws| ==> draws[i] < 10000
    ensures code == None <==> forall i :: 0 <= i < |draws| ==> CodeOf(draws[i]) in active
    ensures code.Some? ==> IsCode(code.value) && code.value !in active
  {
    if draws == [] then None
    else if CodeOf(draws[0]) !in active then Some(CodeOf(draws[0]))
    else FirstFree(active, draws[1..])
  }

  // ----- reading a code from a message -----

  /** What the search for a pattern after `^@` and before `\b` finds: a match of so many characters, or none. */
  datatype Match = BadPattern | Unmatched | Matched(length: nat)

  /** The host's regular expressions: how letters are compared, and the search for a pattern with operators. */
  datatype Regex = Regex(fold: char -> char, search: (string, string) -> Match)

  predicate SameFolded(re: Regex, a: string, b: string) {
    |a| == |b| && forall i :: 0 <= i < |a| ==> re.fold(a[i]) == re.fold(b[i])
  }

  /** Whether `\b` matches between s[..i] and s[i..]. */
  predicate IsBoundary(s: string, i: nat)
    requires 0 < i <= |s|
  {
    IsWord(s[i - 1]) != (i < |s| && IsWord(s[i]))
  }

  /** The characters in the class of the escaping expression. */
  predicate IsSpecial(c: char) {
    c in ".*+?^${}()|[\\"
  }

  /** A character that stands for itself in a pattern. */
  predicate IsPlain(c: char) {
    !IsSpecial(c) && c != ']'
  }

  /** The class is followed by two backslashes and a bracket, and the expression matches all four characters. */
  predicate Escapes(name: string, i: nat) {
    i + 4 <= |name| && IsSpecial(name[i]) && name[i + 1..i + 4] == "\\\\]"
  }

  function Escape(name: string): string {
    if name == "" then ""
    else if Escapes(name, 0) then "\\" + name[..4] + Escape(name[4..])
    else [name[0]] + Escape(name[1..])
  }

  /** The length of `@name` at the front of the text. */
  function FindName(re: Regex, text: string, bot: string): Match {
    if AllPass(IsPlain, bot) then
      var n := |bot| + 1;
      if |text| >= n && text[0] == '@' && SameFolded(re, text[1..n], bot) && IsBoundary(text, n)
      then Matched(n) else Unmatched
    else re.search(Escape(bot), text)
  }

  /** What a message says: a code, nothing, or an error for a name that is no pattern. */
  datatype Reading = Throws | NoCode | ACode(code: Code)

  function ReadCandidate(candidate: string): Reading {
    if IsCode(candidate) then ACode(candidate) else NoCode
  }

  function ExtractCode(re: Regex, text: string, bot: string): (r: Reading)
    ensures r.ACode? ==> IsCode(r.code)
  {
    var trimmed := Trim(IsJsSpace, text);
    match FindName(re, trimmed, bot)
    case BadPattern => Throws
    case Unmatched => ReadCandidate(trimmed)
    case Matched(n) => ReadCandidate(Trim(IsJsSpace, trimmed[if n <= |trimmed| then n else |trimmed|..]))
  }

  lemma {:induction false} CodeHasNoSpace(code: string)
    requires IsCode(code)
    ensures Trimmed(IsJsSpace, code) && code[0] != '@'
  {
  }

  /** A bare code, however padded, is read as itself, if the bot's name is plain. */
  lemma {:induction false} BareCodeRead(re: Regex, text: string, bot: string)
    requires IsCode(Trim(IsJsSpace, text)) && AllPass(IsPlain, bot)
    ensures ExtractCode(re, text, bot) == ACode(Trim(IsJsSpace, text))
  {
    CodeHasNoSpace(Trim(IsJsSpace, text));
  }

  function Addressing(bot: string, code: Code): string {
    "@" + bot + " " + code
  }

  lemma {:induction false} AddressingIsTrimmed(bot: string, code: Code)
    requires IsCode(code)
    ensures Trim(IsJsSpace, Addressing(bot, code)) == Addressing(bot, code) && !IsCode(Addressing(bot, code))
  {
    var text := Addressing(bot, code);
    CodeHasNoSpace(code);
    assert text[|text| - 1] == code[3] && text[0] == '@';
    TrimIsTrimmed(IsJsSpace, text);
  }

  /** The text addresses the bot: the name in some spelling, white space, and the code. */
  predicate Addressed(re: Regex, text: string, bot: string, code: Code, spelling: string, gap: string) {
    && text == "@" + spelling + gap + code && SameFolded(re, spelling, bot) && AllPass(IsJsSpace, gap)
    && (gap != "" <==> spelling != "" && IsWord(spelling[|spelling| - 1]))
  }

  lemma {:induction false} SpacesAreNoWord(c: char)
    requires IsJsSpace(c)
    ensures !IsWord(c)
  {
  }

  lemma {:induction false} NameEnds(re: Regex, text: string, bot: string, code: Code, spelling: string, gap: string)
    requires IsCode(code) && text == "@" + spelling + gap + code && |spelling| == |bot| && AllPass(IsJsSpace, gap)
    ensures text[1..|bot| + 1] == spelling && text[|bot| + 1..] == gap + code
    ensures IsBoundary(text, |bot| + 1) <==> (gap != "" <==> spelling != "" && IsWord(spelling[|spelling| - 1]))
  {
    var n := |bot| + 1;
    assert text[n - 1] == ("@" + spelling)[|bot|];
    if gap == "" {
      assert text[n] == code[0];
    } else {
      assert text[n] == gap[0];
      SpacesAreNoWord(gap[0]);
    }
  }

  lemma {:induction false} GapTrimmed(gap: string, code: Code)
    requires IsCode(code) && AllPass(IsJsSpace, gap)
    ensures Trim(IsJsSpace, gap + code) == code
  {
    CodeHasNoSpace(code);
    if gap == "" {
      assert gap + code == code;
      TrimIsTrimmed(IsJsSpace, code);
    } else {
      assert gap + code == [gap[0]] + (gap[1..] + code);
      TrimAfterSpace(IsJsSpace, gap[0], gap[1..] + code);
      GapTrimmed(gap[1..], code);
    }
  }

  lemma {:induction false} AddressIsTrimmed(spelling: string, gap: string, code: Code)
    requires IsCode(code)
    ensures var text := "@" + spelling + gap + code; Trim(IsJsSpace, text) == text && !IsCode(text)
  {
    var text := "@" + spelling + gap + code;
    CodeHasNoSpace(code);
    assert text[|text| - 1] == code[3] && text[0] == '@';
    TrimIsTrimmed(IsJsSpace, text);
  }

  /**
    In whatever spelling the bot is addressed, the code behind it is read exactly if white space separates it from
    a name that ends in a word character, or nothing separates it from one that does not, if the name is plain.
   */
  lemma {:induction false} AddressedCodeRead(re: Regex, bot: string, spelling: string, gap: string, code: Code)
    requires IsCode(code) && AllPass(IsPlain, bot) && SameFolded(re, spelling, bot) && AllPass(IsJsSpace, gap)
    ensures ExtractCode(re, "@" + spelling + gap + code, bot) == ACode(code) <==>
            (gap != "" <==> spelling != "" && IsWord(spelling[|spelling| - 1]))
  {
    var text := "@" + spelling + gap + code;
    AddressIsTrimmed(spelling, gap, code);
    NameFoundIff(re, text, bot, code, spelling, gap);
    GapTrimmed(gap, code);
    ReadBehind(re, text, bot, gap + code);
  }

  lemma {:induction false} NameFoundIff(re: Regex, text: string, bot: string, code: Code, spelling: string, gap: string)
    requires IsCode(code) && AllPass(IsPlain, bot) && SameFolded(re, spelling, bot) && AllPass(IsJsSpace, gap)
    requires text == "@" + spelling + gap + code
    ensures |text| > |bot| + 1 && text[|bot| + 1..] == gap + code
    ensures FindName(re, text, bot) ==
            if gap != "" <==> spelling != "" && IsWord(spelling[|spelling| - 1]) then Matched(|bot| + 1) else Unmatched
  {
    NameEnds(re, text, bot, code, spelling, gap);
  }

  lemma {:induction false} ReadBehind(re: Regex, text: string, bot: string, rest: string)
    requires Trim(IsJsSpace, text) == text && |text| > |bot| + 1 && text[|bot| + 1..] == rest
    requires FindName(re, text, bot) in {Matched(|bot| + 1), Unmatched}
    ensures ExtractCode(re, text, bot) ==
            ReadCandidate(if FindName(re, text, bot).Matched? then Trim(IsJsSpace, rest) else text)
  {
  }

  lemma {:induction false} TrimLeavesGap(space: CharTest, s: string) returns (gap: string)
    requires s != "" ==> !space(s[|s| - 1])
    ensures AllPass(space, gap) && s == gap + Trim(space, s)
  {
    if s == "" || !space(s[0]) {
      gap := "";
      TrimIsTrimmed(space, s);
    } else {
      var rest := TrimLeavesGap(space, s[1..]);
      assert s == [s[0]] + s[1..];
      TrimAfterSpace(space, s[0], s[1..]);
      gap := LongerGap(space, s[0], rest, Trim(space, s));
    }
  }

  lemma {:induction false} LongerGap(space: CharTest, c: char, gap: string, rest: string) returns (longer: string)
    requires space(c) && AllPass(space, gap)
    ensures AllPass(space, longer) && longer + rest == [c] + (gap + rest)
  {
    longer := [c] + gap;
  }

  lemma {:induction false} ReadIsAddressed(re: Regex, text: string, bot: string, code: Code)
    requires AllPass(IsPlain, bot) && Trimmed(IsJsSpace, text) && FindName(re, text, bot).Matched?
    requires IsCode(code) && Trim(IsJsSpace, text[|bot| + 1..]) == code
    ensures exists spelling, gap :: Addressed(re, text, bot, code, spelling, gap)
  {
    var n := |bot| + 1;
    var spelling, rest := text[1..n], text[n..];
    assert rest != "" ==> rest[|rest| - 1] == text[|text| - 1];
    var gap := TrimLeavesGap(IsJsSpace, rest);
    assert text == "@" + spelling + gap + code;
    NameEnds(re, text, bot, code, spelling, gap);
    assert Addressed(re, text, bot, code, spelling, gap);
  }

  /** With a plain name, a message is read as a code exactly if it is that code, bare or addressed to the bot. */
  lemma {:induction false} CodeReadIff(re: Regex, text: string, bot: string, code: Code)
    requires IsCode(code) && AllPass(IsPlain, bot)
    ensures var trimmed := Trim(IsJsSpace, text);
            ExtractCode(re, text, bot) == ACode(code) <==>
            trimmed == code || exists spelling, gap :: Addressed(re, trimmed, bot, code, spelling, gap)
  {
    var trimmed := Trim(IsJsSpace, text);
    TrimIsTrimmed(IsJsSpace, text);
    if trimmed == code {
      BareCodeRead(re, text, bot);
    }
    if spelling, gap :| Addressed(re, trimmed, bot, code, spelling, gap) {
      TrimIsTrimmed(IsJsSpace, trimmed);
      AddressedCodeRead(re, bot, spelling, gap, code);
    }
    if ExtractCode(re, text, bot) == ACode(code) && trimmed != code {
      ReadIsAddressed(re, trimmed, bot, code);
    }
  }

  /** Where letters are not folded, the only spelling of a name is the name. */
  lemma {:induction false} SpellingIsName(re: Regex, spelling: string, bot: string)
    requires forall c :: re.fold(c) == c
    ensures SameFolded(re, spelling, bot) <==> spelling == bot
  {
  }

  /** Reading a code throws exactly if the host takes the name, escaped or not, for no pattern. */
  lemma {:induction false} ReadingThrowsIff(re: Regex, text: string, bot: string)
    ensures ExtractCode(re, text, bot) == Throws <==>
            !AllPass(IsPlain, bot) && re.search(Escape(bot), Trim(IsJsSpace, text)) == BadPattern
  {
  }

  // ----- names with pattern operators -----

  lemma {:induction false} EscapesMeans(name: string)
    ensures (exists i :: Escapes(name, i)) <==>
            exists i :: 0 <= i && i + 4 <= |name| && name[i] in ".*+?^${}()|[\\" && name[i + 1..i + 4] == "\\\\]"
  {
    if i :| 0 <= i && i + 4 <= |name| && name[i] in ".*+?^${}()|[\\" && name[i + 1..i + 4] == "\\\\]" {
      assert Escapes(name, i);
    }
  }

  /** A name is escaped exactly if one of its special characters is followed by two backslashes and a bracket. */
  lemma {:induction false} EscapesIff(name: string)
    ensures Escape(name) != name <==>
            exists i :: 0 <= i && i + 4 <= |name| && name[i] in ".*+?^${}()|[\\" && name[i + 1..i + 4] == "\\\\]"
    decreases |name|
  {
    EscapeLengthens(name);
    EscapesMeans(name);
    if name == "" {
    } else if Escapes(name, 0) {
      EscapeLengthens(name[4..]);
      assert |Escape(name)| > |name|;
    } else {
      EscapesIff(name[1..]);
      EscapesMeans(name[1..]);
      assert Escape(name) == [name[0]] + Escape(name[1..]) && name == [name[0]] + name[1..];
      assert Escape(name) == name <==> Escape(name[1..]) == name[1..] by {
        assert Escape(name)[1..] == Escape(name[1..]);
      }
      forall i: nat ensures Escapes(name[1..], i) <==> Escapes(name, i + 1) {
        EscapesBehind(name, i);
      }
      if i: nat :| i > 0 && Escapes(name, i) {
        assert Escapes(name[1..], i - 1);
      }
    }
  }

  lemma {:induction false} EscapesBehind(name: string, i: nat)
    requires name != ""
    ensures Escapes(name[1..], i) <==> Escapes(name, i + 1)
  {
    var rest := name[1..];
    if i + 4 <= |rest| {
      assert rest[i + 1..i + 4] == name[i + 2..i + 5];
    }
  }

  /** The first special character with two backslashes and a bracket behind it gets a backslash before it. */
  lemma {:induction false} FirstIsEscaped(before: string, c: char, after: string)
    requires IsSpecial(c) && forall i :: 0 <= i < |before| ==> !Escapes(before + [c] + "\\\\]" + after, i)
    ensures Escape(before + [c] + "\\\\]" + after) == before + "\\" + [c] + "\\\\]" + Escape(after)
    decreases |before|
  {
    var name := before + [c] + "\\\\]" + after;
    if before == "" {
      assert name[..4] == [c] + "\\\\]" && name[4..] == after && name[1..4] == "\\\\]";
      assert Escapes(name, 0);
    } else {
      var rest := before[1..] + [c] + "\\\\]" + after;
      assert name[1..] == rest && name[0] == before[0];
      forall i: nat | i < |before| - 1 ensures !Escapes(rest, i) {
        assert !Escapes(name, i + 1);
        EscapesBehind(name, i);
      }
      FirstIsEscaped(before[1..], c, after);
      assert !Escapes(name, 0);
    }
  }

  lemma {:induction false} EscapeLengthens(name: string)
    ensures |Escape(name)| >= |name|
    decreases |name|
  {
    if name != "" {
      if Escapes(name, 0) { EscapeLengthens(name[4..]); } else { EscapeLengthens(name[1..]); }
    }
  }

  function Repeat(c: char, k: nat): string {
    seq(k, _ => c)
  }

  /** What the pattern `^@ac+b` matches: the character before the operator once or more often. */
  ghost predicate ReadsPlus(re: Regex, a: string, c: char, b: string) {
    forall text, n: nat :: re.search(a + [c] + "+" + b, text) == Matched(n) ==>
      n <= |text| && exists k: nat :: k > 0 && SameFolded(re, text[..n], "@" + a + Repeat(c, k) + b)
  }

  lemma {:induction false} EscapesNeedBackslash(name: string, i: nat)
    requires Escapes(name, i)
    ensures '\\' in name
  {
    assert name[i + 1..i + 4][0] == name[i + 1];
  }

  lemma {:induction false} UnescapedStays(name: string)
    requires forall i :: !Escapes(name, i)
    ensures Escape(name) == name
  {
    EscapesMeans(name);
    EscapesIff(name);
  }

  lemma {:induction false} PlusNameStays(a: string, c: char, b: string)
    requires AllPass(IsWord, a) && IsWord(c) && AllPass(IsWord, b)
    ensures var bot := a + [c] + "+" + b; !AllPass(IsPlain, bot) && Escape(bot) == bot
  {
    var bot := a + [c] + "+" + b;
    assert bot[|a| + 1] == '+' && !IsPlain('+');
    assert '\\' !in bot;
    if i: nat :| Escapes(bot, i) {
      EscapesNeedBackslash(bot, i);
    }
    UnescapedStays(bot);
  }

  /** After the `@`, only word characters are matched. */
  lemma {:induction false} MatchIsWords(re: Regex, text: string, n: nat, shape: string)
    requires n <= |text| && SameFolded(re, text[..n], shape)
    requires forall i :: 0 < i < |shape| ==> IsWord(shape[i])
    requires forall x :: IsWord(x) ==> re.fold(x) != re.fold('+')
    ensures forall i :: 0 < i < n ==> text[i] != '+'
  {
    forall i | 0 < i < n ensures text[i] != '+' {
      assert re.fold(text[..n][i]) == re.fold(shape[i]);
    }
  }

  lemma {:induction false} PlusIsNoCode(text: string, n: nat, plus: nat)
    requires n <= plus < |text| && text[plus] == '+'
    ensures !IsCode(Trim(IsJsSpace, text[n..]))
  {
    assert text[n..][plus - n] == '+';
    TrimSubset(IsJsSpace, text[n..], '+');
  }

  lemma {:induction false} ShapeOfWords(a: string, c: char, k: nat, b: string)
    requires AllPass(IsWord, a) && IsWord(c) && AllPass(IsWord, b)
    ensures var shape := "@" + a + Repeat(c, k) + b; forall i :: 0 < i < |shape| ==> IsWord(shape[i])
  {
  }

  /** What the search finds in an addressed code is no match, or one before the plus sign. */
  lemma {:induction false} PlusNameFound(re: Regex, a: string, c: char, b: string, text: string)
    requires AllPass(IsWord, a) && IsWord(c) && AllPass(IsWord, b) && ReadsPlus(re, a, c, b)
    requires forall x :: IsWord(x) ==> re.fold(x) != re.fold('+')
    requires |text| > |a| + 2 && text[|a| + 2] == '+'
    ensures var found := re.search(a + [c] + "+" + b, text); found.Matched? ==> found.length <= |a| + 2
  {
    var found := re.search(a + [c] + "+" + b, text);
    if found.Matched? {
      var k: nat :| k > 0 && SameFolded(re, text[..found.length], "@" + a + Repeat(c, k) + b);
      ShapeOfWords(a, c, k, b);
      MatchIsWords(re, text, found.length, "@" + a + Repeat(c, k) + b);
    }
  }

  /** What follows a match before the plus sign is no code. */
  lemma {:induction false} OperatorNameUnread(re: Regex, bot: string, text: string, plus: nat)
    requires Trim(IsJsSpace, text) == text && !IsCode(text) && plus < |text| && text[plus] == '+'
    requires !AllPass(IsPlain, bot) && Escape(bot) == bot
    requires var found := re.search(bot, text); found.Matched? ==> found.length <= plus
    ensures !ExtractCode(re, text, bot).ACode?
  {
    assert FindName(re, text, bot) == re.search(bot, text);
    match re.search(bot, text)
    case BadPattern =>
    case Unmatched =>
    case Matched(n) => PlusIsNoCode(text, n, plus);
  }

  /** For a bot named `ac+b` no addressed code is ever read: the `+` is taken as an operator. */
  lemma {:induction false} PlusNameNeverRead(re: Regex, a: string, c: char, b: string, code: Code)
    requires IsCode(code) && AllPass(IsWord, a) && IsWord(c) && AllPass(IsWord, b) && ReadsPlus(re, a, c, b)
    requires forall x :: IsWord(x) ==> re.fold(x) != re.fold('+')
    ensures var bot := a + [c] + "+" + b; !ExtractCode(re, "@" + bot + " " + code, bot).ACode?
  {
    var bot := a + [c] + "+" + b;
    assert bot[|a| + 1] == '+';
    assert Addressing(bot, code)[|a| + 2] == bot[|a| + 1];
    PlusNameStays(a, c, b);
    PlusNameFound(re, a, c, b, Addressing(bot, code));
    AddressingIsTrimmed(bot, code);
    OperatorNameUnread(re, bot, Addressing(bot, code), |a| + 2);
  }
}
