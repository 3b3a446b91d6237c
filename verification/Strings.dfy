/** String operations shared by the parsers. What counts as white space depends on the language. */
module Strings {

  type CharTest = char -> bool

  /** What `\s` matches and `trim` removes in JavaScript. */
  predicate IsJsSpace(c: char) {
    '\t' <= c <= '\r' || c == ' ' || c == '\U{A0}' || c == '\U{1680}' || '\U{2000}' <= c <= '\U{200A}' ||
    c == '\U{2028}' || c == '\U{2029}' || c == '\U{202F}' || c == '\U{205F}' || c == '\U{3000}' || c == '\U{FEFF}'
  }

  lemma {:induction false} JsSpaces(c: char)
    ensures IsJsSpace(c) <==>
            || 9 <= c as int <= 13 || 8192 <= c as int <= 8202
            || c as int in {32, 160, 5760, 8232, 8233, 8239, 8287, 12288, 65279}
  {
  }

  /** `sep.join(parts)` */
  function JoinWith(sep: string, parts: seq<string>): string {
    if parts == [] then "" else if |parts| == 1 then parts[0] else parts[0] + sep + JoinWith(sep, parts[1..])
  }

  /** A number in decimal. */
  function Digits(n: nat): (s: string)
    ensures '\n' !in s
  {
    if n < 10 then ['0' + n as char] else Digits(n / 10) + ['0' + (n % 10) as char]
  }

  predicate IsDigit(c: char) {
    '0' <= c <= '9'
  }

  /** A number written in decimal, without leading zeros. */
  predicate IsNumeral(s: string) {
    s != "" && AllPass(IsDigit, s) && (|s| > 1 ==> s[0] != '0')
  }

  function NumeralValue(s: string): int {
    if s == "" then 0 else 10 * NumeralValue(s[..|s| - 1]) + (s[|s| - 1] as int - '0' as int)
  }

  lemma {:induction false} DigitsRead(n: nat)
    ensures IsNumeral(Digits(n)) && NumeralValue(Digits(n)) == n
    ensures n > 0 ==> Digits(n)[0] != '0'
  {
    var s := Digits(n);
    if n < 10 {
      assert s[..0] == "";
    } else {
      DigitsRead(n / 10);
      assert s[..|s| - 1] == Digits(n / 10);
    }
  }

  lemma {:induction false} NumeralWritten(s: string)
    requires IsNumeral(s)
    ensures NumeralValue(s) >= 0 && (s[0] != '0' ==> NumeralValue(s) > 0) && Digits(NumeralValue(s)) == s
  {
    var front, last := s[..|s| - 1], s[|s| - 1];
    if |s| == 1 {
      assert s == [last];
    } else {
      assert front[0] == s[0];
      NumeralWritten(front);
      var v, d := NumeralValue(front), last as int - '0' as int;
      assert (10 * v + d) / 10 == v && (10 * v + d) % 10 == d;
      assert s == front + [last];
    }
  }

  /** The decimal form of a number is its one numeral. */
  lemma {:induction false} DigitsExact(n: nat, s: string)
    ensures Digits(n) == s <==> IsNumeral(s) && NumeralValue(s) == n
  {
    DigitsRead(n);
    if IsNumeral(s) {
      NumeralWritten(s);
    }
  }

  /** The first position of c in s, or -1. */
  function IndexOf(s: string, c: char): (i: int)
    ensures -1 <= i < |s|
    ensures i == -1 <==> c !in s
    ensures i >= 0 ==> s[i] == c
    ensures forall k :: 0 <= k < i ==> s[k] != c
  {
    if s == "" then -1
    else if s[0] == c then 0
    else
      assert c in s <==> c in s[1..];
      var i := IndexOf(s[1..], c);
      if i == -1 then -1 else
      assert forall k :: 1 <= k < i + 1 ==> s[k] == s[1..][k - 1];
      i + 1
  }

  lemma {:induction false} IndexOfIs(s: string, c: char, i: nat)
    requires i < |s| && s[i] == c
    requires forall k :: 0 <= k < i ==> s[k] != c
    ensures IndexOf(s, c) == i
  {
  }

  function TrimStart<T>(space: T -> bool, s: seq<T>): (t: seq<T>)
    ensures |t| <= |s| && (t != [] ==> !space(t[0]))
  {
    if s == [] || !space(s[0]) then s else TrimStart(space, s[1..])
  }

  function TrimEnd<T>(space: T -> bool, s: seq<T>): (t: seq<T>)
    ensures |t| <= |s| && (t != [] ==> !space(t[|t| - 1]) && t[0] == s[0])
  {
    if s == [] || !space(s[|s| - 1]) then s else TrimEnd(space, s[..|s| - 1])
  }

  function Trim(space: CharTest, s: string): string {
    TrimEnd(space, TrimStart(space, s))
  }

  predicate Trimmed(space: CharTest, s: string) {
    s == "" || (!space(s[0]) && !space(s[|s| - 1]))
  }

  lemma {:induction false} TrimIsTrimmed(space: CharTest, s: string)
    ensures Trimmed(space, Trim(space, s))
    ensures Trim(space, s) == s <==> Trimmed(space, s)
    ensures |Trim(space, s)| <= |s|
  {
  }

  lemma {:induction false} TrimAfterSpace(space: CharTest, c: char, s: string)
    requires space(c)
    ensures Trim(space, [c] + s) == Trim(space, s)
  {
    assert ([c] + s)[1..] == s;
  }

  /** Trimming adds no character and removes only white space. */
  lemma {:induction false} TrimSubset(space: CharTest, s: string, c: char)
    ensures c in Trim(space, s) ==> c in s
    ensures c in s && !space(c) ==> c in Trim(space, s)
  {
    TrimStartSubset(space, s, c);
    TrimEndSubset(space, TrimStart(space, s), c);
  }

  lemma {:induction false} TrimStartSubset(space: CharTest, s: string, c: char)
    ensures c in TrimStart(space, s) ==> c in s
    ensures c in s && !space(c) ==> c in TrimStart(space, s)
  {
    if s != "" && space(s[0]) { TrimStartSubset(space, s[1..], c); }
  }

  lemma {:induction false} TrimEndSubset(space: CharTest, s: string, c: char)
    ensures c in TrimEnd(space, s) ==> c in s
    ensures c in s && !space(c) ==> c in TrimEnd(space, s)
  {
    if s != "" && space(s[|s| - 1]) { TrimEndSubset(space, s[..|s| - 1], c); }
  }

  /** How many characters at the front of s pass the test. */
  function Run(test: CharTest, s: string): (n: nat)
    ensures n <= |s|
    ensures forall i :: 0 <= i < n ==> test(s[i])
    ensures n < |s| ==> !test(s[n])
  {
    if s == "" || !test(s[0]) then 0 else 1 + Run(test, s[1..])
  }

  lemma {:induction false} RunIs(test: CharTest, s: string, n: nat)
    requires n <= |s| && (n < |s| ==> !test(s[n]))
    requires forall i :: 0 <= i < n ==> test(s[i])
    ensures Run(test, s) == n
  {
    if n > 0 { RunIs(test, s[1..], n - 1); }
  }

  predicate AllPass(test: CharTest, s: string) {
    forall i :: 0 <= i < |s| ==> test(s[i])
  }
}
