/** The pieces of an exported memory's Markdown: tag lists and entry headings. */
module MemoryMarkdown {
  import opened Strings
  import opened Wrappers

  /** What `\s` matches and `strip` removes in Python. */
  predicate IsPySpace(c: char) {
    '\t' <= c <= '\r' || '\U{1C}' <= c <= ' ' || c == '\U{85}' || c == '\U{A0}' ||
      c == '\U{1680}' || '\U{2000}' <= c <= '\U{200A}' ||
    c == '\U{2028}' || c == '\U{2029}' || c == '\U{202F}' || c == '\U{205F}' || c == '\U{3000}'
  }

  lemma {:induction false} PySpaces(c: char)
    ensures IsPySpace(c) <==>
            || 9 <= c as int <= 13 || 28 <= c as int <= 32 || 8192 <= c as int <= 8202
            || c as int in {133, 160, 5760, 8232, 8233, 8239, 8287, 12288}
  {
  }

  /** What is needed of the characters `\w` matches. */
  ghost predicate IsWordTest(word: CharTest) {
    word(']') == word(')') == word('(') == false && forall c :: 'a' <= c <= 'z' ==> word(c)
  }

  // ----- splitting and joining -----

  function SplitOn(c: char, s: string): (parts: seq<string>)
    ensures parts != []
  {
    if s == "" then [""] else
    var rest := SplitOn(c, s[1..]);
    if s[0] == c then [""] + rest else [[s[0]] + rest[0]] + rest[1..]
  }

  lemma {:induction false} SplitConcat(c: char, a: string, b: string)
    ensures SplitOn(c, a + [c] + b) == SplitOn(c, a) + SplitOn(c, b)
  {
    if a == "" {
      assert a + [c] + b == [c] + b && ([c] + b)[1..] == b;
    } else {
      assert (a + [c] + b)[1..] == a[1..] + [c] + b;
      SplitConcat(c, a[1..], b);
    }
  }

  lemma {:induction false} SplitWhole(c: char, s: string)
    requires c !in s
    ensures SplitOn(c, s) == [s]
  {
    if s != "" {
      SplitWhole(c, s[1..]);
      assert [s[0]] + s[1..] == s;
    }
  }

  lemma {:induction false} PartsAreClean(c: char, s: string)
    ensures forall k :: 0 <= k < |SplitOn(c, s)| ==> c !in SplitOn(c, s)[k]
    ensures forall k, x :: 0 <= k < |SplitOn(c, s)| && x in SplitOn(c, s)[k] ==> x in s
  {
    if s != "" {
      PartsAreClean(c, s[1..]);
      var rest, parts := SplitOn(c, s[1..]), SplitOn(c, s);
      assert forall k :: 1 <= k < |rest| ==> rest[1..][k - 1] == rest[k];
      forall k | 0 <= k < |parts| ensures c !in parts[k] && forall x :: x in parts[k] ==> x in s {
        if s[0] == c {
          assert k > 0 ==> parts[k] == rest[k - 1];
        } else {
          assert k > 0 ==> parts[k] == rest[k];
        }
        assert forall x :: x in s[1..] ==> x in s;
      }
    }
  }

  // ----- tags -----

  function Tidy(parts: seq<string>): seq<string> {
    if parts == [] then [] else
    (if Trim(IsPySpace, parts[0]) == "" then [] else [Trim(IsPySpace, parts[0])]) + Tidy(parts[1..])
  }

  function ParseTags(s: string): seq<string> {
    Tidy(SplitOn(',', s))
  }

  function JoinTags(tags: seq<string>): string {
    JoinWith(", ", tags)
  }

  predicate GoodTag(tag: string) {
    tag != "" && Trimmed(IsPySpace, tag) && ',' !in tag
  }

  predicate GoodTags(tags: seq<string>) {
    forall k :: 0 <= k < |tags| ==> GoodTag(tags[k])
  }

  lemma {:induction false} TidyConcat(a: seq<string>, b: seq<string>)
    ensures Tidy(a + b) == Tidy(a) + Tidy(b)
  {
    if a == [] {
      assert a + b == b;
    } else {
      assert (a + b)[1..] == a[1..] + b;
      TidyConcat(a[1..], b);
    }
  }

  lemma {:induction false} TidyIsGood(parts: seq<string>)
    requires forall k :: 0 <= k < |parts| ==> ',' !in parts[k]
    ensures GoodTags(Tidy(parts))
  {
    if parts != [] {
      TrimIsTrimmed(IsPySpace, Trim(IsPySpace, parts[0]));
      TrimIsTrimmed(IsPySpace, parts[0]);
      TrimSubset(IsPySpace, parts[0], ',');
      TidyIsGood(parts[1..]);
    }
  }

  lemma {:induction false} ParsedTagsAreGood(s: string)
    ensures GoodTags(ParseTags(s))
  {
    PartsAreClean(',', s);
    TidyIsGood(SplitOn(',', s));
  }

  lemma {:induction false} SpaceBeforeTags(s: string)
    ensures ParseTags(" " + s) == ParseTags(s)
  {
    var parts := SplitOn(',', s);
    assert (" " + s)[1..] == s;
    assert SplitOn(',', " " + s) == [" " + parts[0]] + parts[1..];
    TrimAfterSpace(IsPySpace, ' ', parts[0]);
    assert ([" " + parts[0]] + parts[1..])[1..] == parts[1..];
  }

  lemma {:induction false} TidyOne(tag: string)
    requires GoodTag(tag)
    ensures Tidy([tag]) == [tag]
  {
    TrimIsTrimmed(IsPySpace, tag);
    assert [tag][1..] == [];
  }

  lemma {:induction false} GoodTagsParse(tags: seq<string>)
    requires GoodTags(tags)
    ensures ParseTags(JoinTags(tags)) == tags
  {
    if tags == [] {
      assert Tidy([""]) == [] by { assert [""][1..] == []; }
    } else {
      SplitWhole(',', tags[0]);
      TidyOne(tags[0]);
      if |tags| > 1 {
        var rest := JoinTags(tags[1..]);
        assert JoinTags(tags) == tags[0] + [','] + (" " + rest);
        SplitConcat(',', tags[0], " " + rest);
        TidyConcat([tags[0]], SplitOn(',', " " + rest));
        SpaceBeforeTags(rest);
        GoodTagsParse(tags[1..]);
      }
    }
  }

  /** The tags line reads back exactly if every tag is trimmed, non-empty and free of commas. */
  lemma {:induction false} TagsReadBackIff(tags: seq<string>)
    ensures ParseTags(JoinTags(tags)) == tags <==> GoodTags(tags)
  {
    ParsedTagsAreGood(JoinTags(tags));
    if GoodTags(tags) {
      GoodTagsParse(tags);
    }
  }

  // ----- the heading pattern -----

  function RunBack(test: CharTest, s: string): (n: nat)
    ensures n <= |s|
    ensures forall i :: |s| - n <= i < |s| ==> test(s[i])
    ensures n < |s| ==> !test(s[|s| - n - 1])
  {
    if s == "" || !test(s[|s| - 1]) then 0 else 1 + RunBack(test, s[..|s| - 1])
  }

  /** The group of `\s+.+\((\w+)\)\s*$`. */
  function MatchTail(word: CharTest, rest: string): Option<string> {
    var t := TrimEnd(IsPySpace, rest);
    if t == "" || t[|t| - 1] != ')' then None else
    var inner := t[..|t| - 1];
    var k := RunBack(word, inner);
    if k == 0 || k == |inner| || inner[|inner| - k - 1] != '(' then None else
    if |inner| - k - 1 >= 2 && IsPySpace(inner[0]) then Some(inner[|inner| - k..]) else None
  }

  /** A non-empty run of characters that pass the test, then the stop character; the run and what follows. */
  function TakeRun(test: CharTest, stop: char, s: string): Option<(string, string)> {
    var n := Run(test, s);
    if n == 0 || n == |s| || s[n] != stop then None else Some((s[..n], s[n + 1..]))
  }

  type TailMatch = string -> Option<string>

  /** `^##\s+\[(\w+)\]`, then the tail. */
  function MatchHeadingBy(space: CharTest, word: CharTest, tail: TailMatch, line: string): Option<(string, string)> {
    if !("##" <= line) then None else
    var gap := TakeRun(space, '[', line[2..]);
    if gap == None then None else
    var category := TakeRun(word, ']', gap.value.1);
    if category == None then None else
    var trust := tail(category.value.1);
    if trust == None then None else Some((category.value.0, trust.value))
  }

  function Tail(word: CharTest): TailMatch {
    rest => MatchTail(word, rest)
  }

  /** The groups of `^##\s+\[(\w+)\]\s+.+\((\w+)\)\s*$`. */
  function MatchHeading(word: CharTest, line: string): Option<(string, string)> {
    MatchHeadingBy(IsPySpace, word, Tail(word), line)
  }

  /** A reading of the tail pattern. */
  predicate TailParts(word: CharTest, rest: string, body: string, group: string, trailing: string) {
    && rest == body + "(" + group + ")" + trailing
    && |body| >= 2 && IsPySpace(body[0])
    && group != "" && AllPass(word, group)
    && AllPass(IsPySpace, trailing)
  }

  lemma {:induction false} TrimEndAppend(s: string, trailing: string)
    requires s != "" && !IsPySpace(s[|s| - 1]) && AllPass(IsPySpace, trailing)
    ensures TrimEnd(IsPySpace, s + trailing) == s
  {
    if trailing == "" {
      assert s + trailing == s;
    } else {
      var shorter := trailing[..|trailing| - 1];
      assert (s + trailing)[..|s + trailing| - 1] == s + shorter;
      TrimEndAppend(s, shorter);
    }
  }

  lemma {:induction false} TrimEndSplits(s: string)
    ensures exists trailing :: AllPass(IsPySpace, trailing) && s == TrimEnd(IsPySpace, s) + trailing
  {
    if s == "" || !IsPySpace(s[|s| - 1]) {
      assert AllPass(IsPySpace, "") && s == TrimEnd(IsPySpace, s) + "";
    } else {
      TrimEndSplits(s[..|s| - 1]);
      var trailing :| AllPass(IsPySpace, trailing) && s[..|s| - 1] == TrimEnd(IsPySpace, s[..|s| - 1]) + trailing;
      var longer := trailing + [s[|s| - 1]];
      assert AllPass(IsPySpace, longer);
      assert s == s[..|s| - 1] + [s[|s| - 1]];
      assert s == TrimEnd(IsPySpace, s) + longer;
    }
  }

  lemma {:induction false} RunBackIs(test: CharTest, s: string, group: string)
    requires AllPass(test, group) && (s == "" || !test(s[|s| - 1]))
    ensures RunBack(test, s + group) == |group|
  {
    if group == "" {
      assert s + group == s;
    } else {
      assert (s + group)[..|s + group| - 1] == s + group[..|group| - 1];
      RunBackIs(test, s, group[..|group| - 1]);
    }
  }

  lemma {:induction false} TailFinds(word: CharTest, rest: string, body: string, group: string, trailing: string)
    requires IsWordTest(word) && TailParts(word, rest, body, group, trailing)
    ensures MatchTail(word, rest) == Some(group)
  {
    var open := body + "(";
    var inner := open + group;
    var t := inner + ")";
    assert rest == t + trailing;
    TrimEndAppend(t, trailing);
    assert t[..|t| - 1] == inner;
    RunBackIs(word, open, group);
    assert inner[|open|..] == group && inner[|open| - 1] == '(' && inner[0] == body[0];
  }

  lemma {:induction false} TailSound(word: CharTest, rest: string, trailing: string)
    requires MatchTail(word, rest).Some? && AllPass(IsPySpace, trailing)
    requires rest == TrimEnd(IsPySpace, rest) + trailing
    ensures exists body :: TailParts(word, rest, body, MatchTail(word, rest).value, trailing)
  {
    var t := TrimEnd(IsPySpace, rest);
    var inner := t[..|t| - 1];
    var k := RunBack(word, inner);
    var body, group := inner[..|inner| - k - 1], inner[|inner| - k..];
    SplitBefore(inner, '(', |inner| - k - 1);
    assert t == inner + ")";
    assert AllPass(word, group);
    assert TailParts(word, rest, body, group, trailing);
  }

  lemma {:induction false} SplitBefore(s: string, c: char, i: nat)
    requires i < |s| && s[i] == c
    ensures s == s[..i] + [c] + s[i + 1..]
  {
  }

  /** The tail pattern has one reading, and finds it wherever there is one. */
  lemma {:induction false} TailExact(word: CharTest, rest: string, group: string)
    requires IsWordTest(word)
    ensures MatchTail(word, rest) == Some(group) <==>
            exists body, trailing :: TailParts(word, rest, body, group, trailing)
  {
    if body, trailing :| TailParts(word, rest, body, group, trailing) {
      TailFinds(word, rest, body, group, trailing);
    }
    if MatchTail(word, rest) == Some(group) {
      TrimEndSplits(rest);
      var trailing :| AllPass(IsPySpace, trailing) && rest == TrimEnd(IsPySpace, rest) + trailing;
      TailSound(word, rest, trailing);
    }
  }

  lemma {:induction false} TakeRunExact(test: CharTest, stop: char, s: string, run: string, rest: string)
    requires !test(stop)
    ensures TakeRun(test, stop, s) == Some((run, rest)) <==> run != "" && AllPass(test, run) && s == run + [stop] + rest
  {
    if run != "" && AllPass(test, run) && s == run + [stop] + rest {
      RunIs(test, s, |run|);
      assert s[..|run|] == run && s[|run| + 1..] == rest;
    }
    if TakeRun(test, stop, s) == Some((run, rest)) {
      var n := Run(test, s);
      assert AllPass(test, s[..n]);
      assert s == s[..n] + [s[n]] + s[n + 1..];
    }
  }

  /** A reading of the whole pattern, its tail read by MatchTail. */
  predicate HeadingParts(space: CharTest, word: CharTest, tail: TailMatch, line: string,
                         gap: string, category: string, rest: string, trust: string) {
    && line == "##" + (gap + ['['] + (category + [']'] + rest))
    && gap != "" && AllPass(space, gap)
    && category != "" && AllPass(word, category)
    && tail(rest) == Some(trust)
  }

  lemma {:induction false} HeadingFinds(space: CharTest, word: CharTest, tail: TailMatch, line: string,
                     gap: string, category: string, rest: string, trust: string)
    requires !space('[') && !word(']') && HeadingParts(space, word, tail, line, gap, category, rest, trust)
    ensures MatchHeadingBy(space, word, tail, line) == Some((category, trust))
  {
    var b := category + [']'] + rest;
    var a := gap + ['['] + b;
    assert line[2..] == a;
    TakeRunExact(space, '[', a, gap, b);
    TakeRunExact(word, ']', b, category, rest);
  }

  lemma {:induction false} HeadingSound(space: CharTest, word: CharTest, tail: TailMatch, line: string)
    requires !space('[') && !word(']') && MatchHeadingBy(space, word, tail, line).Some?
    ensures var (category, trust) := MatchHeadingBy(space, word, tail, line).value;
            exists gap, rest :: HeadingParts(space, word, tail, line, gap, category, rest, trust)
  {
    var (gap, b) := TakeRun(space, '[', line[2..]).value;
    var (category, rest) := TakeRun(word, ']', b).value;
    TakeRunExact(space, '[', line[2..], gap, b);
    TakeRunExact(word, ']', b, category, rest);
    assert line == "##" + line[2..];
    assert HeadingParts(space, word, tail, line, gap, category, rest, tail(rest).value);
  }

  /** So has the whole pattern. */
  lemma {:induction false} HeadingExact(space: CharTest, word: CharTest, tail: TailMatch, line: string,
        category: string, trust: string)
    requires !space('[') && !word(']')
    ensures MatchHeadingBy(space, word, tail, line) == Some((category, trust)) <==>
            exists gap, rest :: HeadingParts(space, word, tail, line, gap, category, rest, trust)
  {
    if gap, rest :| HeadingParts(space, word, tail, line, gap, category, rest, trust) {
      HeadingFinds(space, word, tail, line, gap, category, rest, trust);
    }
    if MatchHeadingBy(space, word, tail, line) == Some((category, trust)) {
      HeadingSound(space, word, tail, line);
    }
  }
}
