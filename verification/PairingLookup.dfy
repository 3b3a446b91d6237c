/** What the sweep of the pairing file and the lookup by code do not promise. */
module PairingLookup {
  import opened Pairing
  import opened PairingCode
  import opened Wrappers

  lemma {:induction false} DroppedCodeIsGone(s: seq<Record>, k: nat)
    requires Good(s) && k < |s| - |Sweep(s)| && s[k].status == Pending
    ensures s[k].code in PendingCodes(s) && s[k].code !in PendingCodes(Sweep(s))
  {
  }

  /** The sweep takes no pending record exactly if none is among those before the last fifty. */
  lemma {:induction false} SweepKeepsPendingIff(s: seq<Record>)
    requires Good(s)
    ensures PendingCodes(Sweep(s)) == PendingCodes(s) <==> forall k :: 0 <= k < |s| - 50 ==> s[k].status != Pending
  {
    var swept := Sweep(s);
    var d := |s| - |swept|;
    if forall k :: 0 <= k < |s| - 50 ==> s[k].status != Pending {
      forall k | d <= k < |s| && s[k].status == Pending ensures s[k].code in PendingCodes(swept) {
        assert swept[k - d] == s[k];
      }
    } else {
      var k :| 0 <= k < |s| - 50 && s[k].status == Pending;
      DroppedCodeIsGone(s, k);
    }
  }

  /** A pending record that clashes with none before it is found by its code exactly if none before it has the code. */
  lemma {:induction false} LastReadsPending(view: seq<Record>, last: nat)
    requires |view| == last + 1 && view[last].status == Pending
    requires forall j :: 0 <= j < last ==> !Clash(view[j], view[last])
    ensures var k := FindCode(view, view[last].code);
            k <= last && (view[k].status == Pending <==> forall j :: 0 <= j < last ==> view[j].code != view[last].code)
  {
    var k := FindCode(view, view[last].code);
    assert k <= last;
    if k < last {
      assert !Clash(view[k], view[last]);
      assert view[k].status != Pending && view[k].code == view[last].code;
    } else {
      assert view[k].status == Pending;
    }
  }

  function Codes(s: seq<Record>): set<Code> {
    set k | 0 <= k < |s| :: s[k].code
  }

  /** The codes that a new pairing may not take. */
  function Taken(s: seq<Record>, intent: Intent): set<Code> {
    PendingCodes(Supersede(Sweep(s), intent))
  }

  /** The records, besides a new one, that the next reader sees. */
  function Recent(s: seq<Record>): seq<Record> {
    LastN(s, 49)
  }

  predicate ReadsPending(s: seq<Record>, code: Code) {
    GetPairing(s, code).Some? && GetPairing(s, code).value.status == Pending
  }

  lemma {:induction false} ViewAfterCreate(s: seq<Record>, intent: Intent, draws: Draws, at: int)
    requires Create(s, intent, draws, at).Some?
    ensures var view := Sweep(Create(s, intent, draws, at).value);
            && |view| == |Recent(s)| + 1
            && (forall k :: 0 <= k < |Recent(s)| ==> view[k].code == Recent(s)[k].code)
  {
  }

  /** A new code reads as pending exactly if none of the last forty-nine records used it. */
  lemma {:induction false} FreshCodeReadsPending(s: seq<Record>, intent: Intent, draws: Draws, at: int)
    requires Good(s) && Create(s, intent, draws, at).Some?
    ensures var code := FirstFree(Taken(s, intent), draws).value;
            ReadsPending(Create(s, intent, draws, at).value, code) <==> code !in Codes(Recent(s))
  {
    CreateKeepsGood(s, intent, draws, at);
    var s' := Create(s, intent, draws, at).value;
    SweepKeepsGood(s');
    ViewAfterCreate(s, intent, draws, at);
    var view := Sweep(s');
    assert view[|view| - 1] == s'[|s'| - 1];
    LastReadsPending(view, |view| - 1);
    assert forall k :: 0 <= k < |Recent(s)| ==> view[k].code == Recent(s)[k].code;
  }

  lemma {:induction false} SameDrawIsTaken(active: set<Code>, draws: seq<nat>, draw: nat)
    requires draw < 10000 && CodeOf(draw) !in active && draws != [] && forall i :: 0 <= i < |draws| ==> draws[i] == draw
    ensures FirstFree(active, draws) == Some(CodeOf(draw))
  {
    assert draws[0] == draw;
  }

  predicate NewReadsPending(s: seq<Record>, intent: Intent, draws: Draws, at: int) {
    var made := Create(s, intent, draws, at);
    made.Some? ==> ReadsPending(made.value, made.value[|made.value| - 1].code)
  }

  lemma {:induction false} NewCodeIs(s: seq<Record>, intent: Intent, draws: Draws, at: int)
    ensures var made, code := Create(s, intent, draws, at), FirstFree(Taken(s, intent), draws);
            && (made.Some? <==> code.Some?)
            && (made.Some? ==> made.value != [] && made.value[|made.value| - 1].code == code.value)
  {
  }

  lemma {:induction false} NewReadsPendingIff(s: seq<Record>, intent: Intent, draws: Draws, at: int)
    requires Good(s)
    ensures var code := FirstFree(Taken(s, intent), draws);
            NewReadsPending(s, intent, draws, at) <==> (code.Some? ==> code.value !in Codes(Recent(s)))
  {
    NewCodeIs(s, intent, draws, at);
    if Create(s, intent, draws, at).Some? {
      FreshCodeReadsPending(s, intent, draws, at);
    }
  }

  /** These draws give a new pairing the code of a recent record. */
  lemma {:induction false} DrawsThatReuse(s: seq<Record>, intent: Intent, at: int, code: Code) returns (draws: Draws)
    requires Good(s) && IsCode(code) && code in Codes(Recent(s)) && code !in Taken(s, intent)
    ensures !NewReadsPending(s, intent, draws, at)
  {
    draws := seq(DRAWS, _ => DrawOf(code));
    CodeOfDraw(code);
    SameDrawIsTaken(Taken(s, intent), draws, DrawOf(code));
    NewReadsPendingIff(s, intent, draws, at);
  }

  lemma {:induction false} RecentAreCodes(s: seq<Record>, code: Code)
    requires Good(s) && code in Codes(Recent(s))
    ensures IsCode(code)
  {
    var k :| 0 <= k < |Recent(s)| && Recent(s)[k].code == code;
    assert Recent(s)[k] in s;
  }

  /**
    Whatever is drawn, the new code reads as pending: exactly if the codes of the last forty-nine records are
    all still pending for other intents.
   */
  lemma {:induction false} AlwaysReadsPendingIff(s: seq<Record>, intent: Intent, at: int)
    requires Good(s)
    ensures (forall draws: Draws :: NewReadsPending(s, intent, draws, at)) <==> Codes(Recent(s)) <= Taken(s, intent)
  {
    if Codes(Recent(s)) <= Taken(s, intent) {
      forall draws: Draws ensures NewReadsPending(s, intent, draws, at) {
        NewReadsPendingIff(s, intent, draws, at);
      }
    } else {
      var code :| code in Codes(Recent(s)) && code !in Taken(s, intent);
      RecentAreCodes(s, code);
      var draws := DrawsThatReuse(s, intent, at, code);
    }
  }

  // ----- fifty-one pairings -----

  function Name(i: nat): string {
    seq(i, _ => 'a')
  }

  /** The i-th caller's intent and draws. */
  function NthCreate(i: nat): Op
    requires i < 10000
  {
    DoCreate(WireTo(Name(i)), seq(DRAWS, _ => i), 0)
  }

  function Creates(n: nat): seq<Op>
    requires n <= 10000
  {
    seq(n, i requires 0 <= i < n => NthCreate(i))
  }

  function Created(n: nat): seq<Record>
    requires n <= 10000
  {
    seq(n, i requires 0 <= i < n => Record(CodeOf(i), WireTo(Name(i)), 0, Pending, None, []))
  }

  lemma {:induction false} RunSnoc(s: seq<Record>, ops: seq<Op>, op: Op)
    ensures Run(s, ops + [op]) == Apply(Run(s, ops), op)
    decreases |ops|
  {
    if ops == [] {
      assert (ops + [op])[1..] == [];
    } else {
      assert (ops + [op])[1..] == ops[1..] + [op];
      RunSnoc(Apply(s, ops[0]), ops[1..], op);
    }
  }

  lemma {:induction false} NthIsNew(n: nat)
    requires n <= KEEP
    ensures Apply(Created(n), NthCreate(n)) == Created(n + 1)
  {
    var s := Created(n);
    var draws := seq(DRAWS, _ => n);
    forall i | 0 <= i < n ensures s[i].intent != WireTo(Name(n)) && s[i].code != CodeOf(n) {
      assert |Name(i)| == i && |Name(n)| == n;
      CodeReadsAsDraw(i);
      CodeReadsAsDraw(n);
    }
    assert Supersede(Sweep(s), WireTo(Name(n))) == s;
    SameDrawIsTaken(PendingCodes(s), draws, n);
    assert Created(n + 1) == s + [Record(CodeOf(n), WireTo(Name(n)), 0, Pending, None, [])];
  }

  lemma {:induction false} CreatesMake(n: nat)
    requires n <= KEEP + 1
    ensures Run([], Creates(n)) == Created(n)
  {
    if n > 0 {
      CreatesMake(n - 1);
      assert Creates(n) == Creates(n - 1) + [NthCreate(n - 1)];
      RunSnoc([], Creates(n - 1), NthCreate(n - 1));
      NthIsNew(n - 1);
    }
  }

  /** After fifty-one pairings for different folders the first is still pending in the file, and cannot be used. */
  lemma {:induction false} SweepLosesPending(n: nat)
    requires n == 51
    ensures var s := Run([], Creates(n));
            && |s| == n && s[0].status == Pending
            && s[0].code in PendingCodes(s) && s[0].code !in PendingCodes(Sweep(s))
            && GetPairing(s, s[0].code) == None && !Matches(s, s[0].code)
  {
    CreatesMake(n);
    var s := Created(n);
    forall i | 0 < i < |s| ensures s[i].code != s[0].code {
      CodeReadsAsDraw(i);
      CodeReadsAsDraw(0);
    }
    assert forall i :: 0 <= i < |Sweep(s)| ==> Sweep(s)[i] == s[i + 1];
    assert s[0].code in PendingCodes(s);
  }

  /** The same draw after a wrong guess: the new pairing reads as invalidated. */
  lemma {:induction false} ReusedCodeReadsInvalidated(draws: Draws, chat: Chat)
    requires draws[0] == 7
    ensures var first := Create([], Main, draws, 0).value;
            var guessed := Consume(first, "9999", chat, 1);
            var second := Create(guessed, Main, draws, 2).value;
            second[1].status == Pending && GetPairing(second, second[1].code) == Some(second[0])
              && second[0].status == Invalidated
  {
    var code := CodeOf(7);
    assert code[0] == '0';
    assert PendingCodes([]) == {};
    var first := Create([], Main, draws, 0).value;
    assert first == [Record(code, Main, 0, Pending, None, [])];
    var guessed := Consume(first, "9999", chat, 1);
    assert FindPending(first, "9999") == 1;
    assert |guessed| == 1 && guessed[0].status == Invalidated && guessed[0].code == code;
    var kept := Supersede(Sweep(guessed), Main);
    assert kept == guessed;
    assert PendingCodes(kept) == {};
  }
}
