/** Importing exported memories: the loop over the parsed entries, and what it restores. */
module MemoryImport {
  import opened Strings
  import opened Wrappers
  import opened MemoryMarkdown
  import opened MemoryExport
  import opened MemoryRoundTrip
  import ExportedLines
  import MemoryStore

  type Tables = MemoryStore.Tables
  type Id = MemoryStore.Id

  // ----- the import -----

  datatype Problem = BadCategory(name: string, excerpt: string) | BadTrust(name: string, excerpt: string) | NotStored

  datatype Report = Report(imported: nat, reinforced: nat, errors: seq<Problem>)

  /** newId(k) is the id generated for entry k. */
  datatype Importer = Importer(names: Names, newId: nat -> Id,
    exact: MemoryStore.ExactSearch, near: MemoryStore.NearSearch)

  function Note(report: Report, outcome: MemoryStore.Outcome): Report {
    match outcome
    case Created(_) => report.(imported := report.imported + 1)
    case Reinforced(_) => report.(reinforced := report.reinforced + 1)
    case Failed => report.(errors := report.errors + [NotStored])
  }

  function ImportOne(w: Importer, t: Tables, report: Report, d: Draft, newId: Id): (Tables, Report)
    requires d.content.Some?
  {
    var excerpt := Summary(d.content.value);
    if w.names.category(d.category) == None then
      (t, report.(errors := report.errors + [BadCategory(d.category, excerpt)]))
    else if w.names.trust(d.trust) == None then
      (t, report.(errors := report.errors + [BadTrust(d.trust, excerpt)]))
    else
      var (u, outcome) := MemoryStore.Store(t, EntryOf(w.names, d).value, newId, w.exact, w.near);
      (u, Note(report, outcome))
  }

  predicate AllHaveContent(ds: seq<Draft>) {
    forall k :: 0 <= k < |ds| ==> HasContent(ds[k])
  }

  /** The tables and the report after the first n entries. */
  function ImportFirst(w: Importer, t: Tables, ds: seq<Draft>, n: nat): (Tables, Report)
    requires AllHaveContent(ds) && n <= |ds|
  {
    if n == 0 then (t, Report(0, 0, [])) else
    var (u, report) := ImportFirst(w, t, ds, n - 1);
    ImportOne(w, u, report, ds[n - 1], w.newId(n - 1))
  }

  lemma {:induction false} ParsedHaveContent(f: Format, word: CharTest, markdown: string)
    ensures AllHaveContent(Parse(f, word, markdown))
  {
    ParsedIsClean(f, word, markdown);
    forall k | 0 <= k < |Parse(f, word, markdown)| ensures HasContent(Parse(f, word, markdown)[k]) {
      assert CleanEntry(Parse(f, word, markdown)[k]);
    }
  }

  /** The store with every memory inactive, which a replacing import adds to. */
  function Cleared(t: Tables): Tables {
    MemoryStore.Deactivate(t, t.memories.Keys)
  }

  predicate Blank(markdown: string) {
    AllPass(IsPySpace, markdown)
  }

  lemma {:induction false} BlankTrims(markdown: string)
    ensures Trim(IsPySpace, markdown) == "" <==> Blank(markdown)
  {
    forall c ensures c in Trim(IsPySpace, markdown) ==> c in markdown
      ensures c in markdown && !IsPySpace(c) ==> c in Trim(IsPySpace, markdown)
    {
      TrimSubset(IsPySpace, markdown, c);
    }
    if Blank(markdown) {
      TrimIsTrimmed(IsPySpace, markdown);
    } else {
      var k :| 0 <= k < |markdown| && !IsPySpace(markdown[k]);
      assert markdown[k] in Trim(IsPySpace, markdown);
    }
  }

  /** `import_memories` */
  method ImportMemories(db: MemoryStore.MemoryDb, f: Format, word: CharTest, w: Importer, markdown: string,
                        replace: bool) returns (report: Report)
    modifies db
    ensures Blank(markdown) ==> db.Contents() == old(db.Contents()) && report == Report(0, 0, [])
    ensures var entries, before := Parse(f, word, markdown), old(db.Contents());
            AllHaveContent(entries)
              && (!Blank(markdown) && !replace ==>
                (db.Contents(), report) == ImportFirst(w, before, entries, |entries|))
              && (!Blank(markdown) && replace ==>
                (db.Contents(), report) == ImportFirst(w, Cleared(before), entries, |entries|))
  {
    BlankTrims(markdown);
    ParsedHaveContent(f, word, markdown);
    if Trim(IsPySpace, markdown) == "" {
      return Report(0, 0, []);
    }
    if replace {
      db.DeactivateAll();
    }
    var entries := ParseExportMarkdown(f, word, markdown);
    report := ImportEntries(db, w, entries);
  }

  method ImportEntries(db: MemoryStore.MemoryDb, w: Importer, entries: seq<Draft>) returns (report: Report)
    requires AllHaveContent(entries)
    modifies db
    ensures (db.Contents(), report) == ImportFirst(w, old(db.Contents()), entries, |entries|)
  {
    report := Report(0, 0, []);
    for i := 0 to |entries|
      invariant (db.Contents(), report) == ImportFirst(w, old(db.Contents()), entries, i)
    {
      report := ImportEntry(db, w, entries[i], w.newId(i), report);
    }
  }

  /** The body of the importer's loop. */
  method ImportEntry(db: MemoryStore.MemoryDb, w: Importer, d: Draft, newId: Id, before: Report)
    returns (report: Report)
    requires HasContent(d)
    modifies db
    ensures (db.Contents(), report) == ImportOne(w, old(db.Contents()), before, d, newId)
  {
    var category := w.names.category(d.category);
    if category == None {
      return before.(errors := before.errors + [BadCategory(d.category, Summary(d.content.value))]);
    }
    var trust := w.names.trust(d.trust);
    if trust == None {
      return before.(errors := before.errors + [BadTrust(d.trust, Summary(d.content.value))]);
    }
    var e := MemoryStore.Entry(d.content.value, d.context, category.value, trust.value, d.tags, false, None);
    var outcome := db.StoreEntry(e, newId, w.exact, w.near);
    match outcome
    case Created(_) => report := before.(imported := before.imported + 1);
    case Reinforced(_) => report := before.(reinforced := before.reinforced + 1);
    case Failed => report := before.(errors := before.errors + [NotStored]);
  }

  // ----- what an import does -----

  ghost predicate SearchesFindActive(w: Importer) {
    MemoryStore.FindsActive(w.exact) && MemoryStore.ReinforcesActive(w.near)
  }

  /** The generated ids are new to the store and differ. */
  ghost predicate FreshIds(w: Importer, t: Tables, n: nat) {
    && (forall k: nat :: k < n ==> w.newId(k) !in t.memories)
    && (forall j: nat, k: nat :: j < k < n ==> w.newId(j) != w.newId(k))
  }

  /** An active memory with all that the entry says. */
  predicate HeldAs(t: Tables, e: Entry, id: Id) {
    id in t.memories &&
    var m := t.memories[id];
    m.active && m.content == e.content && m.context == e.context && m.category == e.category && m.trust == e.trust &&
      m.tags == e.tags
  }

  /** Reinforcement i is of an active memory, on account of this entry. */
  predicate ReinforcedAt(u: Tables, e: Entry, i: nat) {
    i < |u.reinforcements| &&
    var r := u.reinforcements[i];
    r.session == "unknown" && r.context == e.context && r.memoryId in u.memories && u.memories[r.memoryId].active
  }

  /** The entry is a new memory, or a reinforcement that was not there before. */
  ghost predicate Arrived(t: Tables, u: Tables, e: Entry, newId: Id) {
    HeldAs(u, e, newId) || exists i :: |t.reinforcements| <= i && ReinforcedAt(u, e, i)
  }

  /** Only new rows, new reinforcements and higher strengths. */
  ghost predicate Added(t: Tables, u: Tables) {
    && t.rows <= u.rows && t.reinforcements <= u.reinforcements
    && (forall id :: id in t.memories ==>
      id in u.memories && u.memories[id] == t.memories[id].(strength := u.memories[id].strength))
  }

  lemma {:induction false} AddedTransitive(t: Tables, u: Tables, v: Tables)
    requires Added(t, u) && Added(u, v)
    ensures Added(t, v)
  {
  }

  lemma {:induction false} AddedKeepsHeld(t: Tables, u: Tables, e: Entry, id: Id)
    requires Added(t, u) && HeldAs(t, e, id)
    ensures HeldAs(u, e, id)
  {
  }

  lemma {:induction false} AddedKeepsArrived(t: Tables, u: Tables, v: Tables, e: Entry, newId: Id)
    requires Added(u, v) && Arrived(t, u, e, newId)
    ensures Arrived(t, v, e, newId)
  {
    if HeldAs(u, e, newId) {
      AddedKeepsHeld(u, v, e, newId);
    } else {
      var i :| |t.reinforcements| <= i && ReinforcedAt(u, e, i);
      assert u.reinforcements[i] == v.reinforcements[i];
      assert ReinforcedAt(v, e, i);
    }
  }

  /** What one entry adds to the tables and the report. */
  ghost predicate AddsOne(w: Importer, t: Tables, report: Report, u: Tables, after: Report, d: Draft, newId: Id) {
    && Added(t, u)
    && (forall id :: id in u.memories ==> id in t.memories || id == newId)
    && after.imported - report.imported == |u.rows| - |t.rows|
    && after.reinforced - report.reinforced == |u.reinforcements| - |t.reinforcements|
    && (after.errors == report.errors <==> EntryOf(w.names, d).Some?)
    && |u.rows| + |u.reinforcements| + |after.errors| == |t.rows| + |t.reinforcements| + |report.errors| + 1
    && report.errors <= after.errors
    && (EntryOf(w.names, d).Some? ==> Arrived(t, u, EntryOf(w.names, d).value, newId))
  }

  lemma {:induction false} ImportOneAdds(w: Importer, t: Tables, report: Report, d: Draft, newId: Id)
    requires HasContent(d) && SearchesFindActive(w) && newId !in t.memories
    ensures var (u, after) := ImportOne(w, t, report, d, newId); AddsOne(w, t, report, u, after, d, newId)
  {
    if EntryOf(w.names, d).Some? {
      var e := EntryOf(w.names, d).value;
      var (u, outcome) := MemoryStore.Store(t, e, newId, w.exact, w.near);
      MemoryStore.StoreRecords(t, e, newId, w.exact, w.near);
      if outcome.Reinforced? {
        assert ReinforcedAt(u, e, |t.reinforcements|);
      }
    }
  }

  predicate AllRead(names: Names, ds: seq<Draft>, n: nat) {
    forall k :: 0 <= k < n && k < |ds| ==> EntryOf(names, ds[k]).Some?
  }

  /** The tables an import of the first n entries leaves. */
  ghost predicate Imported(w: Importer, t: Tables, u: Tables, ds: seq<Draft>, n: nat)
    requires n <= |ds|
  {
    forall k :: 0 <= k < n && EntryOf(w.names, ds[k]).Some? ==> Arrived(t, u, EntryOf(w.names, ds[k]).value, w.newId(k))
  }

  /** No memory but the old ones and those of the first n ids. */
  ghost predicate OnlyNewIds(w: Importer, t: Tables, u: Tables, n: nat) {
    forall id :: id in u.memories ==> id in t.memories || exists k: nat :: k < n && id == w.newId(k)
  }

  /** The report counts what was added. */
  ghost predicate Counted(t: Tables, u: Tables, report: Report, n: nat) {
    && report.imported == |u.rows| - |t.rows|
    && report.reinforced == |u.reinforcements| - |t.reinforcements|
    && report.imported + report.reinforced + |report.errors| == n
  }

  /** What an import of the first n entries does. */
  ghost predicate Accounts(w: Importer, t: Tables, ds: seq<Draft>, n: nat, u: Tables, report: Report)
    requires n <= |ds|
  {
    && Added(t, u) && OnlyNewIds(w, t, u, n) && Imported(w, t, u, ds, n) && Counted(t, u, report, n)
    && (report.errors == [] <==> AllRead(w.names, ds, n))
  }

  /**
    Whatever is imported: every entry whose names are known becomes a memory of its own or one more
    reinforcement of an active memory, and exactly the others are reported as errors.
   */
  lemma {:induction false} ImportAccounts(w: Importer, t: Tables, ds: seq<Draft>, n: nat)
    requires AllHaveContent(ds) && n <= |ds| && SearchesFindActive(w) && FreshIds(w, t, n)
    ensures var (u, report) := ImportFirst(w, t, ds, n); Accounts(w, t, ds, n, u, report)
    decreases n
  {
    if n > 0 {
      ImportAccounts(w, t, ds, n - 1);
      var (u, report) := ImportFirst(w, t, ds, n - 1);
      NextIdIsFresh(w, t, u, n);
      ImportOneAdds(w, u, report, ds[n - 1], w.newId(n - 1));
      var (v, after) := ImportOne(w, u, report, ds[n - 1], w.newId(n - 1));
      AccountsGrow(w, t, ds, n, u, report, v, after);
    }
  }

  lemma {:induction false} AccountsGrow(w: Importer, t: Tables, ds: seq<Draft>, n: nat, u: Tables, report: Report,
        v: Tables, after: Report)
    requires 0 < n <= |ds| && Accounts(w, t, ds, n - 1, u, report)
    requires AddsOne(w, u, report, v, after, ds[n - 1], w.newId(n - 1))
    ensures Accounts(w, t, ds, n, v, after)
  {
    AddedTransitive(t, u, v);
    ArrivedGrow(w, t, u, report, v, after, ds, n);
    NewIdsGrow(w, t, u, v, n);
    CountedGrow(w, t, u, report, v, after, ds[n - 1], n);
    ReadGrow(w.names, ds, n);
  }

  lemma {:induction false} CountedGrow(w: Importer, t: Tables, u: Tables, report: Report, v: Tables, after: Report,
        d: Draft, n: nat)
    requires n > 0 && Counted(t, u, report, n - 1) && AddsOne(w, u, report, v, after, d, w.newId(n - 1))
    ensures Counted(t, v, after, n)
    ensures after.errors == [] <==> report.errors == [] && EntryOf(w.names, d).Some?
  {
  }

  lemma {:induction false} NextIdIsFresh(w: Importer, t: Tables, u: Tables, n: nat)
    requires n > 0 && FreshIds(w, t, n) && OnlyNewIds(w, t, u, n - 1)
    ensures w.newId(n - 1) !in u.memories
  {
  }

  lemma {:induction false} ReadGrow(names: Names, ds: seq<Draft>, n: nat)
    requires 0 < n <= |ds|
    ensures AllRead(names, ds, n) <==> AllRead(names, ds, n - 1) && EntryOf(names, ds[n - 1]).Some?
  {
  }

  lemma {:induction false} ArrivedGrow(w: Importer, t: Tables, u: Tables, report: Report, v: Tables, after: Report,
        ds: seq<Draft>, n: nat)
    requires 0 < n <= |ds| && Added(t, u) && Imported(w, t, u, ds, n - 1)
    requires AddsOne(w, u, report, v, after, ds[n - 1], w.newId(n - 1))
    ensures Imported(w, t, v, ds, n)
  {
    forall k | 0 <= k < n && EntryOf(w.names, ds[k]).Some?
      ensures Arrived(t, v, EntryOf(w.names, ds[k]).value, w.newId(k))
    {
      if k < n - 1 {
        AddedKeepsArrived(t, u, v, EntryOf(w.names, ds[k]).value, w.newId(k));
      }
    }
  }

  /** The problem is one this entry has. */
  predicate ProblemOf(p: Problem, names: Names, d: Draft)
    requires d.content.Some?
  {
    match p
    case BadCategory(name, excerpt) =>
      name == d.category && names.category(name) == None && ExportedLines.IsStart(excerpt, d.content.value)
    case BadTrust(name, excerpt) =>
      name == d.trust && names.trust(name) == None && ExportedLines.IsStart(excerpt, d.content.value)
    case NotStored => names.category(d.category).Some? && names.trust(d.trust).Some?
  }

  predicate HasProblem(p: Problem, names: Names, ds: seq<Draft>, n: nat)
    requires AllHaveContent(ds) && n <= |ds|
  {
    exists k :: 0 <= k < n && ProblemOf(p, names, ds[k])
  }

  ghost predicate ProblemsOf(errors: seq<Problem>, names: Names, ds: seq<Draft>, n: nat)
    requires AllHaveContent(ds) && n <= |ds|
  {
    forall i :: 0 <= i < |errors| ==> HasProblem(errors[i], names, ds, n)
  }

  /** Whatever the ids: every entry is a new row, a new reinforcement or an error, and every error is an entry's own. */
  lemma {:induction false} ImportCounts(w: Importer, t: Tables, ds: seq<Draft>, n: nat)
    requires AllHaveContent(ds) && n <= |ds| && SearchesFindActive(w)
    ensures var (u, report) := ImportFirst(w, t, ds, n);
            Counted(t, u, report, n) && ProblemsOf(report.errors, w.names, ds, n)
  {
    if n > 0 {
      ImportCounts(w, t, ds, n - 1);
      var (u, report) := ImportFirst(w, t, ds, n - 1);
      CountsOne(w, u, report, ds[n - 1], w.newId(n - 1));
      var (v, after) := ImportOne(w, u, report, ds[n - 1], w.newId(n - 1));
      ProblemsGrow(report.errors, after.errors, w.names, ds, n);
    }
  }

  lemma {:induction false} SummaryIsStart(content: string)
    ensures ExportedLines.IsStart(Summary(content), content)
  {
  }

  lemma {:induction false} CountsOne(w: Importer, t: Tables, report: Report, d: Draft, newId: Id)
    requires HasContent(d) && SearchesFindActive(w)
    ensures var (u, after) := ImportOne(w, t, report, d, newId);
            && after.imported - report.imported == |u.rows| - |t.rows|
            && after.reinforced - report.reinforced == |u.reinforcements| - |t.reinforcements|
            && after.imported + after.reinforced + |after.errors| ==
               report.imported + report.reinforced + |report.errors| + 1
            && report.errors <= after.errors
            && (forall i :: |report.errors| <= i < |after.errors| ==> ProblemOf(after.errors[i], w.names, d))
  {
    SummaryIsStart(d.content.value);
    if EntryOf(w.names, d).Some? {
      MemoryStore.StoreRecords(t, EntryOf(w.names, d).value, newId, w.exact, w.near);
    }
  }

  lemma {:induction false} ProblemsGrow(errors: seq<Problem>, more: seq<Problem>, names: Names, ds: seq<Draft>, n: nat)
    requires AllHaveContent(ds) && 0 < n <= |ds| && ProblemsOf(errors, names, ds, n - 1) && errors <= more
    requires forall i :: |errors| <= i < |more| ==> ProblemOf(more[i], names, ds[n - 1])
    ensures ProblemsOf(more, names, ds, n)
  {
    forall i | 0 <= i < |more| ensures HasProblem(more[i], names, ds, n) {
      if i < |errors| {
        assert HasProblem(errors[i], names, ds, n - 1);
        assert errors[i] == more[i];
      } else {
        assert ProblemOf(more[i], names, ds[n - 1]);
      }
    }
  }

  lemma {:induction false} NewIdsGrow(w: Importer, t: Tables, u: Tables, v: Tables, n: nat)
    requires n > 0 && OnlyNewIds(w, t, u, n - 1)
    requires forall id :: id in v.memories ==> id in u.memories || id == w.newId(n - 1)
    ensures OnlyNewIds(w, t, v, n)
  {
    forall id | id in v.memories && id !in t.memories ensures exists k: nat :: k < n && id == w.newId(k) {
      if id in u.memories {
        var k: nat :| k < n - 1 && id == w.newId(k);
      } else {
        assert id == w.newId(n - 1);
      }
    }
  }

  /** After a replacing import every active memory is one of the import's own. */
  lemma {:induction false} ReplacingLeavesOnlyNew(w: Importer, t: Tables, ds: seq<Draft>)
    requires AllHaveContent(ds) && SearchesFindActive(w) && FreshIds(w, t, |ds|)
    ensures var u := ImportFirst(w, Cleared(t), ds, |ds|).0;
            forall id :: id in u.memories && u.memories[id].active ==> exists k: nat :: k < |ds| && id == w.newId(k)
  {
    ImportAccounts(w, Cleared(t), ds, |ds|);
  }

  lemma {:induction false} StoresKeepLedger(w: Importer, t: Tables, ds: seq<Draft>, n: nat)
    requires AllHaveContent(ds) && n <= |ds| && MemoryStore.Ledger(t)
    ensures MemoryStore.Ledger(ImportFirst(w, t, ds, n).0)
  {
    if n > 0 {
      StoresKeepLedger(w, t, ds, n - 1);
      var (u, report) := ImportFirst(w, t, ds, n - 1);
      if EntryOf(w.names, ds[n - 1]).Some? {
        MemoryStore.StoreKeepsLedger(u, EntryOf(w.names, ds[n - 1]).value, w.newId(n - 1), w.exact, w.near);
      }
    }
  }

  /** An import keeps the ledger of reinforcements. */
  lemma {:induction false} ImportKeepsLedger(w: Importer, t: Tables, ds: seq<Draft>)
    requires AllHaveContent(ds) && MemoryStore.Ledger(t)
    ensures MemoryStore.Ledger(ImportFirst(w, t, ds, |ds|).0)
    ensures MemoryStore.Ledger(ImportFirst(w, Cleared(t), ds, |ds|).0)
  {
    MemoryStore.ApplyKeepsLedger(t, MemoryStore.DoDeactivate(t.memories.Keys), w.exact, w.near);
    StoresKeepLedger(w, t, ds, |ds|);
    StoresKeepLedger(w, Cleared(t), ds, |ds|);
  }

  // ----- an export is restored -----

  /** Row k of an export, as what the importer stores. */
  function EntryFor(r: Row): Entry {
    Original(r.memory).value
  }

  /**
    Importing an export into any store reports no error, and every memory arrives with its own category, trust,
    content, tags and context: as a memory of its own, or as a reinforcement of one the searches found.
   */
  lemma {:induction false} ExportIsImported(f: Format, word: CharTest, w: Importer, t: Tables, rows: seq<Row>)
    requires Readable(f) && NamesRead(f, w.names) && IsWordTest(word) && SortedByCategory(rows)
    requires forall k :: 0 <= k < |rows| ==> Plain(rows[k]) && GoodRow(rows[k])
    requires SearchesFindActive(w) && FreshIds(w, t, |rows|)
    ensures var ds := Parse(f, word, Export(f, rows));
            && |ds| == |rows| && AllHaveContent(ds)
            && var (u, report) := ImportFirst(w, t, ds, |ds|);
               && report.errors == [] && report.imported + report.reinforced == |rows|
               && (forall k :: 0 <= k < |rows| ==> Arrived(t, u, EntryFor(rows[k]), w.newId(k)))
               && (report.reinforced == 0 ==> forall k :: 0 <= k < |rows| ==> HeldAs(u, EntryFor(rows[k]), w.newId(k)))
  {
    var ds := Parse(f, word, Export(f, rows));
    SortedRowsKeepOrder(rows);
    GoodRowsRoundTrip(f, w.names, word, rows);
    assert |ds| == |EntriesOf(w.names, ds)| == |Originals(rows)| == |rows|;
    ParsedHaveContent(f, word, Export(f, rows));
    forall k | 0 <= k < |rows| ensures EntryOf(w.names, ds[k]) == Some(EntryFor(rows[k])) {
      assert EntriesOf(w.names, ds)[k] == Originals(rows)[k];
    }
    ImportAccounts(w, t, ds, |ds|);
    var (u, report) := ImportFirst(w, t, ds, |ds|);
    forall k | 0 <= k < |rows| ensures Arrived(t, u, EntryFor(rows[k]), w.newId(k)) {
      assert EntryOf(w.names, ds[k]).Some?;
    }
  }
}
