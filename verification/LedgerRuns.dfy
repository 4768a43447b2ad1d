// The ledger under concurrent transactions: locks held to commit, unique indexes that make
// a second writer wait, and rollback at any point
// (apps/api/src/modules/accounting/posting-engine.service.ts, accounting-period.repository.ts).
module LedgerRuns {
  import opened Prelude
  import opened Fingerprints
  import opened Ledger
  import opened LedgerSound

  // ---------------------------------------------------------------- transactions

  // A transaction's share-locked periods, its uncommitted closings and entries, and the
  // posting it has looked up but not inserted yet.
  datatype Tx = Tx(shared: set<nat>, closing: set<nat>, pending: seq<Entry>, posting: Option<Draft>)

  // The committed books; nextId also counts ids used by transactions still open.
  datatype State = State(books: Books, txs: map<nat, Tx>)

  datatype Step =
    | Begin(tx: nat)
    | LookUp(tx: nat, today: int, request: PostRequest)
    | LookUpReversal(tx: nat, today: int, original: nat, source: Source)
    | Insert(tx: nat)
    | CloseRow(tx: nat, period: nat, expectedVersion: int)
    | Commit(tx: nat)
    | Rollback(tx: nat)
    | CreatePeriod(startDate: int, endDate: int)
    | AddAccount(key: string)
    | Configure(config: Config)

  function SeenPeriods(periods: seq<Period>, closing: set<nat>): (r: seq<Period>)
    ensures |r| == |periods|
    ensures forall i :: 0 <= i < |r| ==> r[i] == if i in closing then Closed(periods[i]) else periods[i]
  {
    seq(|periods|, i requires 0 <= i < |periods| => if i in closing then Closed(periods[i]) else periods[i])
  }

  // The books as an open transaction sees them.
  function Seen(b: Books, x: Tx): Books {
    b.(journal := b.journal + x.pending, periods := SeenPeriods(b.periods, x.closing))
  }

  ghost predicate ClosingElsewhere(s: State, tx: nat, p: nat) {
    exists y :: y in s.txs && y != tx && p in s.txs[y].closing
  }

  ghost predicate LockedElsewhere(s: State, tx: nat, p: nat) {
    exists y :: y in s.txs && y != tx && (p in s.txs[y].closing || p in s.txs[y].shared)
  }

  predicate Contends(e: Entry, d: Draft) {
    e.source == d.source || (d.reversalOf.Some? && e.reversalOf == d.reversalOf)
  }

  // The insert waits for a transaction that holds one of its unique keys.
  ghost predicate Waits(s: State, tx: nat, d: Draft)
    requires tx in s.txs
  {
    && FindSource(Seen(s.books, s.txs[tx]).journal, d.source).None?
    && exists y, e :: y in s.txs && y != tx && e in s.txs[y].pending && Contends(e, d)
  }

  function WithTx(s: State, tx: nat, x: Tx): State {
    s.(txs := s.txs[tx := x])
  }

  function LookedUp(x: Tx, d: Draft): Tx {
    x.(shared := x.shared + {d.period}, posting := Some(d))
  }

  ghost predicate LooksUp(s: State, tx: nat, prepared: Result<Draft, PostError>, t: State) {
    && tx in s.txs && s.txs[tx].posting.None?
    && (prepared.Err? ==> t == s)
    && (prepared.Ok? ==>
          && !ClosingElsewhere(s, tx, prepared.value.period)
          && t == WithTx(s, tx, LookedUp(s.txs[tx], prepared.value)))
  }

  function Outcome(s: State, tx: nat): Decision
    requires tx in s.txs && s.txs[tx].posting.Some?
  {
    InsertAndSeal(Seen(s.books, s.txs[tx]), s.txs[tx].posting.value)
  }

  // A database error (a CHECK, or the second reversal) leaves only rollback.
  function AfterInsert(s: State, tx: nat): State
    requires tx in s.txs && s.txs[tx].posting.Some?
  {
    match Outcome(s, tx)
    case New(e) =>
      State(s.books.(nextId := s.books.nextId + 1),
            s.txs[tx := s.txs[tx].(pending := s.txs[tx].pending + [e], posting := None)])
    case Existing(_) => WithTx(s, tx, s.txs[tx].(posting := None))
    case Refused(error) =>
      if error == SourceConflict then WithTx(s, tx, s.txs[tx].(posting := None)) else s.(txs := s.txs - {tx})
  }

  function AfterCommit(s: State, tx: nat): State
    requires tx in s.txs
  {
    State(Seen(s.books, s.txs[tx]), s.txs - {tx})
  }

  ghost predicate Next(s: State, step: Step, t: State) {
    match step
    case Begin(tx) => tx !in s.txs && t == WithTx(s, tx, Tx({}, {}, [], None))
    case LookUp(tx, today, request) =>
      tx in s.txs && LooksUp(s, tx, Prepare(Seen(s.books, s.txs[tx]), today, request), t)
    case LookUpReversal(tx, today, original, source) =>
      tx in s.txs && LooksUp(s, tx, PrepareReversal(Seen(s.books, s.txs[tx]), today, original, source), t)
    case Insert(tx) =>
      && tx in s.txs && s.txs[tx].posting.Some?
      && !Waits(s, tx, s.txs[tx].posting.value)
      && t == AfterInsert(s, tx)
    case CloseRow(tx, p, expectedVersion) =>
      && tx in s.txs && s.txs[tx].posting.None?
      && !LockedElsewhere(s, tx, p)
      && t == (if DecideClose(Seen(s.books, s.txs[tx]).periods, p, expectedVersion).Close?
               then WithTx(s, tx, s.txs[tx].(closing := s.txs[tx].closing + {p}))
               else s)
    case Commit(tx) => tx in s.txs && s.txs[tx].posting.None? && t == AfterCommit(s, tx)
    case Rollback(tx) => tx in s.txs && t == s.(txs := s.txs - {tx})
    case CreatePeriod(startDate, endDate) =>
      t == (if DecideCreate(s.books.periods, startDate, endDate).Create?
            then s.(books := s.books.(periods := s.books.periods + [Period(startDate, endDate, false, 1)]))
            else s)
    case AddAccount(key) => t == s.(books := s.books.(accounts := s.books.accounts + {key}))
    case Configure(config) => t == s.(books := s.books.(config := config))
  }

  ghost predicate Init(s: State) {
    s.txs == map[] && s.books.journal == [] && s.books.periods == []
  }

  ghost predicate Run(states: seq<State>, steps: seq<Step>) {
    && |states| == |steps| + 1 && Init(states[0])
    && forall i: nat :: i < |steps| ==> StepAt(states, steps, i)
  }

  ghost predicate StepAt(states: seq<State>, steps: seq<Step>, i: nat)
    requires i < |steps| && |states| == |steps| + 1
  {
    Next(states[i], steps[i], states[i + 1])
  }

  // ---------------------------------------------------------------- invariants

  // What an open transaction has seen and written is sound, and its locks are real.
  ghost predicate TxSound(b: Books, x: Tx) {
    && BooksSound(Seen(b, x))
    && (x.posting.Some? ==> DraftSound(Seen(b, x), x.posting.value) && x.posting.value.period in x.shared)
    && (forall e :: e in x.pending ==> e.period in x.shared)
    && (forall p :: p in x.shared ==> p < |b.periods| && !b.periods[p].closed)
    && (forall p :: p in x.closing ==> p < |b.periods| && !b.periods[p].closed)
  }

  // Two open transactions exclude each other's closings and unique keys.
  ghost predicate TxsApart(x: Tx, y: Tx) {
    && x.closing !! (y.closing + y.shared)
    && (forall e, f :: e in x.pending && f in y.pending ==> !Clash(e, f))
  }

  ghost predicate Inv(s: State) {
    && BooksSound(s.books)
    && (forall x :: x in s.txs ==> TxSound(s.books, s.txs[x]))
    && (forall x, y :: x in s.txs && y in s.txs && x != y ==> TxsApart(s.txs[x], s.txs[y]))
  }

  ghost predicate SameDates(a: seq<Period>, b: seq<Period>) {
    && |a| <= |b|
    && forall i :: 0 <= i < |a| ==> a[i].startDate == b[i].startDate && a[i].endDate == b[i].endDate
  }

  // Soundness depends on the journal, the periods' dates and the ids given out.
  lemma SoundUnder(b: Books, a: Books)
    requires BooksSound(b) && a.journal == b.journal && a.nextId >= b.nextId && PeriodsApart(a.periods)
    requires SameDates(b.periods, a.periods)
    ensures BooksSound(a)
  {
    forall e | e in a.journal ensures EntrySound(a, e) {
      assert EntrySound(b, e);
    }
  }

  lemma SeenAfterNewId(b: Books, x: Tx)
    requires TxSound(b, x)
    ensures TxSound(b.(nextId := b.nextId + 1), x)
  {
    var a := b.(nextId := b.nextId + 1);
    SoundUnder(Seen(b, x), Seen(a, x));
  }

  lemma ChangeTx(s: State, tx: nat, x: Tx)
    requires Inv(s) && TxSound(s.books, x)
    requires forall y :: y in s.txs && y != tx ==> TxsApart(x, s.txs[y]) && TxsApart(s.txs[y], x)
    ensures Inv(WithTx(s, tx, x))
  {
  }

  lemma DropTx(s: State, tx: nat)
    requires Inv(s)
    ensures Inv(s.(txs := s.txs - {tx}))
  {
  }

  lemma LookedUpSound(b: Books, x: Tx, d: Draft)
    requires TxSound(b, x) && DraftSound(Seen(b, x), d) && !Seen(b, x).periods[d.period].closed
    ensures TxSound(b, LookedUp(x, d))
  {
    assert Seen(b, LookedUp(x, d)) == Seen(b, x);
  }

  lemma LookUpKeeps(s: State, tx: nat, d: Draft)
    requires Inv(s) && tx in s.txs && DraftSound(Seen(s.books, s.txs[tx]), d)
    requires !Seen(s.books, s.txs[tx]).periods[d.period].closed && !ClosingElsewhere(s, tx, d.period)
    ensures Inv(WithTx(s, tx, LookedUp(s.txs[tx], d)))
  {
    var x := LookedUp(s.txs[tx], d);
    LookedUpSound(s.books, s.txs[tx], d);
    forall y | y in s.txs && y != tx ensures TxsApart(x, s.txs[y]) && TxsApart(s.txs[y], x) {
      assert TxsApart(s.txs[tx], s.txs[y]) && TxsApart(s.txs[y], s.txs[tx]);
      assert d.period !in s.txs[y].closing;
    }
    ChangeTx(s, tx, x);
  }

  // The transaction after it inserted.
  function Inserted(x: Tx, e: Entry): Tx {
    x.(pending := x.pending + [e], posting := None)
  }

  lemma SeenInserted(b: Books, x: Tx, e: Entry)
    ensures Seen(b.(nextId := b.nextId + 1), Inserted(x, e)) == After(Seen(b, x), e)
  {
    assert b.journal + (x.pending + [e]) == b.journal + x.pending + [e];
  }

  lemma InsertedSound(b: Books, x: Tx, d: Draft)
    requires TxSound(b, x) && x.posting == Some(d) && InsertAndSeal(Seen(b, x), d).New?
    ensures TxSound(b.(nextId := b.nextId + 1), Inserted(x, InsertAndSeal(Seen(b, x), d).entry))
  {
    var e := InsertAndSeal(Seen(b, x), d).entry;
    InsertKeepsBooks(Seen(b, x), d);
    NewMeans(Seen(b, x), d);
    SeenInserted(b, x, e);
  }

  lemma NewIdKeeps(s: State)
    requires Inv(s)
    ensures Inv(s.(books := s.books.(nextId := s.books.nextId + 1)))
  {
    var b := s.books.(nextId := s.books.nextId + 1);
    SoundUnder(s.books, b);
    forall y | y in s.txs ensures TxSound(b, s.txs[y]) {
      SeenAfterNewId(s.books, s.txs[y]);
    }
  }

  lemma AfterNew(s: State, tx: nat)
    requires tx in s.txs && s.txs[tx].posting.Some? && Outcome(s, tx).New?
    ensures AfterInsert(s, tx) == WithTx(s.(books := s.books.(nextId := s.books.nextId + 1)), tx,
                                         Inserted(s.txs[tx], Outcome(s, tx).entry))
  {
  }

  lemma NewKeeps(s: State, tx: nat)
    requires Inv(s) && tx in s.txs && s.txs[tx].posting.Some? && Outcome(s, tx).New?
    requires !Waits(s, tx, s.txs[tx].posting.value)
    ensures Inv(AfterInsert(s, tx))
  {
    var x := Inserted(s.txs[tx], Outcome(s, tx).entry);
    NewIdKeeps(s);
    InsertedSound(s.books, s.txs[tx], s.txs[tx].posting.value);
    forall y | y in s.txs && y != tx ensures TxsApart(x, s.txs[y]) && TxsApart(s.txs[y], x) {
      NewEntryFree(s, tx, y);
    }
    ChangeTx(s.(books := s.books.(nextId := s.books.nextId + 1)), tx, x);
    AfterNew(s, tx);
  }

  lemma NewEntryFree(s: State, tx: nat, y: nat)
    requires Inv(s) && tx in s.txs && y in s.txs && y != tx && s.txs[tx].posting.Some? && Outcome(s, tx).New?
    requires !Waits(s, tx, s.txs[tx].posting.value)
    ensures var x := Inserted(s.txs[tx], Outcome(s, tx).entry);
            TxsApart(x, s.txs[y]) && TxsApart(s.txs[y], x)
  {
    var d, e := s.txs[tx].posting.value, Outcome(s, tx).entry;
    NewMeans(Seen(s.books, s.txs[tx]), d);
    NotContended(s, tx, y, d);
    PendingApart(s.books, s.txs[tx], s.txs[y], d, e);
  }

  lemma NotContended(s: State, tx: nat, y: nat, d: Draft)
    requires tx in s.txs && y in s.txs && y != tx && !Waits(s, tx, d)
    requires FindSource(Seen(s.books, s.txs[tx]).journal, d.source).None?
    ensures forall f :: f in s.txs[y].pending ==> !Contends(f, d)
  {
  }

  lemma PendingApart(b: Books, x: Tx, y: Tx, d: Draft, e: Entry)
    requires TxSound(b, y) && TxsApart(x, y) && TxsApart(y, x)
    requires e.id == b.nextId && e.source == d.source && e.reversalOf == d.reversalOf
    requires forall f :: f in y.pending ==> !Contends(f, d)
    ensures TxsApart(Inserted(x, e), y) && TxsApart(y, Inserted(x, e))
  {
    forall f | f in y.pending ensures !Clash(e, f) && !Clash(f, e) {
      PendingId(b, y, f);
    }
  }

  lemma PendingId(b: Books, y: Tx, f: Entry)
    requires TxSound(b, y) && f in y.pending
    ensures f.id < b.nextId
  {
    assert f in Seen(b, y).journal;
    assert EntrySound(Seen(b, y), f);
  }

  lemma SeenClosing(b: Books, x: Tx, p: nat)
    requires p < |b.periods| && p !in x.closing
    ensures Seen(b, x.(closing := x.closing + {p})) ==
            Seen(b, x).(periods := Seen(b, x).periods[p := Closed(Seen(b, x).periods[p])])
  {
    assert SeenPeriods(b.periods, x.closing + {p}) == SeenPeriods(b.periods, x.closing)[p := Closed(b.periods[p])];
  }

  lemma ClosingSound(b: Books, x: Tx, p: nat, expectedVersion: int)
    requires TxSound(b, x) && x.posting.None? && DecideClose(Seen(b, x).periods, p, expectedVersion).Close?
    ensures TxSound(b, x.(closing := x.closing + {p}))
  {
    CloseKeepsBooks(Seen(b, x), p, expectedVersion);
    SeenClosing(b, x, p);
  }

  lemma CloseKeeps(s: State, tx: nat, p: nat, expectedVersion: int)
    requires Inv(s) && tx in s.txs && s.txs[tx].posting.None? && !LockedElsewhere(s, tx, p)
    requires DecideClose(Seen(s.books, s.txs[tx]).periods, p, expectedVersion).Close?
    ensures Inv(WithTx(s, tx, s.txs[tx].(closing := s.txs[tx].closing + {p})))
  {
    var x := s.txs[tx].(closing := s.txs[tx].closing + {p});
    ClosingSound(s.books, s.txs[tx], p, expectedVersion);
    forall y | y in s.txs && y != tx ensures TxsApart(x, s.txs[y]) && TxsApart(s.txs[y], x) {
      assert TxsApart(s.txs[tx], s.txs[y]) && TxsApart(s.txs[y], s.txs[tx]);
    }
    ChangeTx(s, tx, x);
  }

  // Two sound views of the same books, put together.
  lemma JoinedSound(j: seq<Entry>, p: seq<Entry>, q: seq<Entry>, mine: Books, theirs: Books, both: Books)
    requires BooksSound(mine) && BooksSound(theirs)
    requires mine.journal == j + p && theirs.journal == j + q && both.journal == j + p + q
    requires mine.nextId == theirs.nextId == both.nextId
    requires SameDates(mine.periods, both.periods) && SameDates(theirs.periods, both.periods)
    requires PeriodsApart(both.periods)
    requires forall e, f :: e in p && f in q ==> !Clash(e, f)
    ensures BooksSound(both)
  {
    JoinedApart(j, p, q);
    forall e | e in both.journal ensures EntrySound(both, e) {
      if e in mine.journal { assert EntrySound(mine, e); } else { assert EntrySound(theirs, e); }
    }
    forall e | e in both.journal && e.reversalOf.Some? ensures Mirrors(both.journal, e.reversalOf.value, e.lines) {
      if e in mine.journal {
        MirrorsGrows(mine.journal, both.journal, e.reversalOf.value, e.lines);
      } else {
        MirrorsGrows(theirs.journal, both.journal, e.reversalOf.value, e.lines);
      }
    }
  }

  lemma SeenDates(b: Books, x: Tx, a: Books)
    requires PeriodsApart(b.periods) && SameDates(b.periods, a.periods) && |a.periods| == |b.periods|
    ensures SameDates(Seen(b, x).periods, a.periods) && SameDates(b.periods, Seen(a, x).periods)
    ensures PeriodsApart(Seen(a, x).periods)
  {
  }

  // Another transaction's view after this one commits.
  lemma CommitSeenBy(b: Books, x: Tx, z: Tx)
    requires BooksSound(b) && TxSound(b, x) && TxSound(b, z) && TxsApart(x, z)
    ensures BooksSound(Seen(Seen(b, x), z))
  {
    var a := Seen(b, x);
    SeenDates(b, x, b);
    SeenDates(b, z, a);
    JoinedSound(b.journal, x.pending, z.pending, a, Seen(b, z), Seen(a, z));
  }

  lemma CommitKeepsTx(b: Books, x: Tx, z: Tx)
    requires BooksSound(b) && TxSound(b, x) && TxSound(b, z) && TxsApart(x, z)
    ensures TxSound(Seen(b, x), z)
  {
    CommitSeenBy(b, x, z);
    if z.posting.Some? && z.posting.value.reversalOf.Some? {
      var d := z.posting.value;
      MirrorsGrows(Seen(b, z).journal, Seen(Seen(b, x), z).journal, d.reversalOf.value, StoreAll(d.lines));
    }
  }

  lemma JoinedApart(j: seq<Entry>, p: seq<Entry>, q: seq<Entry>)
    requires NoClash(j + p) && NoClash(j + q) && forall e, f :: e in p && f in q ==> !Clash(e, f)
    ensures NoClash(j + p + q)
  {
    var all := j + p + q;
    forall i, k | 0 <= i < k < |all| ensures !Clash(all[i], all[k]) {
      if k < |j| + |p| {
        assert all[i] == (j + p)[i] && all[k] == (j + p)[k];
      } else if i < |j| {
        assert all[i] == (j + q)[i] && all[k] == (j + q)[k - |p|];
      } else if i < |j| + |p| {
        assert all[i] in p && all[k] in q;
      } else {
        assert all[i] == (j + q)[i - |p|] && all[k] == (j + q)[k - |p|];
      }
    }
  }

  lemma CommitKeeps(s: State, tx: nat)
    requires Inv(s) && tx in s.txs
    ensures Inv(AfterCommit(s, tx))
  {
    assert TxSound(s.books, s.txs[tx]);
    forall y | y in s.txs && y != tx ensures TxSound(AfterCommit(s, tx).books, s.txs[y]) {
      assert TxsApart(s.txs[tx], s.txs[y]);
      CommitKeepsTx(s.books, s.txs[tx], s.txs[y]);
    }
  }

  lemma CreatedApart(b: Books, x: Tx, a: Books, startDate: int, endDate: int)
    requires PeriodsApart(b.periods) && DecideCreate(b.periods, startDate, endDate).Create?
    requires a == b.(periods := b.periods + [Period(startDate, endDate, false, 1)]) && |b.periods| !in x.closing
    ensures PeriodsApart(Seen(a, x).periods)
  {
    forall i | 0 <= i < |b.periods| ensures !Overlaps(Seen(a, x).periods[i], startDate, endDate) {
      assert !Overlaps(b.periods[i], startDate, endDate);
    }
    SeenDates(a, x, a);
  }

  lemma CreateSeenBy(s: State, y: nat, startDate: int, endDate: int)
    requires Inv(s) && y in s.txs && DecideCreate(s.books.periods, startDate, endDate).Create?
    ensures TxSound(s.books.(periods := s.books.periods + [Period(startDate, endDate, false, 1)]), s.txs[y])
  {
    var a := s.books.(periods := s.books.periods + [Period(startDate, endDate, false, 1)]);
    var z := s.txs[y];
    assert TxSound(s.books, z);
    assert |s.books.periods| !in z.closing;
    CreatedApart(s.books, z, a, startDate, endDate);
    SoundUnder(Seen(s.books, z), Seen(a, z));
  }

  lemma SettingsSeenBy(s: State, y: nat, a: Books)
    requires Inv(s) && y in s.txs && a.journal == s.books.journal && a.periods == s.books.periods
    requires a.nextId == s.books.nextId
    ensures TxSound(a, s.txs[y])
  {
    assert TxSound(s.books, s.txs[y]);
    SoundUnder(Seen(s.books, s.txs[y]), Seen(a, s.txs[y]));
  }

  lemma BooksStepInv(s: State, step: Step, t: State)
    requires Inv(s) && Next(s, step, t)
    requires step.CreatePeriod? || step.AddAccount? || step.Configure?
    ensures Inv(t)
  {
    if step.CreatePeriod? {
      if t != s {
        CreateKeepsBooks(s.books, step.startDate, step.endDate);
        forall y | y in s.txs ensures TxSound(t.books, s.txs[y]) {
          CreateSeenBy(s, y, step.startDate, step.endDate);
        }
      }
    } else {
      SoundUnder(s.books, t.books);
      forall y | y in s.txs ensures TxSound(t.books, s.txs[y]) {
        SettingsSeenBy(s, y, t.books);
      }
    }
  }

  lemma PostingDropped(s: State, tx: nat)
    requires Inv(s) && tx in s.txs
    ensures Inv(WithTx(s, tx, s.txs[tx].(posting := None)))
  {
    var x := s.txs[tx].(posting := None);
    assert TxSound(s.books, s.txs[tx]);
    assert Seen(s.books, x) == Seen(s.books, s.txs[tx]);
    forall y | y in s.txs && y != tx ensures TxsApart(x, s.txs[y]) && TxsApart(s.txs[y], x) {
      assert TxsApart(s.txs[tx], s.txs[y]) && TxsApart(s.txs[y], s.txs[tx]);
    }
    ChangeTx(s, tx, x);
  }

  lemma InsertStepInv(s: State, tx: nat, t: State)
    requires Inv(s) && Next(s, Insert(tx), t)
    ensures Inv(t)
  {
    if Outcome(s, tx).New? {
      NewKeeps(s, tx);
    } else if t == WithTx(s, tx, s.txs[tx].(posting := None)) {
      PostingDropped(s, tx);
    } else {
      DropTx(s, tx);
    }
  }

  lemma LookUpStepInv(s: State, step: Step, t: State)
    requires Inv(s) && Next(s, step, t) && (step.LookUp? || step.LookUpReversal?)
    ensures Inv(t)
  {
    var b := Seen(s.books, s.txs[step.tx]);
    if step.LookUp? && Prepare(b, step.today, step.request).Ok? {
      PreparedSound(b, step.today, step.request);
      LookUpKeeps(s, step.tx, Prepare(b, step.today, step.request).value);
    }
    if step.LookUpReversal? && PrepareReversal(b, step.today, step.original, step.source).Ok? {
      PreparedReversalSound(b, step.today, step.original, step.source);
      LookUpKeeps(s, step.tx, PrepareReversal(b, step.today, step.original, step.source).value);
    }
  }

  lemma BeginKeeps(s: State, tx: nat)
    requires Inv(s) && tx !in s.txs
    ensures Inv(WithTx(s, tx, Tx({}, {}, [], None)))
  {
    SoundUnder(s.books, Seen(s.books, Tx({}, {}, [], None)));
    ChangeTx(s, tx, Tx({}, {}, [], None));
  }

  lemma CloseStepInv(s: State, step: Step, t: State)
    requires Inv(s) && Next(s, step, t) && step.CloseRow?
    ensures Inv(t)
  {
    if t != s {
      CloseKeeps(s, step.tx, step.period, step.expectedVersion);
    }
  }

  lemma StepInv(s: State, step: Step, t: State)
    requires Inv(s) && Next(s, step, t)
    ensures Inv(t)
  {
    match step
    case Begin(tx) => BeginKeeps(s, tx);
    case LookUp(_, _, _) => LookUpStepInv(s, step, t);
    case LookUpReversal(_, _, _, _) => LookUpStepInv(s, step, t);
    case Insert(tx) => InsertStepInv(s, tx, t);
    case CloseRow(_, _, _) => CloseStepInv(s, step, t);
    case Commit(tx) => CommitKeeps(s, tx);
    case Rollback(tx) => DropTx(s, tx);
    case _ => BooksStepInv(s, step, t);
  }

  lemma {:induction false} RunInv(states: seq<State>, steps: seq<Step>, i: nat)
    requires Run(states, steps) && i < |states|
    ensures Inv(states[i])
    decreases i
  {
    if i > 0 {
      RunInv(states, steps, i - 1);
      assert StepAt(states, steps, i - 1);
      StepInv(states[i - 1], steps[i - 1], states[i]);
    }
  }

  // ---------------------------------------------------------------- what only grows

  // Entries are never changed or removed; a period keeps its dates, and a closed one is
  // closed for good with the same version.
  ghost predicate Grows(a: Books, b: Books) {
    && a.journal <= b.journal
    && |a.periods| <= |b.periods|
    && forall p :: 0 <= p < |a.periods| ==> PeriodGrows(a.periods[p], b.periods[p])
  }

  ghost predicate PeriodGrows(a: Period, b: Period) {
    && a.startDate == b.startDate && a.endDate == b.endDate
    && (b == a || (!a.closed && b == Closed(a)))
  }

  lemma StepGrows(s: State, step: Step, t: State)
    requires Inv(s) && Next(s, step, t)
    ensures Grows(s.books, t.books)
  {
    if step.Commit? {
      CommitGrows(s.books, s.txs[step.tx]);
    } else {
      OnlyCommitAdds(s, step, t);
    }
  }

  lemma OnlyCommitAdds(s: State, step: Step, t: State)
    requires Next(s, step, t) && !step.Commit?
    ensures t.books.journal == s.books.journal && s.books.periods <= t.books.periods
  {
  }

  lemma CommitGrows(b: Books, x: Tx)
    requires TxSound(b, x)
    ensures Grows(b, Seen(b, x))
  {
  }

  lemma GrowsReflexive(b: Books)
    ensures Grows(b, b)
  {
  }

  lemma GrowsTransitive(a: Books, b: Books, c: Books)
    requires Grows(a, b) && Grows(b, c)
    ensures Grows(a, c)
  {
    forall p | 0 <= p < |a.periods| ensures PeriodGrows(a.periods[p], c.periods[p]) {
      assert PeriodGrows(a.periods[p], b.periods[p]) && PeriodGrows(b.periods[p], c.periods[p]);
    }
  }

  lemma RunStepGrows(states: seq<State>, steps: seq<Step>, i: nat)
    requires Run(states, steps) && i < |steps|
    ensures Grows(states[i].books, states[i + 1].books)
  {
    RunInv(states, steps, i);
    assert StepAt(states, steps, i);
    StepGrows(states[i], steps[i], states[i + 1]);
  }

  lemma {:induction false} RunGrows(states: seq<State>, steps: seq<Step>, i: nat, j: nat)
    requires Run(states, steps) && i <= j < |states|
    ensures Grows(states[i].books, states[j].books)
    decreases j
  {
    if i < j {
      RunGrows(states, steps, i, j - 1);
      RunStepGrows(states, steps, j - 1);
      GrowsTransitive(states[i].books, states[j - 1].books, states[j].books);
    } else {
      GrowsReflexive(states[i].books);
    }
  }

  // ---------------------------------------------------------------- main results

  // In every reachable state each committed entry is balanced, two-line or more, in its own
  // period, and the trial balance is zero.
  lemma LedgerAlwaysBalances(states: seq<State>, steps: seq<Step>, k: nat, accounts: seq<string>)
    requires Run(states, steps) && k < |states|
    requires ListsAccounts(states[k].books.journal, accounts)
    ensures forall e :: e in states[k].books.journal ==> BalancedEntry(e)
    ensures TrialBalance(states[k].books.journal, accounts) == 0
  {
    RunInv(states, steps, k);
    forall e | e in states[k].books.journal ensures BalancedEntry(e) {
      assert EntrySound(states[k].books, e);
    }
    TrialBalanceIsZero(states[k].books.journal, accounts);
  }

  // One entry per source, at most one reversal per entry, and a reversal cancels its
  // original on every account.
  lemma ReversedOnceAndExactly(states: seq<State>, steps: seq<Step>, k: nat, a: nat, b: nat, account: string)
    requires Run(states, steps) && k < |states|
    requires a < |states[k].books.journal| && b < |states[k].books.journal|
    ensures var j := states[k].books.journal;
            && (j[a].source == j[b].source ==> a == b)
            && (j[a].reversalOf.Some? && j[a].reversalOf == j[b].reversalOf ==> a == b)
            && (j[b].reversalOf == Some(j[a].id) ==> NetOn(j[a].lines, account) + NetOn(j[b].lines, account) == 0)
  {
    RunInv(states, steps, k);
    var j := states[k].books.journal;
    if j[b].reversalOf == Some(j[a].id) {
      ReversedNetsToZero(states[k].books, j[a], j[b], account);
    }
    assert Clash(j[a], j[b]) == Clash(j[b], j[a]);
  }

  ghost predicate Inserts(s: State, tx: nat, source: Source) {
    tx in s.txs && s.txs[tx].posting.Some? && s.txs[tx].posting.value.source == source
  }

  // Once an entry is committed, any later posting of its source that reaches the insert
  // gives that entry back when the content is the same and is refused when it is not; the
  // books and every other transaction stay as they were.
  lemma RepostChangesNothing(states: seq<State>, steps: seq<Step>, i: nat, j: nat, e: Entry)
    requires Run(states, steps) && i <= j < |steps| && e in states[i].books.journal
    requires steps[j].Insert? && Inserts(states[j], steps[j].tx, e.source)
    ensures var s, tx := states[j], steps[j].tx;
            && Outcome(s, tx) ==
                (if SameContent(e, s.txs[tx].posting.value) then Existing(e.id) else Refused(SourceConflict))
            && states[j + 1] == WithTx(s, tx, s.txs[tx].(posting := None))
  {
    RunInv(states, steps, j);
    RunGrows(states, steps, i, j);
    var s, tx := states[j], steps[j].tx;
    assert StepAt(states, steps, j);
    assert TxSound(s.books, s.txs[tx]);
    assert e in Seen(s.books, s.txs[tx]).journal;
    RepostAnswers(Seen(s.books, s.txs[tx]), e, s.txs[tx].posting.value);
  }

  // The posting looked up at j is the one still in hand at l.
  ghost predicate InHand(states: seq<State>, tx: nat, d: Draft, j: nat, l: nat) {
    l < |states| && forall k :: j < k <= l ==> tx in states[k].txs && states[k].txs[tx].posting == Some(d)
  }

  // Posting a committed source again, at any later time and in any transaction: the lookup
  // either refuses, with the posting rules' own error, or leads to the insert.
  lemma RepostLooksUp(states: seq<State>, steps: seq<Step>, i: nat, j: nat, e: Entry)
    requires Run(states, steps) && i <= j < |steps| && e in states[i].books.journal
    requires steps[j].LookUp? && steps[j].request.source == e.source
    ensures steps[j].tx in states[j].txs
    ensures var b := Seen(states[j].books, states[j].txs[steps[j].tx]);
            var r, day := steps[j].request, DayOf(steps[j].request, steps[j].today);
            && BooksSound(b) && e in b.journal
            && (Prepare(b, steps[j].today, r).Ok? <==> WellFormed(b, r) && SomeOpen(b, day) && KeysKnown(b, r))
            && (Prepare(b, steps[j].today, r).Err? ==> states[j + 1] == states[j])
            && (Post(b, steps[j].today, r) == Refused(PeriodClosed) <==> WellFormed(b, r) && SomeClosed(b, day))
  {
    LookUpStep(states, steps, j);
    var b, r := Seen(states[j].books, states[j].txs[steps[j].tx]), steps[j].request;
    StillSeen(states, steps, i, j, steps[j].tx, e);
    PreparedExactly(b, steps[j].today, r);
    RepostExactly(b, steps[j].today, r, e);
  }

  lemma LookUpStep(states: seq<State>, steps: seq<Step>, j: nat)
    requires Run(states, steps) && j < |steps| && steps[j].LookUp?
    ensures steps[j].tx in states[j].txs
    ensures Prepare(Seen(states[j].books, states[j].txs[steps[j].tx]), steps[j].today, steps[j].request).Err? ==>
              states[j + 1] == states[j]
  {
    assert StepAt(states, steps, j);
  }

  lemma StillSeen(states: seq<State>, steps: seq<Step>, i: nat, j: nat, tx: nat, e: Entry)
    requires Run(states, steps) && i <= j < |states| && e in states[i].books.journal && tx in states[j].txs
    ensures var b := Seen(states[j].books, states[j].txs[tx]); BooksSound(b) && e in b.journal
  {
    assert e in states[j].books.journal by { RunGrows(states, steps, i, j); }
    assert TxSound(states[j].books, states[j].txs[tx]) by { RunInv(states, steps, j); }
  }

  // And the insert, whenever it comes, whatever was committed in between and even if the
  // period's close is waiting for it, gives exactly what posting at the lookup would have
  // given: the entry back for a faithful retry, a conflict otherwise, and nothing changed.
  lemma RepostAnswered(states: seq<State>, steps: seq<Step>, i: nat, j: nat, l: nat, e: Entry, d: Draft)
    requires Run(states, steps) && i <= j < l < |steps| && e in states[i].books.journal
    requires steps[j].LookUp? && steps[j].request.source == e.source && steps[l] == Insert(steps[j].tx)
    requires steps[j].tx in states[j].txs
    requires Prepare(Seen(states[j].books, states[j].txs[steps[j].tx]), steps[j].today, steps[j].request) == Ok(d)
    requires InHand(states, steps[j].tx, d, j, l)
    ensures var b, tx := Seen(states[j].books, states[j].txs[steps[j].tx]), steps[j].tx;
            && Outcome(states[l], tx) == Post(b, steps[j].today, steps[j].request)
            && Outcome(states[l], tx) ==
                (if Repeats(b, e, steps[j].request) then Existing(e.id) else Refused(SourceConflict))
            && states[l + 1] == WithTx(states[l], tx, states[l].txs[tx].(posting := None))
  {
    var b, tx := Seen(states[j].books, states[j].txs[steps[j].tx]), steps[j].tx;
    assert BooksSound(b) && e in b.journal by { RepostLooksUp(states, steps, i, j, e); }
    RepostAnswers(b, e, d);
    RepostExactly(b, steps[j].today, steps[j].request, e);
    RepostChangesNothing(states, steps, i, l, e);
  }

  // The lookup at step j gave the entry: its day, source, currency and lines.
  ghost predicate GivenAt(states: seq<State>, steps: seq<Step>, j: nat, e: Entry) {
    j < |steps| && j < |states| && match steps[j]
    case LookUp(tx, today, request) => BearsRequest(states[j].books, today, request, e)
    case LookUpReversal(tx, today, original, source) =>
      tx in states[j].txs && BearsReversal(Seen(states[j].books, states[j].txs[tx]), today, original, source, e)
    case _ => false
  }

  // The lookup at step j prepared the draft.
  ghost predicate PreparedAt(states: seq<State>, steps: seq<Step>, j: nat, d: Draft) {
    j < |steps| && j < |states| && match steps[j]
    case LookUp(tx, today, request) =>
      tx in states[j].txs && Prepare(Seen(states[j].books, states[j].txs[tx]), today, request) == Ok(d)
    case LookUpReversal(tx, today, original, source) =>
      tx in states[j].txs && PrepareReversal(Seen(states[j].books, states[j].txs[tx]), today, original, source) == Ok(d)
    case _ => false
  }

  // A posting in hand was prepared by a lookup, and only an insert turns it into an entry.
  lemma PostingStep(s: State, step: Step, t: State, tx: nat)
    requires Next(s, step, t) && tx in t.txs && t.txs[tx].posting.Some?
    requires !(tx in s.txs && s.txs[tx].posting == t.txs[tx].posting)
    ensures (step.LookUp? || step.LookUpReversal?) && step.tx == tx && tx in s.txs
    ensures step.LookUp? ==> Prepare(Seen(s.books, s.txs[tx]), step.today, step.request) == Ok(t.txs[tx].posting.value)
    ensures step.LookUpReversal? ==>
              PrepareReversal(Seen(s.books, s.txs[tx]), step.today, step.original, step.source)
              == Ok(t.txs[tx].posting.value)
  {
  }

  lemma PendingStep(s: State, step: Step, t: State, tx: nat, e: Entry)
    requires Next(s, step, t) && tx in t.txs && e in t.txs[tx].pending
    requires !(tx in s.txs && e in s.txs[tx].pending)
    ensures step == Insert(tx) && tx in s.txs && s.txs[tx].posting.Some? && Outcome(s, tx) == New(e)
  {
  }

  lemma PostingNow(states: seq<State>, steps: seq<Step>, j: nat, tx: nat)
    requires Run(states, steps) && j < |steps| && tx in states[j + 1].txs && states[j + 1].txs[tx].posting.Some?
    requires !(tx in states[j].txs && states[j].txs[tx].posting == states[j + 1].txs[tx].posting)
    ensures PreparedAt(states, steps, j, states[j + 1].txs[tx].posting.value)
  {
    assert StepAt(states, steps, j);
    PostingStep(states[j], steps[j], states[j + 1], tx);
  }

  lemma {:induction false} PostingFrom(states: seq<State>, steps: seq<Step>, k: nat, tx: nat) returns (j: nat)
    requires Run(states, steps) && k < |states| && tx in states[k].txs && states[k].txs[tx].posting.Some?
    ensures j < k && PreparedAt(states, steps, j, states[k].txs[tx].posting.value)
  {
    if tx in states[k - 1].txs && states[k - 1].txs[tx].posting == states[k].txs[tx].posting {
      j := PostingFrom(states, steps, k - 1, tx);
    } else {
      j := k - 1;
      PostingNow(states, steps, j, tx);
    }
  }

  lemma InsertedFrom(states: seq<State>, steps: seq<Step>, j: nat, d: Draft, later: Books)
    requires Run(states, steps) && PreparedAt(states, steps, j, d) && InsertAndSeal(later, d).New?
    ensures GivenAt(states, steps, j, InsertAndSeal(later, d).entry)
  {
    RunInv(states, steps, j);
    var x := states[j].txs[steps[j].tx];
    assert TxSound(states[j].books, x);
    match steps[j]
    case LookUp(tx, today, request) => PostBears(Seen(states[j].books, x), today, request, later);
    case LookUpReversal(tx, today, original, source) =>
      ReverseBears(Seen(states[j].books, x), today, original, source, later);
    case _ =>
  }

  lemma {:induction false} PendingFrom(states: seq<State>, steps: seq<Step>, k: nat, tx: nat, e: Entry)
    returns (j: nat)
    requires Run(states, steps) && k < |states| && tx in states[k].txs && e in states[k].txs[tx].pending
    ensures j < k && GivenAt(states, steps, j, e)
  {
    assert StepAt(states, steps, k - 1);
    if tx in states[k - 1].txs && e in states[k - 1].txs[tx].pending {
      j := PendingFrom(states, steps, k - 1, tx, e);
    } else {
      PendingStep(states[k - 1], steps[k - 1], states[k], tx, e);
      j := PostingFrom(states, steps, k - 1, tx);
      InsertedFrom(states, steps, j, states[k - 1].txs[tx].posting.value,
                   Seen(states[k - 1].books, states[k - 1].txs[tx]));
    }
  }

  // Every committed entry goes back to one lookup, and bears what that lookup was asked for:
  // the day it named or that was today then, its source and lines, the currency of the time.
  lemma {:induction false} EntryFromLookUp(states: seq<State>, steps: seq<Step>, k: nat, e: Entry) returns (j: nat)
    requires Run(states, steps) && k < |states| && e in states[k].books.journal
    ensures j < k && GivenAt(states, steps, j, e)
  {
    assert StepAt(states, steps, k - 1);
    if e in states[k - 1].books.journal {
      j := EntryFromLookUp(states, steps, k - 1, e);
    } else {
      if !steps[k - 1].Commit? { OnlyCommitAdds(states[k - 1], steps[k - 1], states[k]); }
      j := PendingFrom(states, steps, k - 1, steps[k - 1].tx, e);
    }
  }

  // An entry is dated inside its period, and inside no other.
  lemma EntryInOwnPeriod(states: seq<State>, steps: seq<Step>, k: nat, e: Entry, p: nat)
    requires Run(states, steps) && k < |states| && e in states[k].books.journal && p < |states[k].books.periods|
    ensures states[k].books.periods[p].Covers(e.postingDate) <==> p == e.period
  {
    RunInv(states, steps, k);
    var b := states[k].books;
    assert EntrySound(b, e);
    if b.periods[p].Covers(e.postingDate) {
      PeriodIsUnique(b.periods, e.postingDate, p, e.period);
    }
  }

  lemma PendingIsOpen(b: Books, x: Tx, n: nat)
    requires TxSound(b, x) && |b.journal| <= n < |Seen(b, x).journal|
    ensures var e := Seen(b, x).journal[n]; e.period < |b.periods| && !b.periods[e.period].closed
  {
    assert Seen(b, x).journal[n] == x.pending[n - |b.journal|];
    assert x.pending[n - |b.journal|] in x.pending;
  }

  // A step that adds an entry finds the entry's period open.
  lemma OpenWhenCommitted(states: seq<State>, steps: seq<Step>, i: nat, n: nat)
    requires Run(states, steps) && i < |steps|
    requires |states[i].books.journal| <= n < |states[i + 1].books.journal|
    ensures var e := states[i + 1].books.journal[n];
            e.period < |states[i].books.periods| && !states[i].books.periods[e.period].closed
  {
    RunInv(states, steps, i);
    var s, t := states[i], states[i + 1];
    assert StepAt(states, steps, i);
    if !steps[i].Commit? { OnlyCommitAdds(s, steps[i], t); }
    PendingIsOpen(s.books, s.txs[steps[i].tx], n);
  }

  // From a to b the period stayed as it was and no entry was added to it.
  ghost predicate Frozen(a: Books, b: Books, p: nat) {
    && p < |a.periods| && p < |b.periods| && a.periods[p].closed && b.periods[p] == a.periods[p]
    && a.journal <= b.journal
    && forall e :: e in b.journal[|a.journal|..] ==> e.period != p
  }

  lemma FrozenTransitive(a: Books, b: Books, c: Books, p: nat)
    requires Frozen(a, b, p) && Frozen(b, c, p)
    ensures Frozen(a, c, p)
  {
    assert c.journal[|a.journal|..] == b.journal[|a.journal|..] + c.journal[|b.journal|..];
  }

  lemma FrozenReflexive(b: Books, p: nat)
    requires p < |b.periods| && b.periods[p].closed
    ensures Frozen(b, b, p)
  {
  }

  lemma FrozenStep(states: seq<State>, steps: seq<Step>, i: nat, p: nat)
    requires Run(states, steps) && i < |steps|
    requires p < |states[i].books.periods| && states[i].books.periods[p].closed
    ensures Frozen(states[i].books, states[i + 1].books, p)
  {
    RunStepGrows(states, steps, i);
    assert PeriodGrows(states[i].books.periods[p], states[i + 1].books.periods[p]);
    var a, b := states[i].books, states[i + 1].books;
    forall e | e in b.journal[|a.journal|..] ensures e.period != p {
      var n :| 0 <= n < |b.journal[|a.journal|..]| && b.journal[|a.journal|..][n] == e;
      OpenWhenCommitted(states, steps, i, |a.journal| + n);
    }
  }

  // Once a period's close has committed it stays closed, row and all, and no entry is ever
  // added to it.
  lemma {:induction false} ClosedIsFrozen(states: seq<State>, steps: seq<Step>, i: nat, j: nat, p: nat)
    requires Run(states, steps) && i <= j < |states|
    requires p < |states[i].books.periods| && states[i].books.periods[p].closed
    ensures Frozen(states[i].books, states[j].books, p)
    decreases j
  {
    if i < j {
      ClosedIsFrozen(states, steps, i, j - 1, p);
      FrozenStep(states, steps, j - 1, p);
      FrozenTransitive(states[i].books, states[j - 1].books, states[j].books, p);
    } else {
      FrozenReflexive(states[i].books, p);
    }
  }

  // A close that committed, retried at any later time with the version it expected, is
  // answered as already done and changes nothing; with any other version it is a conflict.
  lemma RetriedClose(states: seq<State>, steps: seq<Step>, i: nat, j: nat, tx: nat, p: nat, version: int, expected: int)
    requires Run(states, steps) && i < j < |steps| && steps[i].Commit?
    requires p < |states[i].books.periods| && states[i].books.periods[p].version == version
    requires steps[i].tx in states[i].txs && p in states[i].txs[steps[i].tx].closing
    requires tx in states[j].txs && steps[j] == CloseRow(tx, p, expected)
    ensures DecideClose(Seen(states[j].books, states[j].txs[tx]).periods, p, expected)
         == if expected == version then AlreadyClosed else VersionConflict
    ensures states[j + 1] == states[j]
  {
    var closed := Closed(states[i].books.periods[p]);
    assert p < |states[i + 1].books.periods| && states[i + 1].books.periods[p] == closed by {
      CommitStep(states, steps, i);
      RunInv(states, steps, i);
      CommitCloses(states[i], steps[i].tx, p);
    }
    assert p < |states[j].books.periods| && states[j].books.periods[p] == closed by {
      ClosedIsFrozen(states, steps, i + 1, j, p);
    }
    assert TxSound(states[j].books, states[j].txs[tx]) by {
      RunInv(states, steps, j);
    }
    ClosedAnswers(states[j].books, states[j].txs[tx], p, expected);
    CloseRowStep(states, steps, j);
  }

  lemma CommitStep(states: seq<State>, steps: seq<Step>, i: nat)
    requires Run(states, steps) && i < |steps| && steps[i].Commit?
    ensures steps[i].tx in states[i].txs && states[i + 1] == AfterCommit(states[i], steps[i].tx)
  {
    assert StepAt(states, steps, i);
  }

  lemma CloseRowStep(states: seq<State>, steps: seq<Step>, i: nat)
    requires Run(states, steps) && i < |steps| && steps[i].CloseRow?
    ensures steps[i].tx in states[i].txs
    ensures !DecideClose(Seen(states[i].books, states[i].txs[steps[i].tx]).periods,
                         steps[i].period, steps[i].expectedVersion).Close? ==>
              states[i + 1] == states[i]
  {
    assert StepAt(states, steps, i);
  }

  lemma CommitCloses(s: State, tx: nat, p: nat)
    requires Inv(s) && tx in s.txs && p in s.txs[tx].closing
    ensures p < |s.books.periods| && !s.books.periods[p].closed
    ensures p < |AfterCommit(s, tx).books.periods| && AfterCommit(s, tx).books.periods[p] == Closed(s.books.periods[p])
  {
    assert TxSound(s.books, s.txs[tx]);
  }

  lemma ClosedAnswers(b: Books, x: Tx, p: nat, expected: int)
    requires TxSound(b, x) && p < |b.periods| && b.periods[p].closed
    ensures DecideClose(Seen(b, x).periods, p, expected)
         == if b.periods[p].version == expected + 1 then AlreadyClosed else VersionConflict
  {
  }
}
