// What every posting keeps true of the books, whoever's transaction sees them.
module LedgerSound {
  import opened Prelude
  import opened Fingerprints
  import opened Ledger

  // ---------------------------------------------------------------- the invariant

  ghost predicate PeriodsApart(periods: seq<Period>) {
    && (forall i :: 0 <= i < |periods| ==> periods[i].startDate <= periods[i].endDate)
    && (forall i, j :: 0 <= i < j < |periods| ==> !Overlaps(periods[i], periods[j].startDate, periods[j].endDate))
  }

  ghost predicate Placed(periods: seq<Period>, e: Entry) {
    e.period < |periods| && periods[e.period].Covers(e.postingDate)
  }

  // A stored line, read back as the posting line it came from.
  function Recover(l: StoredLine): Line {
    if l.debitMinor > 0 then Line(l.accountKey, Debit, l.debitMinor) else Line(l.accountKey, Credit, l.creditMinor)
  }

  function RecoverAll(lines: seq<StoredLine>): (s: seq<Line>)
    ensures |s| == |lines|
  {
    seq(|lines|, i requires 0 <= i < |lines| => Recover(lines[i]))
  }

  ghost predicate Fingerprinted(e: Entry) {
    e.fingerprint == ComputeFingerprint(e.source, e.currencyCode, RecoverAll(e.lines), e.fingerprint.branchId,
                                        e.fingerprint.posTerminalId, e.fingerprint.accountingDate)
  }

  ghost predicate BalancedEntry(e: Entry) {
    && |e.lines| >= 2 && Net(e.lines) == 0
    && forall i :: 0 <= i < |e.lines| ==> OneSided(e.lines[i])
  }

  ghost predicate EntrySound(b: Books, e: Entry) {
    BalancedEntry(e) && Placed(b.periods, e) && Fingerprinted(e) && e.id < b.nextId
  }

  // Two entries that one of the unique indexes keeps apart.
  predicate Clash(e: Entry, f: Entry) {
    e.id == f.id || e.source == f.source || (e.reversalOf.Some? && e.reversalOf == f.reversalOf)
  }

  ghost predicate NoClash(j: seq<Entry>) {
    forall i, k :: 0 <= i < k < |j| ==> !Clash(j[i], j[k])
  }

  ghost predicate Mirrors(j: seq<Entry>, original: nat, lines: seq<StoredLine>) {
    exists f :: f in j && f.id == original && lines == StoreAll(Inverse(f.lines))
  }

  ghost predicate ReversalsMirror(j: seq<Entry>) {
    forall e :: e in j && e.reversalOf.Some? ==> Mirrors(j, e.reversalOf.value, e.lines)
  }

  ghost predicate BooksSound(b: Books) {
    && PeriodsApart(b.periods)
    && (forall e :: e in b.journal ==> EntrySound(b, e))
    && NoClash(b.journal)
    && ReversalsMirror(b.journal)
  }

  ghost predicate DraftSound(b: Books, d: Draft) {
    && Balanced(d.lines)
    && d.period < |b.periods| && b.periods[d.period].Covers(d.postingDate)
    && (d.reversalOf.Some? ==> Mirrors(b.journal, d.reversalOf.value, StoreAll(d.lines)))
  }

  // ---------------------------------------------------------------- it is kept

  lemma RecoverStored(lines: seq<Line>)
    requires forall i :: 0 <= i < |lines| ==> OneSided(Store(lines[i]))
    ensures RecoverAll(StoreAll(lines)) == lines
  {
    forall i | 0 <= i < |lines| ensures RecoverAll(StoreAll(lines))[i] == lines[i] {
      assert OneSided(Store(lines[i]));
    }
  }

  lemma PreparedSound(b: Books, today: int, r: PostRequest)
    requires Prepare(b, today, r).Ok?
    ensures DraftSound(b, Prepare(b, today, r).value)
    ensures !b.periods[Prepare(b, today, r).value.period].closed
  {
  }

  lemma PreparedReversalSound(b: Books, today: int, original: nat, source: Source)
    requires PrepareReversal(b, today, original, source).Ok?
    ensures DraftSound(b, PrepareReversal(b, today, original, source).value)
    ensures !b.periods[PrepareReversal(b, today, original, source).value.period].closed
  {
    var i := FindId(b.journal, original).value;
    var lines := Inverse(b.journal[i].lines);
    assert b.journal[i] in b.journal && StoreAll(lines) == StoreAll(Inverse(b.journal[i].lines));
  }

  lemma NewEntrySound(b: Books, d: Draft)
    requires DraftSound(b, d) && InsertAndSeal(b, d).New?
    ensures EntrySound(After(b, InsertAndSeal(b, d).entry), InsertAndSeal(b, d).entry)
  {
    var e := InsertAndSeal(b, d).entry;
    StoredNet(d.lines);
    RecoverStored(d.lines);
    assert e.lines == StoreAll(d.lines);
    forall i | 0 <= i < |e.lines| ensures OneSided(e.lines[i]) {
      assert e.lines[i] == Store(d.lines[i]);
    }
  }

  lemma NewMeans(b: Books, d: Draft)
    requires InsertAndSeal(b, d).New?
    ensures var e := InsertAndSeal(b, d).entry;
            && e.id == b.nextId && e.source == d.source && e.reversalOf == d.reversalOf && e.period == d.period
            && FindSource(b.journal, d.source).None?
  {
  }

  lemma NewEntryApart(b: Books, d: Draft)
    requires BooksSound(b) && InsertAndSeal(b, d).New?
    ensures NoClash(b.journal + [InsertAndSeal(b, d).entry])
  {
    var e := InsertAndSeal(b, d).entry;
    forall i | 0 <= i < |b.journal| ensures !Clash(b.journal[i], e) {
      assert b.journal[i] in b.journal;
      assert EntrySound(b, b.journal[i]);
      assert b.journal[i].source != d.source;
    }
  }

  lemma MirrorsGrows(j: seq<Entry>, k: seq<Entry>, original: nat, lines: seq<StoredLine>)
    requires Mirrors(j, original, lines) && forall e :: e in j ==> e in k
    ensures Mirrors(k, original, lines)
  {
  }

  // An insert of a draft that fits the books leaves books that are sound.
  lemma InsertKeepsBooks(b: Books, d: Draft)
    requires BooksSound(b) && DraftSound(b, d) && InsertAndSeal(b, d).New?
    ensures BooksSound(After(b, InsertAndSeal(b, d).entry))
  {
    var e := InsertAndSeal(b, d).entry;
    var a := After(b, e);
    NewEntrySound(b, d);
    NewEntryApart(b, d);
    forall f | f in a.journal ensures EntrySound(a, f) {
      if f != e { assert EntrySound(b, f); }
    }
    forall f | f in a.journal && f.reversalOf.Some? ensures Mirrors(a.journal, f.reversalOf.value, f.lines) {
      MirrorsGrows(b.journal, a.journal, f.reversalOf.value, f.lines);
    }
  }

  lemma PostKeepsBooks(b: Books, today: int, r: PostRequest)
    requires BooksSound(b) && Post(b, today, r).New?
    ensures BooksSound(After(b, Post(b, today, r).entry))
    ensures Post(b, today, r).entry.source == r.source && Post(b, today, r).entry.lines == StoreAll(r.lines)
    ensures !b.periods[Post(b, today, r).entry.period].closed
  {
    PreparedSound(b, today, r);
    InsertKeepsBooks(b, Prepare(b, today, r).value);
  }

  lemma ReverseKeepsBooks(b: Books, today: int, original: nat, source: Source)
    requires BooksSound(b) && Reverse(b, today, original, source).New?
    ensures BooksSound(After(b, Reverse(b, today, original, source).entry))
    ensures !b.periods[Reverse(b, today, original, source).entry.period].closed
  {
    PreparedReversalSound(b, today, original, source);
    InsertKeepsBooks(b, PrepareReversal(b, today, original, source).value);
  }

  lemma CreateKeepsBooks(b: Books, startDate: int, endDate: int)
    requires BooksSound(b) && DecideCreate(b.periods, startDate, endDate).Create?
    ensures BooksSound(b.(periods := b.periods + [Period(startDate, endDate, false, 1)]))
  {
    var a := b.(periods := b.periods + [Period(startDate, endDate, false, 1)]);
    forall e | e in a.journal ensures EntrySound(a, e) {
      assert EntrySound(b, e);
    }
  }

  lemma CloseKeepsBooks(b: Books, id: nat, expectedVersion: int)
    requires BooksSound(b) && DecideClose(b.periods, id, expectedVersion).Close?
    ensures BooksSound(b.(periods := b.periods[id := Closed(b.periods[id])]))
  {
    var a := b.(periods := b.periods[id := Closed(b.periods[id])]);
    forall e | e in a.journal ensures EntrySound(a, e) {
      assert EntrySound(b, e);
    }
  }

  // A date falls in at most one period, so the period found is the entry's own.
  lemma PeriodIsUnique(periods: seq<Period>, date: int, i: nat, j: nat)
    requires PeriodsApart(periods) && i < |periods| && j < |periods|
    requires periods[i].Covers(date) && periods[j].Covers(date)
    ensures i == j
  {
    assert Overlaps(periods[i], periods[j].startDate, periods[j].endDate);
    assert Overlaps(periods[j], periods[i].startDate, periods[i].endDate);
  }

  // ---------------------------------------------------------------- exactly when a posting succeeds

  ghost predicate SourceUnused(b: Books, source: Source) {
    forall e :: e in b.journal ==> e.source != source
  }

  ghost predicate OpenFor(b: Books, p: nat, date: int) {
    p < |b.periods| && b.periods[p].Covers(date) && !b.periods[p].closed
  }

  ghost predicate Configured(b: Books) {
    b.config.currency.Some? && b.config.timezone.Some?
  }

  lemma OneSidedExactly(l: Line)
    ensures OneSided(Store(l)) <==> l.amountMinor > 0
  {
  }

  // The open period of a date is the one the lookup finds.
  lemma OpenPeriodFound(b: Books, today: int, date: DateArgument, p: nat)
    requires PeriodsApart(b.periods) && !date.NotADate?
    ensures var day := if date.Civil? then date.day else today;
            Locate(b, today, date).Ok? && Locate(b, today, date).value.2 == p <==> Configured(b) && OpenFor(b, p, day)
    ensures Locate(b, today, date).Ok? ==>
              Locate(b, today, date).value.0 == b.config.currency.value
              && Locate(b, today, date).value.1 == if date.Civil? then date.day else today
  {
    var day := if date.Civil? then date.day else today;
    if p < |b.periods| && b.periods[p].Covers(day) {
      PeriodIsUnique(b.periods, day, p, PeriodFor(b.periods, day).value);
    }
  }

  // An insert makes a new entry exactly when nothing it would violate is there.
  lemma InsertSucceedsExactly(b: Books, d: Draft)
    ensures InsertAndSeal(b, d).New? <==>
              && SourceUnused(b, d.source)
              && (d.reversalOf.Some? ==> forall e :: e in b.journal ==> e.reversalOf != d.reversalOf)
              && (forall i :: 0 <= i < |d.lines| ==> d.lines[i].amountMinor > 0)
              && (d.posTerminalId.Some? ==> d.branchId.Some?)
  {
    forall i | 0 <= i < |d.lines| ensures OneSided(Store(d.lines[i])) <==> d.lines[i].amountMinor > 0 {
      OneSidedExactly(d.lines[i]);
    }
    if FindSource(b.journal, d.source).Some? {
      assert b.journal[FindSource(b.journal, d.source).value] in b.journal;
    }
    if exists i :: 0 <= i < |b.journal| && b.journal[i].reversalOf == d.reversalOf {
      var i :| 0 <= i < |b.journal| && b.journal[i].reversalOf == d.reversalOf;
      assert b.journal[i] in b.journal;
    }
  }

  // A posting makes a new entry, in period p, exactly when its lines balance with positive
  // amounts on known accounts, the company is configured, p is open and covers the date,
  // and its source is unused.
  lemma PostSucceedsExactly(b: Books, today: int, r: PostRequest, p: nat)
    requires BooksSound(b)
    ensures Post(b, today, r).New? && Post(b, today, r).entry.period == p <==>
              && Balanced(r.lines) && Configured(b) && !r.accountingDate.NotADate?
              && OpenFor(b, p, if r.accountingDate.Civil? then r.accountingDate.day else today)
              && (forall i :: 0 <= i < |r.lines| ==> r.lines[i].accountKey in b.accounts && r.lines[i].amountMinor > 0)
              && SourceUnused(b, r.source) && (r.posTerminalId.Some? ==> r.branchId.Some?)
  {
    if !r.accountingDate.NotADate? { OpenPeriodFound(b, today, r.accountingDate, p); }
    if Prepare(b, today, r).Ok? {
      InsertSucceedsExactly(b, Prepare(b, today, r).value);
    }
  }

  // Every posted entry can be reversed: its inverted lines always balance. So the reversal
  // makes a new entry exactly when there is an entry to reverse, it has no reversal yet,
  // the company is configured, today is open and the source is unused.
  lemma ReverseSucceedsExactly(b: Books, today: int, original: nat, source: Source, p: nat)
    requires BooksSound(b)
    ensures Reverse(b, today, original, source).New? && Reverse(b, today, original, source).entry.period == p <==>
              && (exists e :: e in b.journal && e.id == original)
              && (forall e :: e in b.journal ==> e.reversalOf != Some(original))
              && Configured(b) && OpenFor(b, p, today) && SourceUnused(b, source)
  {
    var found := FindId(b.journal, original);
    OpenPeriodFound(b, today, Omitted, p);
    if found.Some? {
      var e := b.journal[found.value];
      assert e in b.journal && EntrySound(b, e);
      InverseBalances(e.lines);
      InversePositive(e.lines);
      if PrepareReversal(b, today, original, source).Ok? {
        InsertSucceedsExactly(b, PrepareReversal(b, today, original, source).value);
      }
    }
  }

  lemma InversePositive(lines: seq<StoredLine>)
    requires forall i :: 0 <= i < |lines| ==> OneSided(lines[i])
    ensures forall i :: 0 <= i < |lines| ==> Inverse(lines)[i].amountMinor > 0
  {
    forall i | 0 <= i < |lines| ensures Inverse(lines)[i].amountMinor > 0 {
      assert OneSided(lines[i]);
    }
  }

  lemma InverseBalances(lines: seq<StoredLine>)
    requires |lines| >= 2 && Net(lines) == 0 && forall i :: 0 <= i < |lines| ==> OneSided(lines[i])
    ensures Balanced(Inverse(lines))
  {
    InverseSides(lines);
    BothSidesPositive(lines);
  }

  lemma {:induction false} InverseSides(lines: seq<StoredLine>)
    requires forall i :: 0 <= i < |lines| ==> OneSided(lines[i])
    ensures SideTotal(Inverse(lines), Debit) - SideTotal(Inverse(lines), Credit) == -Net(lines)
  {
    if lines != [] {
      var n := |lines| - 1;
      InverseSides(lines[..n]);
      assert Inverse(lines)[..n] == Inverse(lines[..n]);
    }
  }

  lemma {:induction false} BothSidesPositive(lines: seq<StoredLine>)
    requires lines != [] && forall i :: 0 <= i < |lines| ==> OneSided(lines[i])
    ensures SideTotal(Inverse(lines), Debit) + SideTotal(Inverse(lines), Credit) > 0
  {
    var n := |lines| - 1;
    assert Inverse(lines)[..n] == Inverse(lines[..n]);
    if n > 0 { BothSidesPositive(lines[..n]); }
  }

  // ---------------------------------------------------------------- what a new entry bears

  // A line, as its row: the amount on its own side.
  ghost predicate Bears(stored: StoredLine, l: Line) {
    && stored.accountKey == l.accountKey
    && (l.direction == Debit ==> stored.debitMinor == l.amountMinor && stored.creditMinor == 0)
    && (l.direction == Credit ==> stored.creditMinor == l.amountMinor && stored.debitMinor == 0)
  }

  // The entry is the request's, in the company's currency, and dated the day the request
  // names or else today.
  ghost predicate BearsRequest(b: Books, today: int, r: PostRequest, e: Entry) {
    && e.source == r.source && e.reversalOf.None? && b.config.currency == Some(e.currencyCode)
    && |e.lines| == |r.lines| && (forall i :: 0 <= i < |e.lines| ==> Bears(e.lines[i], r.lines[i]))
    && e.fingerprint.branchId == r.branchId && e.fingerprint.posTerminalId == r.posTerminalId
    && (r.accountingDate.Omitted? ==> e.postingDate == today && e.fingerprint.accountingDate.None?)
    && (r.accountingDate.Civil? ==>
          e.postingDate == r.accountingDate.day && e.fingerprint.accountingDate == Some(r.accountingDate.day))
    && !r.accountingDate.NotADate?
  }

  // The entry is dated today and is its original with debits and credits exchanged.
  ghost predicate BearsReversal(b: Books, today: int, original: nat, source: Source, e: Entry) {
    && e.source == source && e.reversalOf == Some(original) && b.config.currency == Some(e.currencyCode)
    && e.postingDate == today
    && e.fingerprint.branchId.None? && e.fingerprint.posTerminalId.None? && e.fingerprint.accountingDate.None?
    && exists o :: o in b.journal && o.id == original && Exchanged(e.lines, o.lines)
  }

  ghost predicate Exchanged(a: seq<StoredLine>, b: seq<StoredLine>) {
    && |a| == |b|
    && forall i :: 0 <= i < |a| ==>
         && a[i].accountKey == b[i].accountKey
         && a[i].debitMinor == b[i].creditMinor && a[i].creditMinor == b[i].debitMinor
  }

  // So it is wherever and whenever the prepared posting is inserted.
  lemma PostBears(b: Books, today: int, r: PostRequest, later: Books)
    requires Prepare(b, today, r).Ok? && InsertAndSeal(later, Prepare(b, today, r).value).New?
    ensures BearsRequest(b, today, r, InsertAndSeal(later, Prepare(b, today, r).value).entry)
  {
  }

  lemma ReverseBears(b: Books, today: int, original: nat, source: Source, later: Books)
    requires BooksSound(b) && PrepareReversal(b, today, original, source).Ok?
    requires InsertAndSeal(later, PrepareReversal(b, today, original, source).value).New?
    ensures BearsReversal(b, today, original, source,
                          InsertAndSeal(later, PrepareReversal(b, today, original, source).value).entry)
  {
    var o := b.journal[FindId(b.journal, original).value];
    assert o in b.journal && EntrySound(b, o);
    var e := InsertAndSeal(later, PrepareReversal(b, today, original, source).value).entry;
    forall i | 0 <= i < |o.lines|
      ensures e.lines[i].debitMinor == o.lines[i].creditMinor && e.lines[i].creditMinor == o.lines[i].debitMinor
    {
      assert OneSided(o.lines[i]) && e.lines[i] == Store(InverseLine(o.lines[i]));
    }
    assert Exchanged(e.lines, o.lines);
  }

  // The first account key nobody knows.
  ghost predicate FirstUnknown(lines: seq<Line>, accounts: set<string>, key: string) {
    exists i :: 0 <= i < |lines| && lines[i].accountKey == key && key !in accounts
      && forall k :: 0 <= k < i ==> lines[k].accountKey in accounts
  }

  lemma {:induction false} UnknownIsFirst(lines: seq<Line>, accounts: set<string>, key: string)
    ensures UnknownKey(lines, accounts) == Some(key) <==> FirstUnknown(lines, accounts, key)
  {
    if lines != [] && lines[0].accountKey in accounts {
      UnknownIsFirst(lines[1..], accounts, key);
      if FirstUnknown(lines, accounts, key) {
        var i :| 0 <= i < |lines| && lines[i].accountKey == key && key !in accounts
          && forall k :: 0 <= k < i ==> lines[k].accountKey in accounts;
        assert lines[1..][i - 1].accountKey == key;
      }
      if FirstUnknown(lines[1..], accounts, key) {
        var i :| 0 <= i < |lines[1..]| && lines[1..][i].accountKey == key && key !in accounts
          && forall k :: 0 <= k < i ==> lines[1..][k].accountKey in accounts;
        forall k | 0 <= k < i + 1 ensures lines[k].accountKey in accounts {
          if k > 0 { assert lines[1..][k - 1] == lines[k]; }
        }
        assert lines[i + 1].accountKey == key;
      }
    } else if lines != [] {
      assert FirstUnknown(lines, accounts, lines[0].accountKey);
    }
  }

  // Every refusal a posting meets before its source is looked at, in the order of the checks.
  lemma PostRefusedExactly(b: Books, today: int, r: PostRequest, key: string)
    requires BooksSound(b)
    ensures var d, dated := Post(b, today, r), Balanced(r.lines) && Configured(b);
            && (d == Refused(JournalUnbalanced) <==> !Balanced(r.lines))
            && (d == Refused(CurrencyNotConfigured) <==> Balanced(r.lines) && b.config.currency.None?)
            && (d == Refused(TimezoneNotConfigured) <==>
                  Balanced(r.lines) && b.config.currency.Some? && b.config.timezone.None?)
            && (d == Refused(InvalidAccountingDate) <==> dated && r.accountingDate.NotADate?)
            && (d == Refused(NoOpenPeriod) <==>
                  dated && !r.accountingDate.NotADate?
                  && !SomeOpen(b, DayOf(r, today)) && !SomeClosed(b, DayOf(r, today)))
            && (d == Refused(PeriodClosed) <==>
                  dated && !r.accountingDate.NotADate? && SomeClosed(b, DayOf(r, today)))
            && (d == Refused(AccountKeyUnknown(key)) <==>
                  dated && !r.accountingDate.NotADate? && SomeOpen(b, DayOf(r, today))
                  && FirstUnknown(r.lines, b.accounts, key))
            && d != Refused(AlreadyReversed) && d != Refused(NotFound)
  {
    UnknownIsFirst(r.lines, b.accounts, key);
    if WellFormed(b, r) { OpenOrClosed(b, today, r.accountingDate); }
  }

  lemma ReverseRefusedExactly(b: Books, today: int, original: nat, source: Source)
    requires BooksSound(b)
    ensures var d, found := Reverse(b, today, original, source), exists e :: e in b.journal && e.id == original;
            && (d == Refused(NotFound) <==> !found)
            && (d == Refused(CurrencyNotConfigured) <==> found && b.config.currency.None?)
            && (d == Refused(TimezoneNotConfigured) <==>
                  found && b.config.currency.Some? && b.config.timezone.None?)
            && (d == Refused(NoOpenPeriod) <==>
                  found && Configured(b) && !SomeOpen(b, today) && !SomeClosed(b, today))
            && (d == Refused(PeriodClosed) <==> found && Configured(b) && SomeClosed(b, today))
            && (d == Refused(AlreadyReversed) <==>
                  found && Configured(b) && SomeOpen(b, today) && SourceUnused(b, source)
                  && exists e :: e in b.journal && e.reversalOf == Some(original))
            && d != Refused(JournalUnbalanced) && d != Refused(InvalidAccountingDate) && d != Refused(CheckViolation)
  {
    var found := FindId(b.journal, original);
    if Configured(b) { OpenOrClosed(b, today, Omitted); }
    if found.Some? {
      var e := b.journal[found.value];
      assert e in b.journal && EntrySound(b, e);
      InverseBalances(e.lines);
      InversePositive(e.lines);
      if PrepareReversal(b, today, original, source).Ok? { ReversalInserted(b, today, original, source); }
    }
  }

  lemma ReversalInserted(b: Books, today: int, original: nat, source: Source)
    requires PrepareReversal(b, today, original, source).Ok?
    requires var lines := PrepareReversal(b, today, original, source).value.lines;
             forall i :: 0 <= i < |lines| ==> lines[i].amountMinor > 0
    ensures var d := Reverse(b, today, original, source);
            && (d == Refused(AlreadyReversed) <==>
                  SourceUnused(b, source) && exists e :: e in b.journal && e.reversalOf == Some(original))
            && d != Refused(CheckViolation)
  {
    var d := PrepareReversal(b, today, original, source).value;
    forall i | 0 <= i < |d.lines| ensures OneSided(Store(d.lines[i])) { OneSidedExactly(d.lines[i]); }
    if e :| e in b.journal && e.reversalOf == Some(original) {
      var i :| 0 <= i < |b.journal| && b.journal[i] == e;
      assert b.journal[i].reversalOf == d.reversalOf;
    }
    if FindSource(b.journal, source).Some? {
      assert b.journal[FindSource(b.journal, source).value] in b.journal;
    }
    if i :| 0 <= i < |b.journal| && b.journal[i].reversalOf == d.reversalOf {
      assert b.journal[i] in b.journal;
    }
  }

  // ---------------------------------------------------------------- trial balance

  // An account's balance over the journal.
  function AccountBalance(j: seq<Entry>, account: string): int {
    if j == [] then 0 else AccountBalance(j[..|j| - 1], account) + NetOn(j[|j| - 1].lines, account)
  }

  function TrialBalance(j: seq<Entry>, accounts: seq<string>): int {
    if accounts == [] then 0 else AccountBalance(j, accounts[0]) + TrialBalance(j, accounts[1..])
  }

  function NetOver(lines: seq<StoredLine>, accounts: seq<string>): int {
    if accounts == [] then 0 else NetOn(lines, accounts[0]) + NetOver(lines, accounts[1..])
  }

  ghost predicate Distinct(s: seq<string>) {
    forall i, k :: 0 <= i < k < |s| ==> s[i] != s[k]
  }

  lemma {:induction false} NetOverOneMore(lines: seq<StoredLine>, accounts: seq<string>)
    requires lines != [] && Distinct(accounts)
    ensures var l := lines[|lines| - 1];
            NetOver(lines, accounts) == NetOver(lines[..|lines| - 1], accounts) +
                                        if l.accountKey in accounts then l.debitMinor - l.creditMinor else 0
  {
    if accounts != [] {
      NetOverOneMore(lines, accounts[1..]);
      assert accounts == [accounts[0]] + accounts[1..];
      assert accounts[0] !in accounts[1..];
    }
  }

  lemma {:induction false} NetOverNothing(accounts: seq<string>)
    ensures NetOver([], accounts) == 0
  {
    if accounts != [] { NetOverNothing(accounts[1..]); }
  }

  lemma {:induction false} NetOverAll(lines: seq<StoredLine>, accounts: seq<string>)
    requires Distinct(accounts) && forall i :: 0 <= i < |lines| ==> lines[i].accountKey in accounts
    ensures NetOver(lines, accounts) == Net(lines)
  {
    if lines == [] {
      NetOverNothing(accounts);
    } else {
      NetOverOneMore(lines, accounts);
      NetOverAll(lines[..|lines| - 1], accounts);
    }
  }

  lemma {:induction false} TrialBalanceOneMore(j: seq<Entry>, accounts: seq<string>)
    requires j != []
    ensures TrialBalance(j, accounts) == TrialBalance(j[..|j| - 1], accounts) + NetOver(j[|j| - 1].lines, accounts)
  {
    if accounts != [] { TrialBalanceOneMore(j, accounts[1..]); }
  }

  lemma {:induction false} TrialBalanceOfNothing(accounts: seq<string>)
    ensures TrialBalance([], accounts) == 0
  {
    if accounts != [] { TrialBalanceOfNothing(accounts[1..]); }
  }

  ghost predicate ListsAccounts(j: seq<Entry>, accounts: seq<string>) {
    && Distinct(accounts)
    && forall e, i :: e in j && 0 <= i < |e.lines| ==> e.lines[i].accountKey in accounts
  }

  // Over any list of the accounts in use, each once, the balances add up to zero.
  lemma {:induction false} TrialBalanceIsZero(j: seq<Entry>, accounts: seq<string>)
    requires ListsAccounts(j, accounts) && forall e :: e in j ==> BalancedEntry(e)
    ensures TrialBalance(j, accounts) == 0
  {
    if j == [] {
      TrialBalanceOfNothing(accounts);
    } else {
      var e := j[|j| - 1];
      assert e in j && BalancedEntry(e);
      TrialBalanceIsZero(j[..|j| - 1], accounts);
      TrialBalanceOneMore(j, accounts);
      NetOverAll(e.lines, accounts);
    }
  }

  // ---------------------------------------------------------------- reposting and reversing

  lemma FoundSource(j: seq<Entry>, e: Entry)
    requires NoClash(j) && e in j
    ensures FindSource(j, e.source).Some? && j[FindSource(j, e.source).value] == e
  {
    var i :| 0 <= i < |j| && j[i] == e;
    var k := FindSource(j, e.source).value;
    assert Clash(j[i], j[k]) && Clash(j[k], j[i]);
  }

  // The same content again: what else was given is the same, and account by account and
  // side by side the same amounts come in the same order.
  ghost predicate SameContent(e: Entry, d: Draft) {
    && e.currencyCode == d.currencyCode
    && e.fingerprint.branchId == d.branchId && e.fingerprint.posTerminalId == d.posTerminalId
    && e.fingerprint.accountingDate == d.explicitDate
    && SameAmounts(RecoverAll(e.lines), d.lines)
  }

  // Inserting a source again gives back its entry exactly when the content is the same, and
  // otherwise is refused.
  lemma RepostAnswers(b: Books, e: Entry, d: Draft)
    requires BooksSound(b) && e in b.journal && d.source == e.source
    ensures InsertAndSeal(b, d) == if SameContent(e, d) then Existing(e.id) else Refused(SourceConflict)
  {
    FoundSource(b.journal, e);
    assert EntrySound(b, e);
    FingerprintEqual(e.source, RecoverAll(e.lines), d.lines, e.currencyCode, d.currencyCode,
                     e.fingerprint.branchId, d.branchId, e.fingerprint.posTerminalId, d.posTerminalId,
                     e.fingerprint.accountingDate, d.explicitDate);
  }

  function ExplicitDay(r: PostRequest): Option<int> {
    if r.accountingDate.Civil? then Some(r.accountingDate.day) else None
  }

  function DayOf(r: PostRequest, today: int): int {
    if r.accountingDate.Civil? then r.accountingDate.day else today
  }

  // The request repeats the entry.
  ghost predicate Repeats(b: Books, e: Entry, r: PostRequest) {
    && b.config.currency == Some(e.currencyCode)
    && e.fingerprint.branchId == r.branchId && e.fingerprint.posTerminalId == r.posTerminalId
    && e.fingerprint.accountingDate == ExplicitDay(r)
    && SameAmounts(RecoverAll(e.lines), r.lines)
  }

  // What a posting needs before its source is looked at, its period apart.
  ghost predicate WellFormed(b: Books, r: PostRequest) {
    && Balanced(r.lines) && Configured(b) && !r.accountingDate.NotADate?
  }

  ghost predicate KeysKnown(b: Books, r: PostRequest) {
    forall i :: 0 <= i < |r.lines| ==> r.lines[i].accountKey in b.accounts
  }

  ghost predicate SomeOpen(b: Books, day: int) {
    exists p: nat :: OpenFor(b, p, day)
  }

  ghost predicate SomeClosed(b: Books, day: int) {
    exists p: nat :: p < |b.periods| && b.periods[p].Covers(day) && b.periods[p].closed
  }

  // Posting a source that is already in the books never makes an entry. While a period is
  // open for the posting's day it is answered with the entry exactly when it repeats it,
  // and refused as a conflict exactly when it does not; once that period is closed the
  // refusal is the period's, for a faithful retry too.
  lemma RepostExactly(b: Books, today: int, r: PostRequest, e: Entry)
    requires BooksSound(b) && e in b.journal && e.source == r.source
    ensures !Post(b, today, r).New?
    ensures Post(b, today, r) == Existing(e.id) <==>
              WellFormed(b, r) && SomeOpen(b, DayOf(r, today)) && KeysKnown(b, r) && Repeats(b, e, r)
    ensures Post(b, today, r) == Refused(SourceConflict) <==>
              WellFormed(b, r) && SomeOpen(b, DayOf(r, today)) && KeysKnown(b, r) && !Repeats(b, e, r)
    ensures Post(b, today, r) == Refused(PeriodClosed) <==> WellFormed(b, r) && SomeClosed(b, DayOf(r, today))
    ensures Post(b, today, r) == Refused(NoOpenPeriod) <==>
              WellFormed(b, r) && !SomeOpen(b, DayOf(r, today)) && !SomeClosed(b, DayOf(r, today))
  {
    if WellFormed(b, r) { OpenOrClosed(b, today, r.accountingDate); }
    if Prepare(b, today, r).Ok? {
      RepostAnswers(b, e, Prepare(b, today, r).value);
    }
  }

  lemma PreparedExactly(b: Books, today: int, r: PostRequest)
    requires BooksSound(b)
    ensures Prepare(b, today, r).Ok? <==> WellFormed(b, r) && SomeOpen(b, DayOf(r, today)) && KeysKnown(b, r)
  {
    if WellFormed(b, r) { OpenOrClosed(b, today, r.accountingDate); }
  }

  // The three ways a day's period can be found.
  lemma OpenOrClosed(b: Books, today: int, date: DateArgument)
    requires PeriodsApart(b.periods) && Configured(b) && !date.NotADate?
    ensures var day := if date.Civil? then date.day else today;
            && (Locate(b, today, date).Ok? <==> SomeOpen(b, day))
            && (Locate(b, today, date) == Err(PeriodClosed) <==> SomeClosed(b, day))
            && (Locate(b, today, date) == Err(NoOpenPeriod) <==> !SomeOpen(b, day) && !SomeClosed(b, day))
  {
    var day := if date.Civil? then date.day else today;
    var found := PeriodFor(b.periods, day);
    forall p: nat | p < |b.periods| && b.periods[p].Covers(day) ensures found == Some(p) {
      PeriodIsUnique(b.periods, day, p, found.value);
    }
    if found.Some? && !b.periods[found.value].closed { assert OpenFor(b, found.value, day); }
  }

  // The engine's promise for a plain retry: the very request that made an entry, posted
  // again later, is answered with that entry exactly when the day it falls on then is open
  // and the company's currency and accounts still allow it; and never makes another.
  lemma RetryAnswered(b: Books, today: int, r: PostRequest, later: Books, laterDay: int)
    requires BooksSound(b) && Post(b, today, r).New?
    requires BooksSound(later) && Post(b, today, r).entry in later.journal
    ensures !Post(later, laterDay, r).New?
    ensures Post(later, laterDay, r) == Existing(Post(b, today, r).entry.id) <==>
              && later.config.currency == b.config.currency && later.config.timezone.Some?
              && KeysKnown(later, r) && SomeOpen(later, DayOf(r, laterDay))
  {
    var e := Post(b, today, r).entry;
    PreparedSound(b, today, r);
    assert EntrySound(later, e);
    var d := Prepare(b, today, r).value;
    InsertSucceedsExactly(b, d);
    forall i | 0 <= i < |d.lines| ensures OneSided(Store(d.lines[i])) { OneSidedExactly(d.lines[i]); }
    RecoverStored(r.lines);
    RepostExactly(later, laterDay, r, e);
  }

  lemma FoundId(j: seq<Entry>, e: Entry)
    requires NoClash(j) && e in j
    ensures FindId(j, e.id).Some? && j[FindId(j, e.id).value] == e
  {
    SameId(j, e, j[FindId(j, e.id).value]);
  }

  // The entry is what reversing `o` would post, as far as the fingerprint tells: it does not
  // say which entry is reversed.
  ghost predicate RepeatsReversal(b: Books, e: Entry, o: Entry) {
    && b.config.currency == Some(e.currencyCode)
    && e.fingerprint.branchId.None? && e.fingerprint.posTerminalId.None? && e.fingerprint.accountingDate.None?
    && SameAmounts(RecoverAll(e.lines), Inverse(o.lines))
  }

  // Reversing under a source that is already in the books: never a new entry, the old one
  // back exactly when today is open and the content is the same, whatever that one reversed.
  lemma RereverseExactly(b: Books, today: int, source: Source, o: Entry, e: Entry)
    requires BooksSound(b) && o in b.journal && e in b.journal && e.source == source
    ensures !Reverse(b, today, o.id, source).New?
    ensures Reverse(b, today, o.id, source) == Existing(e.id) <==>
              Configured(b) && SomeOpen(b, today) && RepeatsReversal(b, e, o)
    ensures Reverse(b, today, o.id, source) == Refused(SourceConflict) <==>
              Configured(b) && SomeOpen(b, today) && !RepeatsReversal(b, e, o)
    ensures Reverse(b, today, o.id, source) == Refused(PeriodClosed) <==> Configured(b) && SomeClosed(b, today)
  {
    FoundId(b.journal, o);
    assert EntrySound(b, o);
    InverseBalances(o.lines);
    if Configured(b) { OpenOrClosed(b, today, Omitted); }
    var prepared := PrepareReversal(b, today, o.id, source);
    if prepared.Ok? {
      RepostAnswers(b, e, prepared.value);
    }
  }

  // So a retry with its lines in another order is still answered with the entry, provided
  // no account and side occurs twice.
  lemma ReorderedRepost(b: Books, e: Entry, d: Draft)
    requires BooksSound(b) && e in b.journal && d.source == e.source && d.currencyCode == e.currencyCode
    requires e.fingerprint.branchId == d.branchId && e.fingerprint.posTerminalId == d.posTerminalId
    requires e.fingerprint.accountingDate == d.explicitDate
    requires multiset(d.lines) == multiset(RecoverAll(e.lines))
    requires forall i, k :: 0 <= i < k < |d.lines| ==> KeyOf(d.lines[i]) != KeyOf(d.lines[k])
    ensures InsertAndSeal(b, d) == Existing(e.id)
  {
    forall k ensures Amounts(RecoverAll(e.lines), k) == Amounts(d.lines, k) {
      AmountsOfDistinct(d.lines, RecoverAll(e.lines), k);
    }
    RepostAnswers(b, e, d);
  }

  // A reversed entry and its reversal cancel on every account.
  lemma ReversedNetsToZero(b: Books, e: Entry, r: Entry, account: string)
    requires BooksSound(b) && e in b.journal && r in b.journal && r.reversalOf == Some(e.id)
    ensures NetOn(e.lines, account) + NetOn(r.lines, account) == 0
  {
    assert Mirrors(b.journal, e.id, r.lines);
    var f :| f in b.journal && f.id == e.id && r.lines == StoreAll(Inverse(f.lines));
    SameId(b.journal, e, f);
    assert EntrySound(b, e);
    ReversalCancels(e.lines, account);
  }

  lemma SameId(j: seq<Entry>, e: Entry, f: Entry)
    requires NoClash(j) && e in j && f in j && Clash(e, f)
    ensures e == f
  {
    var i :| 0 <= i < |j| && j[i] == e;
    var k :| 0 <= k < |j| && j[k] == f;
    assert Clash(j[i], j[k]) && Clash(j[k], j[i]);
  }
}
