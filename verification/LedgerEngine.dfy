// The posting engine and the period repository as one transaction runs them, over books
// they keep sound (apps/api/src/modules/accounting/posting-engine.service.ts,
// accounting-period.repository.ts).
module LedgerEngine {
  import opened Prelude
  import opened Fingerprints
  import opened Ledger
  import opened LedgerSound

  class PostingEngine {
    var books: Books

    constructor (config: Config, accounts: set<string>)
      ensures books == Books(config, accounts, [], [], 0) && BooksSound(books)
    {
      books := Books(config, accounts, [], [], 0);
    }

    // insertAndSeal, by what it means for the books.
    method InsertDraft(d: Draft) returns (r: Decision)
      requires BooksSound(books) && DraftSound(books, d)
      modifies this
      ensures BooksSound(books)
      ensures forall e :: e in old(books).journal && e.source == d.source ==>
                r == if SameContent(e, d) then Existing(e.id) else Refused(SourceConflict)
      ensures r.New? <==> Insertable(old(books), d)
      ensures r == Refused(AlreadyReversed) <==>
                SourceUnused(old(books), d.source) && HasReversal(old(books), d.reversalOf)
      ensures !r.New? ==> books == old(books)
      ensures r.New? ==> books == After(old(books), r.entry) && CarriesDraft(old(books), r.entry, d)
      ensures r == InsertAndSeal(old(books), d)
    {
      InsertMeans(books, d);
      r := InsertOrFind(d);
    }

    // Its statements: the guarded insert, the comparison with the row it ran into, the
    // unique index on reversals, and the line table's CHECKs line by line.
    method InsertOrFind(d: Draft) returns (r: Decision)
      requires d.lines != []
      modifies this
      ensures r == InsertAndSeal(old(books), d)
      ensures books == if r.New? then After(old(books), r.entry) else old(books)
    {
      var fingerprint := DraftFingerprint(d);
      var found := FindSource(books.journal, d.source);
      if found.Some? {
        var existing := books.journal[found.value];
        if existing.fingerprint != fingerprint { return Refused(SourceConflict); }
        return Existing(existing.id);
      }
      if d.reversalOf.Some? {
        for i := 0 to |books.journal|
          invariant books == old(books)
          invariant forall k :: 0 <= k < i ==> books.journal[k].reversalOf != d.reversalOf
        {
          if books.journal[i].reversalOf == d.reversalOf { return Refused(AlreadyReversed); }
        }
      }
      var stored: seq<StoredLine> := [];
      for i := 0 to |d.lines|
        invariant books == old(books) && stored == StoreAll(d.lines)[..i]
        invariant forall k :: 0 <= k < i ==> OneSided(Store(d.lines[k]))
        invariant i > 0 ==> !(d.posTerminalId.Some? && d.branchId.None?)
      {
        var line := Store(d.lines[i]);
        if !OneSided(line) || (d.posTerminalId.Some? && d.branchId.None?) { return Refused(CheckViolation); }
        stored := stored + [line];
      }
      assert stored == StoreAll(d.lines);
      var entry := Entry(books.nextId, d.source, d.currencyCode, d.postingDate, d.period,
                         d.reversalOf, fingerprint, stored);
      books := books.(journal := books.journal + [entry], nextId := books.nextId + 1);
      return New(entry);
    }

    method PostJournal(today: int, r: PostRequest) returns (d: Decision)
      requires BooksSound(books)
      modifies this
      ensures BooksSound(books)
      ensures d.New? ==> BearsRequest(old(books), today, r, d.entry) && d.entry.id == old(books).nextId
      ensures d == Post(old(books), today, r)
      ensures books == if d.New? then After(old(books), d.entry) else old(books)
    {
      var balanced := AssertConstructedBalance(r.lines);
      if !balanced { return Refused(JournalUnbalanced); }
      var at := Locate(books, today, r.accountingDate);
      if at.Err? { return Refused(at.error); }
      var unknown := UnknownKey(r.lines, books.accounts);
      if unknown.Some? { return Refused(AccountKeyUnknown(unknown.value)); }
      var date := if r.accountingDate.Civil? then Some(r.accountingDate.day) else None;
      PreparedSound(books, today, r);
      if Post(books, today, r).New? { PostBears(books, today, r, books); }
      d := InsertDraft(Draft(r.source, r.lines, at.value.0, at.value.1, at.value.2,
                             r.branchId, r.posTerminalId, date, None));
    }

    method ReverseJournal(today: int, original: nat, source: Source) returns (d: Decision)
      requires BooksSound(books)
      modifies this
      ensures BooksSound(books)
      ensures d.New? ==> BearsReversal(old(books), today, original, source, d.entry) && d.entry.id == old(books).nextId
      ensures d == Reverse(old(books), today, original, source)
      ensures books == if d.New? then After(old(books), d.entry) else old(books)
    {
      var found := FindId(books.journal, original);
      if found.None? { return Refused(NotFound); }
      var lines := Inverse(books.journal[found.value].lines);
      var balanced := AssertConstructedBalance(lines);
      if !balanced { return Refused(JournalUnbalanced); }
      var at := Locate(books, today, Omitted);
      if at.Err? { return Refused(at.error); }
      PreparedReversalSound(books, today, original, source);
      if Reverse(books, today, original, source).New? { ReverseBears(books, today, original, source, books); }
      d := InsertDraft(Draft(source, lines, at.value.0, at.value.1, at.value.2, None, None, None, Some(original)));
    }

    // close, its row locked: the version decides, and a close already applied is a replay.
    method ClosePeriod(id: nat, expectedVersion: int) returns (d: CloseDecision)
      requires BooksSound(books)
      modifies this
      ensures BooksSound(books)
      ensures d.NoSuchPeriod? <==> id >= |old(books).periods|
      ensures d.AlreadyClosed? <==>
                id < |old(books).periods| && old(books).periods[id].closed
                && old(books).periods[id].version == expectedVersion + 1
      ensures d.Close? <==>
                id < |old(books).periods| && !old(books).periods[id].closed
                && old(books).periods[id].version == expectedVersion
      ensures !d.Close? ==> books == old(books)
      ensures d.Close? ==>
                && books == old(books).(periods := books.periods) && |books.periods| == |old(books).periods|
                && books.periods[id].closed && books.periods[id].version == expectedVersion + 1
                && (books.periods[id].startDate, books.periods[id].endDate)
                   == (old(books).periods[id].startDate, old(books).periods[id].endDate)
                && forall k :: 0 <= k < |books.periods| && k != id ==> books.periods[k] == old(books).periods[k]
      ensures d == DecideClose(old(books).periods, id, expectedVersion)
    {
      if id >= |books.periods| { return NoSuchPeriod; }
      var row := books.periods[id];
      if row.closed {
        if row.version == expectedVersion + 1 { return AlreadyClosed; }
        return VersionConflict;
      }
      if row.version != expectedVersion { return VersionConflict; }
      CloseKeepsBooks(books, id, expectedVersion);
      books := books.(periods := books.periods[id := row.(closed := true, version := row.version + 1)]);
      return Close;
    }

    // create: refused exactly when the dates are reversed or some day is already in a period.
    method CreatePeriod(startDate: int, endDate: int) returns (d: CreateDecision)
      requires BooksSound(books)
      modifies this
      ensures BooksSound(books)
      ensures d.DatesReversed? <==> startDate > endDate
      ensures d.Overlap? <==> startDate <= endDate && SharesDay(old(books).periods, startDate, endDate)
      ensures !d.Create? ==> books == old(books)
      ensures d.Create? ==>
                && books == old(books).(periods := books.periods) && |books.periods| == |old(books).periods| + 1
                && books.periods[..|old(books).periods|] == old(books).periods
                && (forall day :: books.periods[|old(books).periods|].Covers(day) <==> startDate <= day <= endDate)
                && !books.periods[|old(books).periods|].closed && books.periods[|old(books).periods|].version == 1
    {
      if startDate > endDate { return DatesReversed; }
      for i := 0 to |books.periods|
        invariant books == old(books)
        invariant forall k :: 0 <= k < i ==> !Overlaps(books.periods[k], startDate, endDate)
      {
        if Overlaps(books.periods[i], startDate, endDate) {
          CommonDay(books.periods, i, startDate, endDate);
          return Overlap;
        }
      }
      CreateKeepsBooks(books, startDate, endDate);
      books := books.(periods := books.periods + [Period(startDate, endDate, false, 1)]);
      return Create;
    }
  }

  ghost predicate HasReversal(b: Books, reversalOf: Option<nat>) {
    reversalOf.Some? && exists e :: e in b.journal && e.reversalOf == reversalOf
  }

  // Nothing an insert of the draft would violate is there.
  ghost predicate Insertable(b: Books, d: Draft) {
    && SourceUnused(b, d.source) && !HasReversal(b, d.reversalOf)
    && (forall i :: 0 <= i < |d.lines| ==> d.lines[i].amountMinor > 0)
    && (d.posTerminalId.Some? ==> d.branchId.Some?)
  }

  ghost predicate SharesDay(periods: seq<Period>, startDate: int, endDate: int) {
    exists i: nat, day: int :: i < |periods| && periods[i].Covers(day) && startDate <= day <= endDate
  }

  lemma CommonDay(periods: seq<Period>, i: nat, startDate: int, endDate: int)
    requires PeriodsApart(periods) && i < |periods| && startDate <= endDate && Overlaps(periods[i], startDate, endDate)
    ensures SharesDay(periods, startDate, endDate)
  {
    assert periods[i].Covers(Max(periods[i].startDate, startDate));
  }

  // The entry says what the draft said, under an id no other entry has.
  ghost predicate CarriesDraft(b: Books, e: Entry, d: Draft) {
    && e.source == d.source && RecoverAll(e.lines) == d.lines && e.reversalOf == d.reversalOf
    && (e.period, e.postingDate, e.currencyCode) == (d.period, d.postingDate, d.currencyCode)
    && forall other :: other in b.journal ==> other.id != e.id
  }

  lemma InsertMeans(b: Books, d: Draft)
    requires BooksSound(b) && DraftSound(b, d)
    ensures forall e :: e in b.journal && e.source == d.source ==>
              InsertAndSeal(b, d) == if SameContent(e, d) then Existing(e.id) else Refused(SourceConflict)
    ensures InsertAndSeal(b, d).New? <==> Insertable(b, d)
    ensures InsertAndSeal(b, d) == Refused(AlreadyReversed) <==>
              SourceUnused(b, d.source) && HasReversal(b, d.reversalOf)
    ensures InsertAndSeal(b, d).New? ==>
              BooksSound(After(b, InsertAndSeal(b, d).entry)) && CarriesDraft(b, InsertAndSeal(b, d).entry, d)
  {
    forall e | e in b.journal && e.source == d.source
      ensures InsertAndSeal(b, d) == if SameContent(e, d) then Existing(e.id) else Refused(SourceConflict)
    {
      RepostAnswers(b, e, d);
    }
    InsertSucceedsExactly(b, d);
    ReversalFound(b, d);
    if InsertAndSeal(b, d).New? {
      InsertKeepsBooks(b, d);
      forall i | 0 <= i < |d.lines| ensures OneSided(Store(d.lines[i])) { OneSidedExactly(d.lines[i]); }
      RecoverStored(d.lines);
      forall e | e in b.journal ensures e.id != b.nextId {
        assert EntrySound(b, e);
      }
    }
  }

  lemma ReversalFound(b: Books, d: Draft)
    ensures HasReversal(b, d.reversalOf) <==>
              d.reversalOf.Some? && exists i :: 0 <= i < |b.journal| && b.journal[i].reversalOf == d.reversalOf
    ensures SourceUnused(b, d.source) <==> FindSource(b.journal, d.source).None?
  {
    if HasReversal(b, d.reversalOf) {
      var e :| e in b.journal && e.reversalOf == d.reversalOf;
      var i :| 0 <= i < |b.journal| && b.journal[i] == e;
      assert b.journal[i].reversalOf == d.reversalOf;
    }
    if d.reversalOf.Some? && exists i :: 0 <= i < |b.journal| && b.journal[i].reversalOf == d.reversalOf {
      var i :| 0 <= i < |b.journal| && b.journal[i].reversalOf == d.reversalOf;
      assert b.journal[i] in b.journal;
    }
    if FindSource(b.journal, d.source).Some? {
      assert b.journal[FindSource(b.journal, d.source).value] in b.journal;
    }
  }
}
