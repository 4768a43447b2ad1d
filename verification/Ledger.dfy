// One company's ledger: the posting engine and its accounting periods
// (apps/api/src/modules/accounting/posting-engine.service.ts, accounting-period.repository.ts).
module Ledger {
  import opened Prelude
  import opened Fingerprints

  // ---------------------------------------------------------------- stored data

  // A journal line row: one side is positive, the other zero.
  datatype StoredLine = StoredLine(accountKey: string, debitMinor: int, creditMinor: int)

  datatype Entry = Entry(
    id: nat,
    source: Source,
    currencyCode: string,
    postingDate: int,
    period: nat,
    reversalOf: Option<nat>,
    fingerprint: Fingerprint,
    lines: seq<StoredLine>)

  datatype Period = Period(startDate: int, endDate: int, closed: bool, version: int) {
    predicate Covers(date: int) {
      startDate <= date <= endDate
    }
  }

  datatype Config = Config(currency: Option<string>, timezone: Option<string>)

  // The books as one transaction sees them.
  datatype Books = Books(config: Config, accounts: set<string>, periods: seq<Period>, journal: seq<Entry>, nextId: nat)

  datatype PostError =
    | JournalUnbalanced
    | CurrencyNotConfigured
    | TimezoneNotConfigured
    | InvalidAccountingDate
    | NoOpenPeriod
    | PeriodClosed
    | AccountKeyUnknown(key: string)
    | SourceConflict
    | AlreadyReversed
    | NotFound
    | CheckViolation

  // An explicit accounting date: left out, a valid civil date, or not a date.
  datatype DateArgument = Omitted | Civil(day: int) | NotADate

  datatype PostRequest = PostRequest(
    source: Source,
    lines: seq<Line>,
    branchId: Option<string>,
    posTerminalId: Option<string>,
    accountingDate: DateArgument)

  datatype Decision = Refused(error: PostError) | Existing(id: nat) | New(entry: Entry)

  // ---------------------------------------------------------------- balance

  function SideTotal(lines: seq<Line>, side: Direction): int {
    if lines == [] then 0
    else SideTotal(lines[..|lines| - 1], side) +
         (if lines[|lines| - 1].direction == side then lines[|lines| - 1].amountMinor else 0)
  }

  ghost predicate Balanced(lines: seq<Line>) {
    |lines| >= 2 && SideTotal(lines, Debit) == SideTotal(lines, Credit) && SideTotal(lines, Debit) > 0
  }

  // assertConstructedBalance
  method AssertConstructedBalance(lines: seq<Line>) returns (ok: bool)
    ensures ok <==> Balanced(lines)
  {
    if |lines| < 2 { return false; }
    var debit, credit := 0, 0;
    for i := 0 to |lines|
      invariant debit == SideTotal(lines[..i], Debit) && credit == SideTotal(lines[..i], Credit)
    {
      assert lines[..i + 1][..i] == lines[..i];
      if lines[i].direction == Debit { debit := debit + lines[i].amountMinor; }
      else { credit := credit + lines[i].amountMinor; }
    }
    assert lines[..|lines|] == lines;
    return !(debit != credit || debit <= 0);
  }

  function Store(l: Line): StoredLine {
    match l.direction
    case Debit => StoredLine(l.accountKey, l.amountMinor, 0)
    case Credit => StoredLine(l.accountKey, 0, l.amountMinor)
  }

  function StoreAll(lines: seq<Line>): (s: seq<StoredLine>)
    ensures |s| == |lines|
  {
    seq(|lines|, i requires 0 <= i < |lines| => Store(lines[i]))
  }

  // The line table's CHECK: neither side negative, exactly one positive.
  predicate OneSided(l: StoredLine) {
    l.debitMinor >= 0 && l.creditMinor >= 0 && (l.debitMinor > 0 <==> l.creditMinor == 0)
  }

  // Debits less credits: over all lines, and on one account.
  function Net(lines: seq<StoredLine>): int {
    if lines == [] then 0
    else Net(lines[..|lines| - 1]) + lines[|lines| - 1].debitMinor - lines[|lines| - 1].creditMinor
  }

  function NetOn(lines: seq<StoredLine>, account: string): int {
    if lines == [] then 0
    else
      var l := lines[|lines| - 1];
      NetOn(lines[..|lines| - 1], account) + (if l.accountKey == account then l.debitMinor - l.creditMinor else 0)
  }

  lemma {:induction false} StoredNet(lines: seq<Line>)
    ensures Net(StoreAll(lines)) == SideTotal(lines, Debit) - SideTotal(lines, Credit)
  {
    if lines != [] {
      StoredNet(lines[..|lines| - 1]);
      assert StoreAll(lines)[..|lines| - 1] == StoreAll(lines[..|lines| - 1]);
    }
  }

  // ---------------------------------------------------------------- reversal

  // A stored line with its direction inverted.
  function InverseLine(l: StoredLine): Line {
    if l.debitMinor > 0 then Line(l.accountKey, Credit, l.debitMinor) else Line(l.accountKey, Debit, l.creditMinor)
  }

  function Inverse(lines: seq<StoredLine>): (s: seq<Line>)
    ensures |s| == |lines|
  {
    seq(|lines|, i requires 0 <= i < |lines| => InverseLine(lines[i]))
  }

  // With one-sided lines, an entry and its reversal cancel on every account.
  lemma {:induction false} ReversalCancels(lines: seq<StoredLine>, account: string)
    requires forall i :: 0 <= i < |lines| ==> OneSided(lines[i])
    ensures NetOn(StoreAll(Inverse(lines)), account) == -NetOn(lines, account)
  {
    if lines != [] {
      var n := |lines| - 1;
      ReversalCancels(lines[..n], account);
      assert StoreAll(Inverse(lines))[..n] == StoreAll(Inverse(lines[..n]));
    }
  }

  // ---------------------------------------------------------------- decisions

  function PeriodFor(periods: seq<Period>, date: int): (r: Option<nat>)
    ensures r.Some? ==> r.value < |periods| && periods[r.value].Covers(date)
    ensures r.None? ==> forall i :: 0 <= i < |periods| ==> !periods[i].Covers(date)
  {
    if periods == [] then None
    else if periods[|periods| - 1].Covers(date) then Some(|periods| - 1)
    else PeriodFor(periods[..|periods| - 1], date)
  }

  function FindSource(journal: seq<Entry>, source: Source): (r: Option<nat>)
    ensures r.Some? ==> r.value < |journal| && journal[r.value].source == source
    ensures r.None? ==> forall i :: 0 <= i < |journal| ==> journal[i].source != source
  {
    if journal == [] then None
    else if journal[|journal| - 1].source == source then Some(|journal| - 1)
    else FindSource(journal[..|journal| - 1], source)
  }

  function FindId(journal: seq<Entry>, id: nat): (r: Option<nat>)
    ensures r.Some? ==> r.value < |journal| && journal[r.value].id == id
    ensures r.None? ==> forall i :: 0 <= i < |journal| ==> journal[i].id != id
  {
    if journal == [] then None
    else if journal[|journal| - 1].id == id then Some(|journal| - 1)
    else FindId(journal[..|journal| - 1], id)
  }

  function UnknownKey(lines: seq<Line>, accounts: set<string>): (r: Option<string>)
    ensures r.None? <==> forall i :: 0 <= i < |lines| ==> lines[i].accountKey in accounts
  {
    if lines == [] then None
    else if lines[0].accountKey !in accounts then Some(lines[0].accountKey)
    else UnknownKey(lines[1..], accounts)
  }

  // What both kinds of posting hand to insertAndSeal.
  datatype Draft = Draft(
    source: Source,
    lines: seq<Line>,
    currencyCode: string,
    postingDate: int,
    period: nat,
    branchId: Option<string>,
    posTerminalId: Option<string>,
    explicitDate: Option<int>,
    reversalOf: Option<nat>)

  function DraftFingerprint(d: Draft): Fingerprint {
    ComputeFingerprint(d.source, d.currencyCode, d.lines, d.branchId, d.posTerminalId, d.explicitDate)
  }

  // insertAndSeal, with the unique indexes and CHECKs it runs into.
  function InsertAndSeal(b: Books, d: Draft): Decision {
    match FindSource(b.journal, d.source)
    case Some(i) =>
      if b.journal[i].fingerprint == DraftFingerprint(d) then Existing(b.journal[i].id) else Refused(SourceConflict)
    case None =>
      if d.reversalOf.Some? && exists i :: 0 <= i < |b.journal| && b.journal[i].reversalOf == d.reversalOf
      then Refused(AlreadyReversed)
      else if (exists i :: 0 <= i < |d.lines| && !OneSided(Store(d.lines[i])))
              || (d.posTerminalId.Some? && d.branchId.None?)
      then Refused(CheckViolation)
      else New(Entry(b.nextId, d.source, d.currencyCode, d.postingDate, d.period, d.reversalOf,
                     DraftFingerprint(d), StoreAll(d.lines)))
  }

  // Config, posting date and open period, in the order they are looked up.
  function Locate(b: Books, today: int, date: DateArgument): Result<(string, int, nat), PostError> {
    if b.config.currency.None? then Err(CurrencyNotConfigured)
    else if b.config.timezone.None? then Err(TimezoneNotConfigured)
    else if date.NotADate? then Err(InvalidAccountingDate)
    else
      var postingDate := if date.Civil? then date.day else today;
      match PeriodFor(b.periods, postingDate)
      case None => Err(NoOpenPeriod)
      case Some(p) => if b.periods[p].closed then Err(PeriodClosed) else Ok((b.config.currency.value, postingDate, p))
  }

  // postJournal and reverseJournal, up to the insert.
  ghost function Prepare(b: Books, today: int, r: PostRequest): Result<Draft, PostError> {
    if !Balanced(r.lines) then Err(JournalUnbalanced)
    else
      match Locate(b, today, r.accountingDate)
      case Err(e) => Err(e)
      case Ok(at) =>
        if UnknownKey(r.lines, b.accounts).Some? then Err(AccountKeyUnknown(UnknownKey(r.lines, b.accounts).value))
        else
          Ok(Draft(r.source, r.lines, at.0, at.1, at.2, r.branchId, r.posTerminalId,
                   if r.accountingDate.Civil? then Some(r.accountingDate.day) else None, None))
  }

  ghost function PrepareReversal(b: Books, today: int, original: nat, source: Source): Result<Draft, PostError> {
    match FindId(b.journal, original)
    case None => Err(NotFound)
    case Some(i) =>
      var lines := Inverse(b.journal[i].lines);
      if !Balanced(lines) then Err(JournalUnbalanced)
      else
        match Locate(b, today, Omitted)
        case Err(e) => Err(e)
        case Ok(at) => Ok(Draft(source, lines, at.0, at.1, at.2, None, None, None, Some(original)))
  }

  ghost function Finish(b: Books, prepared: Result<Draft, PostError>): Decision {
    match prepared
    case Err(e) => Refused(e)
    case Ok(d) => InsertAndSeal(b, d)
  }

  ghost function Post(b: Books, today: int, r: PostRequest): Decision {
    Finish(b, Prepare(b, today, r))
  }

  ghost function Reverse(b: Books, today: int, original: nat, source: Source): Decision {
    Finish(b, PrepareReversal(b, today, original, source))
  }

  datatype CloseDecision = NoSuchPeriod | VersionConflict | AlreadyClosed | Close

  // close, once its row is locked.
  function DecideClose(periods: seq<Period>, id: nat, expectedVersion: int): CloseDecision {
    if id >= |periods| then NoSuchPeriod
    else if periods[id].closed then
      (if periods[id].version == expectedVersion + 1 then AlreadyClosed else VersionConflict)
    else if periods[id].version != expectedVersion then VersionConflict
    else Close
  }

  function Closed(p: Period): Period {
    p.(closed := true, version := p.version + 1)
  }

  datatype CreateDecision = DatesReversed | Overlap | Create

  predicate Overlaps(a: Period, startDate: int, endDate: int) {
    a.startDate <= endDate && startDate <= a.endDate
  }

  function DecideCreate(periods: seq<Period>, startDate: int, endDate: int): CreateDecision {
    if startDate > endDate then DatesReversed
    else if exists i :: 0 <= i < |periods| && Overlaps(periods[i], startDate, endDate) then Overlap
    else Create
  }

  function After(b: Books, e: Entry): Books {
    b.(journal := b.journal + [e], nextId := b.nextId + 1)
  }
}
