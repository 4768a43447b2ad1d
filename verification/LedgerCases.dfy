// Two short histories in which the posting engine does not do what its comments say
// (apps/api/src/modules/accounting/posting-engine.service.ts).
module LedgerCases {
  import opened Prelude
  import opened Fingerprints
  import opened Ledger
  import opened LedgerSound

  const TODAY := 5

  // A configured company with two accounts and one open period.
  function NewBooks(): Books {
    Books(Config(Some("EUR"), Some("UTC")), {"cash", "sales"}, [Period(1, 31, false, 1)], [], 0)
  }

  function SaleLines(): seq<Line> {
    [Line("cash", Debit, 8), Line("sales", Credit, 8)]
  }

  function Sale(id: string): PostRequest {
    PostRequest(Source("sale", id), SaleLines(), None, None, Omitted)
  }

  lemma SaleBalances()
    ensures Balanced(SaleLines())
  {
    var lines := SaleLines();
    assert lines[..1] == [lines[0]] && lines[..1][..0] == [];
    assert SideTotal(lines[..1], Debit) == 8 && SideTotal(lines[..1], Credit) == 0;
  }

  // A sale under an unused id is posted, whatever the journal holds.
  lemma SalePosts(b: Books, id: string)
    requires BooksSound(b) && b == NewBooks().(journal := b.journal, nextId := b.nextId)
    requires SourceUnused(b, Source("sale", id))
    ensures Post(b, TODAY, Sale(id)).New?
    ensures var e := Post(b, TODAY, Sale(id)).entry;
            && BooksSound(After(b, e)) && e.source == Source("sale", id) && e.lines == StoreAll(SaleLines())
            && e.id == b.nextId && e.reversalOf.None?
  {
    SaleBalances();
    assert OpenFor(b, 0, TODAY);
    PostSucceedsExactly(b, TODAY, Sale(id), 0);
    PostKeepsBooks(b, TODAY, Sale(id));
  }

  // A sale is posted, its period is closed, and the very same request comes again.
  lemma ClosedRetryRefused()
    ensures Post(NewBooks(), TODAY, Sale("1")).New?
    ensures var posted := After(NewBooks(), Post(NewBooks(), TODAY, Sale("1")).entry);
            && DecideClose(posted.periods, 0, 1) == Close
            && Post(posted.(periods := [Closed(posted.periods[0])]), TODAY, Sale("1")) == Refused(PeriodClosed)
  {
    SalePosts(NewBooks(), "1");
    var e := Post(NewBooks(), TODAY, Sale("1")).entry;
    var posted := After(NewBooks(), e);
    CloseKeepsBooks(posted, 0, 1);
    var later := posted.(periods := [Closed(posted.periods[0])]);
    assert later == posted.(periods := posted.periods[0 := Closed(posted.periods[0])]);
    assert later.periods[0].Covers(TODAY) && later.periods[0].closed;
    SaleBalances();
    RepostExactly(later, TODAY, Sale("1"), e);
  }

  // An entry no reversal points at is reversed under an unused source.
  lemma SaleReverses(b: Books, sale: Entry, source: Source)
    requires BooksSound(b) && b == NewBooks().(journal := b.journal, nextId := b.nextId)
    requires sale in b.journal && SourceUnused(b, source)
    requires forall e :: e in b.journal ==> e.reversalOf != Some(sale.id)
    ensures Reverse(b, TODAY, sale.id, source).New?
    ensures BooksSound(After(b, Reverse(b, TODAY, sale.id, source).entry))
  {
    assert OpenFor(b, 0, TODAY);
    ReverseSucceedsExactly(b, TODAY, sale.id, source, 0);
    ReverseKeepsBooks(b, TODAY, sale.id, source);
  }

  lemma InverseRecovered(lines: seq<StoredLine>)
    requires forall i :: 0 <= i < |lines| ==> OneSided(lines[i])
    ensures RecoverAll(StoreAll(Inverse(lines))) == Inverse(lines)
  {
    var inverse := Inverse(lines);
    InversePositive(lines);
    forall i | 0 <= i < |inverse| ensures OneSided(Store(inverse[i])) { OneSidedExactly(inverse[i]); }
    RecoverStored(inverse);
  }

  // What a new reversal carries.
  lemma ReversalCarries(b: Books, sale: Entry, source: Source)
    requires BooksSound(b) && b.config == NewBooks().config && sale in b.journal
    requires Reverse(b, TODAY, sale.id, source).New?
    ensures IsReversal(Reverse(b, TODAY, sale.id, source).entry, sale, source)
  {
    FoundId(b.journal, sale);
    assert EntrySound(b, sale);
    InverseRecovered(sale.lines);
  }

  ghost predicate IsReversal(r: Entry, sale: Entry, source: Source) {
    && r.source == source && r.reversalOf == Some(sale.id) && r.currencyCode == "EUR"
    && r.fingerprint.branchId.None? && r.fingerprint.posTerminalId.None? && r.fingerprint.accountingDate.None?
    && RecoverAll(r.lines) == Inverse(sale.lines)
  }

  // Two equal sales, neither of them reversed.
  lemma TwoSales() returns (b: Books, first: Entry, second: Entry)
    ensures BooksSound(b) && b == NewBooks().(journal := [first, second], nextId := b.nextId)
    ensures first.id != second.id && first.lines == second.lines
    ensures first.reversalOf.None? && second.reversalOf.None?
    ensures SourceUnused(b, Source("void", "1"))
  {
    b := NewBooks();
    SalePosts(b, "1");
    first := Post(b, TODAY, Sale("1")).entry;
    b := After(b, first);
    SalePosts(b, "2");
    second := Post(b, TODAY, Sale("2")).entry;
    b := After(b, second);
  }

  // The first sale is reversed under a source, and the second is then reversed under the same
  // source. The answer is the first one's reversal, and the second stays unreversed.
  lemma ReversalMistaken() returns (b: Books, first: Entry, second: Entry, reversal: Entry)
    ensures BooksSound(b) && first in b.journal && second in b.journal && reversal in b.journal
    ensures first.id != second.id && reversal.reversalOf == Some(first.id)
    ensures Reverse(b, TODAY, second.id, reversal.source) == Existing(reversal.id)
    ensures forall e :: e in b.journal ==> e.reversalOf != Some(second.id)
  {
    b, first, second := TwoSales();
    SaleReverses(b, first, Source("void", "1"));
    ReversalCarries(b, first, Source("void", "1"));
    reversal := Reverse(b, TODAY, first.id, Source("void", "1")).entry;
    b := After(b, reversal);
    EqualSaleAnswered(b, first, second, reversal);
  }

  lemma EqualSaleAnswered(b: Books, first: Entry, second: Entry, reversal: Entry)
    requires BooksSound(b) && b == NewBooks().(journal := b.journal, nextId := b.nextId)
    requires second in b.journal && reversal in b.journal && first.lines == second.lines
    requires IsReversal(reversal, first, reversal.source)
    ensures Reverse(b, TODAY, second.id, reversal.source) == Existing(reversal.id)
  {
    assert OpenFor(b, 0, TODAY);
    RereverseExactly(b, TODAY, reversal.source, second, reversal);
  }
}
