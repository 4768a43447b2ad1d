// The posting fingerprint (apps/api/src/modules/accounting/posting-fingerprint.ts). The
// SHA-256 of the canonical JSON is taken to be injective, so the fingerprint is the
// canonical content itself.
module Fingerprints {
  import opened Prelude
  import opened TextOrder

  datatype Direction = Debit | Credit

  datatype Line = Line(accountKey: string, direction: Direction, amountMinor: int)

  datatype Source = Source(kind: string, id: string)

  datatype Fingerprint = Fingerprint(
    source: Source,
    currencyCode: string,
    lines: seq<Line>,
    branchId: Option<string>,
    posTerminalId: Option<string>,
    accountingDate: Option<int>)

  datatype Key = Key(account: string, direction: Direction)

  function KeyOf(l: Line): Key {
    Key(l.accountKey, l.direction)
  }

  // "credit" sorts before "debit".
  predicate KeyLess(a: Key, b: Key) {
    TextLess(a.account, b.account) || (a.account == b.account && a.direction == Credit && b.direction == Debit)
  }

  // The sort is stable: a line goes in front of later lines with its own key.
  function Insert(x: Line, s: seq<Line>): seq<Line> {
    if s == [] || !KeyLess(KeyOf(s[0]), KeyOf(x)) then [x] + s else [s[0]] + Insert(x, s[1..])
  }

  function SortLines(s: seq<Line>): seq<Line> {
    if s == [] then [] else Insert(s[0], SortLines(s[1..]))
  }

  function ComputeFingerprint(source: Source, currency: string, lines: seq<Line>, branchId: Option<string>,
                              posTerminalId: Option<string>, accountingDate: Option<int>): Fingerprint
  {
    Fingerprint(source, currency, SortLines(lines), branchId, posTerminalId, accountingDate)
  }

  // The amounts posted to one account and side, in the order given.
  function Amounts(s: seq<Line>, k: Key): seq<int> {
    if s == [] then []
    else (if KeyOf(s[0]) == k then [s[0].amountMinor] else []) + Amounts(s[1..], k)
  }

  ghost predicate SameAmounts(a: seq<Line>, b: seq<Line>) {
    forall k :: Amounts(a, k) == Amounts(b, k)
  }

  ghost predicate SortedByKey(s: seq<Line>) {
    forall i, j :: 0 <= i < j < |s| ==> !KeyLess(KeyOf(s[j]), KeyOf(s[i]))
  }

  lemma KeyTotal(a: Key, b: Key)
    ensures a == b || KeyLess(a, b) || KeyLess(b, a)
    ensures !(KeyLess(a, b) && KeyLess(b, a)) && !KeyLess(a, a)
  {
    TextTotal(a.account, b.account);
    TextTotal(a.account, a.account);
  }

  lemma KeyTransitive(a: Key, b: Key, c: Key)
    requires !KeyLess(b, a) && !KeyLess(c, b)
    ensures !KeyLess(c, a)
  {
    KeyTotal(a, b);
    KeyTotal(b, c);
    KeyTotal(a, c);
    if KeyLess(a, b) && KeyLess(b, c) && a.account != b.account && b.account != c.account {
      TextTransitive(a.account, b.account, c.account);
    }
  }

  lemma AmountsCons(x: Line, s: seq<Line>, k: Key)
    ensures Amounts([x] + s, k) == (if KeyOf(x) == k then [x.amountMinor] else []) + Amounts(s, k)
  {
    assert ([x] + s)[1..] == s;
  }

  lemma {:induction false} InsertMembers(x: Line, s: seq<Line>)
    ensures |Insert(x, s)| == |s| + 1
    ensures forall y :: y in Insert(x, s) <==> y == x || y in s
  {
    if s != [] && KeyLess(KeyOf(s[0]), KeyOf(x)) {
      InsertMembers(x, s[1..]);
      assert s == [s[0]] + s[1..];
    }
  }

  lemma {:induction false} InsertSorted(x: Line, s: seq<Line>)
    requires SortedByKey(s)
    ensures SortedByKey(Insert(x, s))
  {
    KeyTotal(KeyOf(x), KeyOf(x));
    if s == [] || !KeyLess(KeyOf(s[0]), KeyOf(x)) {
      forall j | 0 <= j < |s| ensures !KeyLess(KeyOf(s[j]), KeyOf(x)) {
        if j > 0 { KeyTransitive(KeyOf(x), KeyOf(s[0]), KeyOf(s[j])); }
      }
    } else {
      InsertSorted(x, s[1..]);
      InsertMembers(x, s[1..]);
      var t := Insert(x, s[1..]);
      KeyTotal(KeyOf(x), KeyOf(s[0]));
      forall j | 0 <= j < |t| ensures !KeyLess(KeyOf(t[j]), KeyOf(s[0])) {
        assert t[j] == x || t[j] in s[1..];
      }
    }
  }

  lemma {:induction false} InsertAmounts(x: Line, s: seq<Line>, k: Key)
    ensures Amounts(Insert(x, s), k) == Amounts([x] + s, k)
  {
    if s != [] && KeyLess(KeyOf(s[0]), KeyOf(x)) {
      InsertAmounts(x, s[1..], k);
      AmountsCons(s[0], Insert(x, s[1..]), k);
      AmountsCons(x, s, k);
      AmountsCons(x, s[1..], k);
      KeyTotal(KeyOf(x), KeyOf(x));
      assert KeyOf(s[0]) != KeyOf(x);
    }
  }

  // Sorting keeps each account and side's amounts in their order.
  lemma {:induction false} SortKeeps(s: seq<Line>)
    ensures SortedByKey(SortLines(s)) && |SortLines(s)| == |s|
    ensures forall k :: Amounts(SortLines(s), k) == Amounts(s, k)
  {
    if s != [] {
      SortKeeps(s[1..]);
      InsertMembers(s[0], SortLines(s[1..]));
      InsertSorted(s[0], SortLines(s[1..]));
      forall k ensures Amounts(SortLines(s), k) == Amounts(s, k) {
        InsertAmounts(s[0], SortLines(s[1..]), k);
        assert ([s[0]] + SortLines(s[1..]))[1..] == SortLines(s[1..]);
      }
    }
  }

  // The canonical lines run by account, credits before debits, with nothing added or lost.
  lemma CanonicalOrder(source: Source, currency: string, lines: seq<Line>, branchId: Option<string>,
                       posTerminalId: Option<string>, accountingDate: Option<int>, i: nat, j: nat)
    requires i < j < |lines|
    ensures var f := ComputeFingerprint(source, currency, lines, branchId, posTerminalId, accountingDate);
            && |f.lines| == |lines| && SameAmounts(f.lines, lines)
            && !TextLess(f.lines[j].accountKey, f.lines[i].accountKey)
            && (f.lines[i].accountKey == f.lines[j].accountKey && f.lines[j].direction == Credit ==>
                  f.lines[i].direction == Credit)
  {
    SortKeeps(lines);
    var sorted := SortLines(lines);
    assert !KeyLess(KeyOf(sorted[j]), KeyOf(sorted[i]));
  }

  lemma AmountsUncons(s: seq<Line>, k: Key)
    requires s != []
    ensures KeyOf(s[0]) == k ==>
              Amounts(s, k) != [] && Amounts(s, k)[0] == s[0].amountMinor && Amounts(s, k)[1..] == Amounts(s[1..], k)
    ensures KeyOf(s[0]) != k ==> Amounts(s, k) == Amounts(s[1..], k)
  {
  }

  // A sorted list is told by the amounts of each key.
  lemma {:induction false} SortedDetermined(a: seq<Line>, b: seq<Line>)
    requires SortedByKey(a) && SortedByKey(b) && SameAmounts(a, b)
    ensures a == b
  {
    if a == [] || b == [] {
      if a != [] { AmountsUncons(a, KeyOf(a[0])); }
      if b != [] { AmountsUncons(b, KeyOf(b[0])); }
    } else {
      var ka, kb := KeyOf(a[0]), KeyOf(b[0]);
      HeadIsLeast(a, b);
      HeadIsLeast(b, a);
      KeyTotal(ka, kb);
      AmountsUncons(a, ka);
      AmountsUncons(b, ka);
      assert a[0] == b[0];
      forall k ensures Amounts(a[1..], k) == Amounts(b[1..], k) {
        AmountsUncons(a, k);
        AmountsUncons(b, k);
      }
      SortedDetermined(a[1..], b[1..]);
      assert a == [a[0]] + a[1..] && b == [b[0]] + b[1..];
    }
  }

  lemma HeadIsLeast(a: seq<Line>, b: seq<Line>)
    requires a != [] && b != [] && SortedByKey(b) && SameAmounts(a, b)
    ensures !KeyLess(KeyOf(a[0]), KeyOf(b[0]))
  {
    assert Amounts(b, KeyOf(a[0])) == Amounts(a, KeyOf(a[0]));
    SomeLine(b, KeyOf(a[0]));
    KeyTotal(KeyOf(b[0]), KeyOf(b[0]));
  }

  lemma {:induction false} SomeLine(s: seq<Line>, k: Key)
    requires Amounts(s, k) != []
    ensures exists i :: 0 <= i < |s| && KeyOf(s[i]) == k
  {
    if KeyOf(s[0]) != k {
      SomeLine(s[1..], k);
      var i :| 0 <= i < |s[1..]| && KeyOf(s[1..][i]) == k;
      assert s[i + 1] == s[1..][i];
    }
  }

  // Two postings have the same fingerprint exactly when everything but the lines agrees
  // and, account by account and side by side, the same amounts come in the same order.
  lemma FingerprintEqual(source: Source, a: seq<Line>, b: seq<Line>, ca: string, cb: string,
                         ba: Option<string>, bb: Option<string>, ta: Option<string>, tb: Option<string>,
                         da: Option<int>, db: Option<int>)
    ensures ComputeFingerprint(source, ca, a, ba, ta, da) == ComputeFingerprint(source, cb, b, bb, tb, db) <==>
            ca == cb && ba == bb && ta == tb && da == db && SameAmounts(a, b)
  {
    SortKeeps(a);
    SortKeeps(b);
    if SameAmounts(a, b) {
      SortedDetermined(SortLines(a), SortLines(b));
    }
    if SortLines(a) == SortLines(b) {
      forall k ensures Amounts(a, k) == Amounts(b, k) {
        assert Amounts(SortLines(a), k) == Amounts(SortLines(b), k);
      }
    }
  }

  // Line order never matters when no account and side occurs twice.
  lemma OrderIrrelevantIfDistinct(a: seq<Line>, b: seq<Line>)
    requires multiset(a) == multiset(b)
    requires forall i, j :: 0 <= i < j < |a| ==> KeyOf(a[i]) != KeyOf(a[j])
    ensures SortLines(a) == SortLines(b)
  {
    forall k ensures Amounts(a, k) == Amounts(b, k) {
      AmountsOfDistinct(a, b, k);
    }
    SortKeeps(a);
    SortKeeps(b);
    SortedDetermined(SortLines(a), SortLines(b));
  }

  function WithKey(s: seq<Line>, k: Key): seq<Line> {
    if s == [] then [] else (if KeyOf(s[0]) == k then [s[0]] else []) + WithKey(s[1..], k)
  }

  lemma {:induction false} WithKeyCounts(s: seq<Line>, k: Key)
    ensures forall x :: multiset(WithKey(s, k))[x] == if KeyOf(x) == k then multiset(s)[x] else 0
    ensures |WithKey(s, k)| == |Amounts(s, k)|
    ensures forall i :: 0 <= i < |WithKey(s, k)| ==> Amounts(s, k)[i] == WithKey(s, k)[i].amountMinor
  {
    if s != [] {
      WithKeyCounts(s[1..], k);
      assert s == [s[0]] + s[1..];
    }
  }

  lemma {:induction false} AtMostOne(s: seq<Line>, k: Key)
    requires forall i, j :: 0 <= i < j < |s| ==> KeyOf(s[i]) != KeyOf(s[j])
    ensures |WithKey(s, k)| <= 1
  {
    if s != [] {
      AtMostOne(s[1..], k);
      if KeyOf(s[0]) == k { NoneWithKey(s[1..], k); }
    }
  }

  lemma {:induction false} NoneWithKey(s: seq<Line>, k: Key)
    requires forall i :: 0 <= i < |s| ==> KeyOf(s[i]) != k
    ensures WithKey(s, k) == []
  {
    if s != [] { NoneWithKey(s[1..], k); }
  }

  lemma AmountsOfDistinct(a: seq<Line>, b: seq<Line>, k: Key)
    requires multiset(a) == multiset(b)
    requires forall i, j :: 0 <= i < j < |a| ==> KeyOf(a[i]) != KeyOf(a[j])
    ensures Amounts(a, k) == Amounts(b, k)
  {
    WithKeyCounts(a, k);
    WithKeyCounts(b, k);
    AtMostOne(a, k);
    SingletonEqual(WithKey(a, k), WithKey(b, k));
  }

  lemma SingletonEqual(p: seq<Line>, q: seq<Line>)
    requires |p| <= 1 && forall x :: multiset(p)[x] == multiset(q)[x]
    ensures p == q
  {
    assert multiset(p) == multiset(q);
    assert |p| == |multiset(p)| == |multiset(q)| == |q|;
    if p != [] {
      assert p[0] in multiset(q);
    }
  }

  // The same lines in another order can have another fingerprint: two debits to one
  // account, swapped.
  lemma OrderCanMatter()
    ensures var a := [Line("cash", Debit, 5), Line("cash", Debit, 3), Line("sales", Credit, 8)];
            var b := [Line("cash", Debit, 3), Line("cash", Debit, 5), Line("sales", Credit, 8)];
            multiset(a) == multiset(b) && SortLines(a) != SortLines(b)
  {
    var a := [Line("cash", Debit, 5), Line("cash", Debit, 3), Line("sales", Credit, 8)];
    var b := [Line("cash", Debit, 3), Line("cash", Debit, 5), Line("sales", Credit, 8)];
    SortKeeps(a);
    SortKeeps(b);
    var k := Key("cash", Debit);
    assert Amounts(a, k)[0] == 5;
    assert Amounts(b, k)[0] == 3;
  }
}
