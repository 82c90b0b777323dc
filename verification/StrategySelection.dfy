/** Which legs the builders of `strategy_structures.py` combine: pairs in a window of four for the verticals, legs around the spot
    for the others. */
module StrategySelection {
  import opened Options
  import opened Payoff
  import opened StrategyBuilders
  import opened StrategyBounds

  // ----- Stable sort by strike -----

  predicate StrikeOrder(a: Quote, b: Quote, descending: bool) {
    if descending then a.strike >= b.strike else a.strike <= b.strike
  }

  ghost predicate IsSorted(xs: seq<Quote>, descending: bool) {
    forall i, j :: 0 <= i < j < |xs| ==> StrikeOrder(xs[i], xs[j], descending)
  }

  function Insert(x: Quote, xs: seq<Quote>, descending: bool): (r: seq<Quote>)
    ensures multiset(r) == multiset(xs) + multiset{x}
  {
    if xs == [] || StrikeOrder(x, xs[0], descending) then [x] + xs
    else
      assert xs == [xs[0]] + xs[1..];
      [xs[0]] + Insert(x, xs[1..], descending)
  }

  lemma {:induction false} InsertSorted(x: Quote, xs: seq<Quote>, descending: bool)
    requires IsSorted(xs, descending)
    ensures IsSorted(Insert(x, xs, descending), descending)
  {
    if xs != [] && !StrikeOrder(x, xs[0], descending) {
      var rest := Insert(x, xs[1..], descending);
      InsertSorted(x, xs[1..], descending);
      forall k | 0 <= k < |rest|
        ensures StrikeOrder(xs[0], rest[k], descending)
      {
        assert rest[k] in multiset(rest);
      }
    }
  }

  /** Python's `sorted` by strike, which keeps equal strikes in their order. */
  function SortByStrike(xs: seq<Quote>, descending: bool): (r: seq<Quote>)
    ensures multiset(r) == multiset(xs)
  {
    if xs == [] then []
    else
      assert xs == [xs[0]] + xs[1..];
      Insert(xs[0], SortByStrike(xs[1..], descending), descending)
  }

  lemma {:induction false} SortSorts(xs: seq<Quote>, descending: bool)
    ensures IsSorted(SortByStrike(xs, descending), descending)
  {
    if xs != [] {
      SortSorts(xs[1..], descending);
      InsertSorted(xs[0], SortByStrike(xs[1..], descending), descending);
    }
  }

  /** The quotes struck at `strike`, in their order. */
  function StruckAt(xs: seq<Quote>, strike: real): seq<Quote> {
    if xs == [] then [] else (if xs[0].strike == strike then [xs[0]] else []) + StruckAt(xs[1..], strike)
  }

  lemma StruckAtCons(x: Quote, xs: seq<Quote>, strike: real)
    ensures StruckAt([x] + xs, strike) == (if x.strike == strike then [x] else []) + StruckAt(xs, strike)
  {
    assert ([x] + xs)[1..] == xs;
  }

  lemma {:induction false} InsertIsStable(x: Quote, xs: seq<Quote>, descending: bool, strike: real)
    ensures StruckAt(Insert(x, xs, descending), strike) == (if x.strike == strike then [x] else []) + StruckAt(xs, strike)
  {
    if xs == [] || StrikeOrder(x, xs[0], descending) {
      StruckAtCons(x, xs, strike);
    } else {
      InsertIsStable(x, xs[1..], descending, strike);
      StruckAtCons(xs[0], Insert(x, xs[1..], descending), strike);
    }
  }

  /** Quotes of one strike keep the order they came in. */
  lemma {:induction false} SortIsStable(xs: seq<Quote>, descending: bool, strike: real)
    ensures StruckAt(SortByStrike(xs, descending), strike) == StruckAt(xs, strike)
  {
    if xs != [] {
      SortIsStable(xs[1..], descending, strike);
      InsertIsStable(xs[0], SortByStrike(xs[1..], descending), descending, strike);
    }
  }

  lemma SameQuotes(xs: seq<Quote>, ys: seq<Quote>)
    requires multiset(xs) == multiset(ys)
    ensures |xs| == |ys| && forall q :: q in xs <==> q in ys
  {
    assert |multiset(xs)| == |multiset(ys)|;
    forall q
      ensures q in xs <==> q in ys
    {
      assert q in xs <==> q in multiset(xs);
    }
  }

  // ----- Pairs in a window of four -----

  /** The up to four legs after, and before, position `i`. */
  function Ahead(xs: seq<Quote>, i: nat): seq<Quote>
    requires i < |xs|
  {
    xs[i + 1..if i + 5 <= |xs| then i + 5 else |xs|]
  }

  function Behind(xs: seq<Quote>, i: nat): seq<Quote>
    requires i < |xs|
  {
    xs[if i >= 4 then i - 4 else 0..i]
  }

  function Emit(row: Option<Structure>): seq<Structure> {
    if row.Some? then [row.value] else []
  }

  function InnerRows(row: (Quote, Quote) -> Option<Structure>, outer: Quote, inner: seq<Quote>): seq<Structure> {
    if inner == [] then [] else InnerRows(row, outer, inner[..|inner| - 1]) + Emit(row(outer, inner[|inner| - 1]))
  }

  /** The windows of all positions. */
  function AllAhead(xs: seq<Quote>): (w: seq<seq<Quote>>)
    ensures |w| == |xs|
  {
    seq(|xs|, i requires 0 <= i < |xs| => Ahead(xs, i))
  }

  function AllBehind(xs: seq<Quote>): (w: seq<seq<Quote>>)
    ensures |w| == |xs|
  {
    seq(|xs|, i requires 0 <= i < |xs| => Behind(xs, i))
  }

  /** The rows of the first `n` outer legs, in the order the nested loops append them. */
  function Rows(row: (Quote, Quote) -> Option<Structure>, xs: seq<Quote>, windows: seq<seq<Quote>>, n: nat): seq<Structure>
    requires n <= |xs| == |windows|
  {
    if n == 0 then [] else Rows(row, xs, windows, n - 1) + InnerRows(row, xs[n - 1], windows[n - 1])
  }

  ghost predicate Pairs(row: (Quote, Quote) -> Option<Structure>, outer: Quote, inner: seq<Quote>, s: Structure) {
    exists q <- inner :: row(outer, q) == Some(s)
  }

  lemma {:induction false} InnerRowsOrigin(row: (Quote, Quote) -> Option<Structure>, outer: Quote, inner: seq<Quote>, s: Structure)
    ensures s in InnerRows(row, outer, inner) <==> Pairs(row, outer, inner, s)
  {
    if inner != [] {
      var front, last := inner[..|inner| - 1], inner[|inner| - 1];
      InnerRowsOrigin(row, outer, front, s);
      assert inner == front + [last];
    }
  }

  /** Every row comes from a leg and one in its window, and every such pair that qualifies gives its row. */
  lemma {:induction false} RowsOrigin(row: (Quote, Quote) -> Option<Structure>, xs: seq<Quote>, windows: seq<seq<Quote>>, n: nat, s: Structure)
    requires n <= |xs| == |windows|
    ensures s in Rows(row, xs, windows, n) <==> exists i | 0 <= i < n :: Pairs(row, xs[i], windows[i], s)
  {
    if n > 0 {
      RowsOrigin(row, xs, windows, n - 1, s);
      InnerRowsOrigin(row, xs[n - 1], windows[n - 1], s);
    }
  }

  // ----- The pairs in figures -----

  /** The second of two legs in a strike order that suits the side: a debit spread buys the call with the lower strike or the put with
      the higher one, and pays less than the strikes lie apart. */
  ghost predicate BoughtAgainst(longLeg: Quote, shortLeg: Quote, s: Structure) {
    var debit := if longLeg.ask - shortLeg.bid > 0.05 then longLeg.ask - shortLeg.bid else 0.05;
    var width := if longLeg.side == Call then shortLeg.strike - longLeg.strike else longLeg.strike - shortLeg.strike;
    debit < width &&
    s == Structure(
      [Leg(longLeg.side, Buy, 1, longLeg.strike, longLeg.ask, longLeg.bid, longLeg.ask),
       Leg(shortLeg.side, Sell, 1, shortLeg.strike, shortLeg.bid, shortLeg.bid, shortLeg.ask)],
      debit, 0.0, debit * 100.0, Some((width - debit) * 100.0),
      [if longLeg.side == Call then longLeg.strike + debit else longLeg.strike - debit], width)
  }

  /** A credit spread sells the call with the lower strike or the put with the higher one, whatever it brings. */
  ghost predicate SoldAgainst(sellLeg: Quote, buyLeg: Quote, s: Structure) {
    var credit := if sellLeg.bid - buyLeg.ask > 0.05 then sellLeg.bid - buyLeg.ask else 0.05;
    var width := if sellLeg.side == Call then buyLeg.strike - sellLeg.strike else sellLeg.strike - buyLeg.strike;
    0.0 < width &&
    s == Structure(
      [Leg(sellLeg.side, Sell, 1, sellLeg.strike, sellLeg.bid, sellLeg.bid, sellLeg.ask),
       Leg(buyLeg.side, Buy, 1, buyLeg.strike, buyLeg.ask, buyLeg.bid, buyLeg.ask)],
      0.0, credit, if credit < width then (width - credit) * 100.0 else 0.0, Some(credit * 100.0),
      [if sellLeg.side == Call then sellLeg.strike + credit else sellLeg.strike - credit], width)
  }

  lemma DebitRowIff(longLeg: Quote, shortLeg: Quote, s: Structure)
    ensures DebitRow(longLeg, shortLeg) == Some(s) <==> BoughtAgainst(longLeg, shortLeg, s)
  {
  }

  lemma CreditRowIff(sellLeg: Quote, buyLeg: Quote, s: Structure)
    ensures CreditRow(sellLeg, buyLeg) == Some(s) <==> SoldAgainst(sellLeg, buyLeg, s)
  {
  }

  /** Position `j` is one to four places after `i`. */
  predicate After(n: nat, i: int, j: int) {
    0 <= i < j < n && j <= i + 4
  }

  lemma AheadPairs(row: (Quote, Quote) -> Option<Structure>, xs: seq<Quote>, i: nat, s: Structure)
    requires i < |xs|
    ensures Pairs(row, xs[i], Ahead(xs, i), s) <==> exists j :: After(|xs|, i, j) && row(xs[i], xs[j]) == Some(s)
  {
    var w := Ahead(xs, i);
    if j: int :| After(|xs|, i, j) && row(xs[i], xs[j]) == Some(s) {
      assert w[j - i - 1] == xs[j];
    }
    if Pairs(row, xs[i], w, s) {
      var q :| q in w && row(xs[i], q) == Some(s);
      var k :| 0 <= k < |w| && w[k] == q;
      assert After(|xs|, i, i + 1 + k) && w[k] == xs[i + 1 + k];
    }
  }

  lemma AllAheadOrigin(row: (Quote, Quote) -> Option<Structure>, xs: seq<Quote>, s: Structure)
    ensures s in Rows(row, xs, AllAhead(xs), |xs|) <==> exists i, j :: After(|xs|, i, j) && row(xs[i], xs[j]) == Some(s)
  {
    RowsOrigin(row, xs, AllAhead(xs), |xs|, s);
    forall i | 0 <= i < |xs|
      ensures Pairs(row, xs[i], AllAhead(xs)[i], s) <==> exists j :: After(|xs|, i, j) && row(xs[i], xs[j]) == Some(s)
    {
      AheadPairs(row, xs, i, s);
    }
  }

  lemma BehindPairs(row: (Quote, Quote) -> Option<Structure>, xs: seq<Quote>, i: nat, s: Structure)
    requires i < |xs|
    ensures Pairs(row, xs[i], Behind(xs, i), s) <==> exists j :: After(|xs|, j, i) && row(xs[i], xs[j]) == Some(s)
  {
    var w, first := Behind(xs, i), if i >= 4 then i - 4 else 0;
    if j: int :| After(|xs|, j, i) && row(xs[i], xs[j]) == Some(s) {
      assert w[j - first] == xs[j];
    }
    if Pairs(row, xs[i], w, s) {
      var q :| q in w && row(xs[i], q) == Some(s);
      var k :| 0 <= k < |w| && w[k] == q;
      assert After(|xs|, first + k, i) && w[k] == xs[first + k];
    }
  }

  lemma AllBehindOrigin(row: (Quote, Quote) -> Option<Structure>, xs: seq<Quote>, s: Structure)
    ensures s in Rows(row, xs, AllBehind(xs), |xs|) <==> exists i, j :: After(|xs|, j, i) && row(xs[i], xs[j]) == Some(s)
  {
    RowsOrigin(row, xs, AllBehind(xs), |xs|, s);
    forall i | 0 <= i < |xs|
      ensures Pairs(row, xs[i], AllBehind(xs)[i], s) <==> exists j :: After(|xs|, j, i) && row(xs[i], xs[j]) == Some(s)
    {
      BehindPairs(row, xs, i, s);
    }
  }

  /** Exactly the debit spreads of legs one to four places apart, the one bought standing first. */
  ghost predicate DebitsAhead(rows: seq<Structure>, xs: seq<Quote>) {
    forall s :: s in rows <==> exists i, j :: After(|xs|, i, j) && BoughtAgainst(xs[i], xs[j], s)
  }

  /** Exactly the credit spreads of legs one to four places apart, the one sold standing first, or last. */
  ghost predicate CreditsAhead(rows: seq<Structure>, xs: seq<Quote>) {
    forall s :: s in rows <==> exists i, j :: After(|xs|, i, j) && SoldAgainst(xs[i], xs[j], s)
  }

  ghost predicate CreditsBehind(rows: seq<Structure>, xs: seq<Quote>) {
    forall s :: s in rows <==> exists i, j :: After(|xs|, j, i) && SoldAgainst(xs[i], xs[j], s)
  }

  lemma DebitsAreAhead(xs: seq<Quote>)
    ensures DebitsAhead(Rows(DebitRow, xs, AllAhead(xs), |xs|), xs)
  {
    forall s
      ensures s in Rows(DebitRow, xs, AllAhead(xs), |xs|) <==> exists i, j :: After(|xs|, i, j) && BoughtAgainst(xs[i], xs[j], s)
    {
      AllAheadOrigin(DebitRow, xs, s);
      forall i, j | After(|xs|, i, j)
        ensures DebitRow(xs[i], xs[j]) == Some(s) <==> BoughtAgainst(xs[i], xs[j], s)
      {
        DebitRowIff(xs[i], xs[j], s);
      }
    }
  }

  lemma CreditsAreAhead(xs: seq<Quote>)
    ensures CreditsAhead(Rows(CreditRow, xs, AllAhead(xs), |xs|), xs)
  {
    forall s
      ensures s in Rows(CreditRow, xs, AllAhead(xs), |xs|) <==> exists i, j :: After(|xs|, i, j) && SoldAgainst(xs[i], xs[j], s)
    {
      AllAheadOrigin(CreditRow, xs, s);
      forall i, j | After(|xs|, i, j)
        ensures CreditRow(xs[i], xs[j]) == Some(s) <==> SoldAgainst(xs[i], xs[j], s)
      {
        CreditRowIff(xs[i], xs[j], s);
      }
    }
  }

  lemma CreditsAreBehind(xs: seq<Quote>)
    ensures CreditsBehind(Rows(CreditRow, xs, AllBehind(xs), |xs|), xs)
  {
    forall s
      ensures s in Rows(CreditRow, xs, AllBehind(xs), |xs|) <==> exists i, j :: After(|xs|, j, i) && SoldAgainst(xs[i], xs[j], s)
    {
      AllBehindOrigin(CreditRow, xs, s);
      forall i, j | After(|xs|, j, i)
        ensures CreditRow(xs[i], xs[j]) == Some(s) <==> SoldAgainst(xs[i], xs[j], s)
      {
        CreditRowIff(xs[i], xs[j], s);
      }
    }
  }

  /** Positions of an outer leg and of one in its window. */
  datatype Place = Place(outer: nat, inner: nat)

  predicate Earlier(a: Place, b: Place) {
    a.outer < b.outer || (a.outer == b.outer && a.inner < b.inner)
  }

  ghost predicate InOrder(at: seq<Place>) {
    forall k, l :: 0 <= k < l < |at| ==> Earlier(at[k], at[l])
  }

  /** The pair at a place qualifies, with this row. */
  predicate GivesRow(row: (Quote, Quote) -> Option<Structure>, xs: seq<Quote>, windows: seq<seq<Quote>>, a: Place, r: Option<Structure>)
    requires |xs| == |windows|
  {
    a.outer < |xs| && a.inner < |windows[a.outer]| && row(xs[a.outer], windows[a.outer][a.inner]) == r
  }

  /** `at` holds the places of the qualifying pairs, each once and in the order of the nested loops, and `rows` their rows. */
  ghost predicate ListsPairs(row: (Quote, Quote) -> Option<Structure>, xs: seq<Quote>, windows: seq<seq<Quote>>, n: nat, rows: seq<Structure>, at: seq<Place>)
    requires n <= |xs| == |windows|
  {
    |at| == |rows| && InOrder(at) &&
    (forall k :: 0 <= k < |at| ==> at[k].outer < n && GivesRow(row, xs, windows, at[k], Some(rows[k]))) &&
    forall a: Place, s :: a.outer < n && GivesRow(row, xs, windows, a, Some(s)) ==> a in at
  }

  lemma {:induction false} InnerRowsListed(row: (Quote, Quote) -> Option<Structure>, outer: Quote, inner: seq<Quote>) returns (at: seq<nat>)
    ensures ListsInner(row, outer, inner, at)
  {
    at := [];
    if inner != [] {
      var last := |inner| - 1;
      at := InnerRowsListed(row, outer, inner[..last]);
      if row(outer, inner[last]).Some? {
        at := at + [last];
      }
    }
  }

  function Placed(i: nat, inner: seq<nat>): (at: seq<Place>)
    ensures |at| == |inner| && forall k :: 0 <= k < |inner| ==> at[k] == Place(i, inner[k])
  {
    seq(|inner|, k requires 0 <= k < |inner| => Place(i, inner[k]))
  }

  /** The rows come in the order of their legs' positions, one for each pair. */
  lemma {:induction false} RowsInOrder(row: (Quote, Quote) -> Option<Structure>, xs: seq<Quote>, windows: seq<seq<Quote>>, n: nat) returns (at: seq<Place>)
    requires n <= |xs| == |windows|
    ensures ListsPairs(row, xs, windows, n, Rows(row, xs, windows, n), at)
  {
    at := [];
    if n > 0 {
      var before := RowsInOrder(row, xs, windows, n - 1);
      var inner := InnerRowsListed(row, xs[n - 1], windows[n - 1]);
      at := before + Placed(n - 1, inner);
      ListedMore(row, xs, windows, n - 1, before, inner);
    }
  }

  /** The places of the last outer leg's pairs, and their rows. */
  ghost predicate ListsInner(row: (Quote, Quote) -> Option<Structure>, outer: Quote, window: seq<Quote>, inner: seq<nat>) {
    |inner| == |InnerRows(row, outer, window)| && (forall k, l :: 0 <= k < l < |inner| ==> inner[k] < inner[l]) &&
    (forall k :: 0 <= k < |inner| ==> inner[k] < |window| && row(outer, window[inner[k]]) == Some(InnerRows(row, outer, window)[k])) &&
    forall j :: 0 <= j < |window| && row(outer, window[j]).Some? ==> j in inner
  }

  lemma ListedMore(row: (Quote, Quote) -> Option<Structure>, xs: seq<Quote>, windows: seq<seq<Quote>>, n: nat, before: seq<Place>, inner: seq<nat>)
    requires n < |xs| == |windows| && ListsPairs(row, xs, windows, n, Rows(row, xs, windows, n), before) && ListsInner(row, xs[n], windows[n], inner)
    ensures ListsPairs(row, xs, windows, n + 1, Rows(row, xs, windows, n + 1), before + Placed(n, inner))
  {
    var at, rows := before + Placed(n, inner), Rows(row, xs, windows, n + 1);
    assert rows == Rows(row, xs, windows, n) + InnerRows(row, xs[n], windows[n]);
    forall k | 0 <= k < |at|
      ensures at[k].outer < n + 1 && GivesRow(row, xs, windows, at[k], Some(rows[k]))
    {
    }
    forall a: Place, s | a.outer < n + 1 && GivesRow(row, xs, windows, a, Some(s))
      ensures a in at
    {
      if a.outer == n {
        assert a.inner in inner;
        var k :| 0 <= k < |inner| && inner[k] == a.inner;
        assert at[|before| + k] == a;
      }
    }
  }

  // ----- The four vertical builders -----

  predicate Quoted(xs: seq<Quote>, side: Side) {
    forall q <- xs :: q.side == side && q.strike >= 0.0
  }

  method PairWith(row: (Quote, Quote) -> Option<Structure>, outer: Quote, inner: seq<Quote>) returns (rows: seq<Structure>)
    ensures rows == InnerRows(row, outer, inner)
  {
    rows := [];
    for k := 0 to |inner|
      invariant rows == InnerRows(row, outer, inner[..k])
    {
      assert inner[..k + 1][..k] == inner[..k];
      var r := row(outer, inner[k]);
      if r.Some? {
        rows := rows + [r.value];
      }
    }
    assert inner[..|inner|] == inner;
  }

  method PairAll(row: (Quote, Quote) -> Option<Structure>, xs: seq<Quote>, windows: seq<seq<Quote>>) returns (rows: seq<Structure>)
    requires |windows| == |xs|
    ensures rows == Rows(row, xs, windows, |xs|)
  {
    rows := [];
    for i := 0 to |xs|
      invariant rows == Rows(row, xs, windows, i)
    {
      var found := PairWith(row, xs[i], windows[i]);
      rows := rows + found;
    }
  }

  /** The windows hold only legs of the list. */
  ghost predicate Within(xs: seq<Quote>, windows: seq<seq<Quote>>) {
    forall i, q | 0 <= i < |windows| && q in windows[i] :: q in xs
  }

  lemma RowParents(row: (Quote, Quote) -> Option<Structure>, xs: seq<Quote>, windows: seq<seq<Quote>>, s: Structure)
    returns (outer: Quote, inner: Quote)
    requires |windows| == |xs| && Within(xs, windows) && s in Rows(row, xs, windows, |xs|)
    ensures outer in xs && inner in xs && row(outer, inner) == Some(s)
  {
    RowsOrigin(row, xs, windows, |xs|, s);
    var i :| 0 <= i < |xs| && Pairs(row, xs[i], windows[i], s);
    outer := xs[i];
    inner :| inner in windows[i] && row(outer, inner) == Some(s);
  }

  lemma DebitRowsSound(xs: seq<Quote>, side: Side, windows: seq<seq<Quote>>)
    requires side != Stock && Quoted(xs, side) && |windows| == |xs| && Within(xs, windows)
    ensures forall s <- Rows(DebitRow, xs, windows, |xs|) :: LossSound(s)
  {
    forall s <- Rows(DebitRow, xs, windows, |xs|)
      ensures LossSound(s)
    {
      var longLeg, shortLeg := RowParents(DebitRow, xs, windows, s);
      DebitVerticalBounds(longLeg, shortLeg);
    }
  }

  lemma CreditRowsSound(xs: seq<Quote>, side: Side, windows: seq<seq<Quote>>)
    requires side != Stock && Quoted(xs, side) && |windows| == |xs| && Within(xs, windows)
    ensures forall s <- Rows(CreditRow, xs, windows, |xs|) :: ProfitSound(s)
  {
    forall s <- Rows(CreditRow, xs, windows, |xs|)
      ensures ProfitSound(s)
    {
      var sellLeg, buyLeg := RowParents(CreditRow, xs, windows, s);
      CreditVerticalBounds(sellLeg, buyLeg);
    }
  }

  lemma SortKeepsQuotes(xs: seq<Quote>, side: Side, descending: bool)
    requires Quoted(xs, side)
    ensures Quoted(SortByStrike(xs, descending), side) && |SortByStrike(xs, descending)| == |xs|
  {
    SameQuotes(xs, SortByStrike(xs, descending));
  }

  /** Calls in rank order, each bought against a later one. */
  method BullCallSpreads(calls: seq<Quote>) returns (rows: seq<Structure>)
    requires Quoted(calls, Call)
    ensures rows == Rows(DebitRow, calls, AllAhead(calls), |calls|) && DebitsAhead(rows, calls)
    ensures forall s <- rows :: LossSound(s)
  {
    rows := PairAll(DebitRow, calls, AllAhead(calls));
    DebitRowsSound(calls, Call, AllAhead(calls));
    DebitsAreAhead(calls);
  }

  /** Puts by falling strike, each bought against a later one. */
  method BearPutSpreads(puts: seq<Quote>) returns (rows: seq<Structure>)
    requires Quoted(puts, Put)
    ensures var ordered := SortByStrike(puts, true); rows == Rows(DebitRow, ordered, AllAhead(ordered), |ordered|) && DebitsAhead(rows, ordered)
    ensures forall s <- rows :: LossSound(s)
  {
    var ordered := SortByStrike(puts, true);
    rows := PairAll(DebitRow, ordered, AllAhead(ordered));
    SortKeepsQuotes(puts, Put, true);
    DebitRowsSound(ordered, Put, AllAhead(ordered));
    DebitsAreAhead(ordered);
  }

  /** Puts by rising strike, each sold against an earlier one. */
  method BullPutSpreads(puts: seq<Quote>) returns (rows: seq<Structure>)
    requires Quoted(puts, Put)
    ensures var ordered := SortByStrike(puts, false); rows == Rows(CreditRow, ordered, AllBehind(ordered), |ordered|) && CreditsBehind(rows, ordered)
    ensures forall s <- rows :: ProfitSound(s)
  {
    var ordered := SortByStrike(puts, false);
    rows := PairAll(CreditRow, ordered, AllBehind(ordered));
    SortKeepsQuotes(puts, Put, false);
    CreditRowsSound(ordered, Put, AllBehind(ordered));
    CreditsAreBehind(ordered);
  }

  /** Calls by rising strike, each sold against a later one. */
  method BearCallSpreads(calls: seq<Quote>) returns (rows: seq<Structure>)
    requires Quoted(calls, Call)
    ensures var ordered := SortByStrike(calls, false); rows == Rows(CreditRow, ordered, AllAhead(ordered), |ordered|) && CreditsAhead(rows, ordered)
    ensures forall s <- rows :: ProfitSound(s)
  {
    var ordered := SortByStrike(calls, false);
    rows := PairAll(CreditRow, ordered, AllAhead(ordered));
    SortKeepsQuotes(calls, Call, false);
    CreditRowsSound(ordered, Call, AllAhead(ordered));
    CreditsAreAhead(ordered);
  }

  // ----- The iron condor's sides -----

  datatype CreditPair = CreditPair(sell: Quote, buy: Quote, credit: real, width: real)

  function Width(sell: Quote, buy: Quote, side: Side): real {
    if side == Put then sell.strike - buy.strike else buy.strike - sell.strike
  }

  predicate IsCreditPair(pair: CreditPair, side: Side) {
    pair.credit == Max(FLOOR, RawCredit(pair.sell, pair.buy)) && pair.width == Width(pair.sell, pair.buy, side) && pair.width > 0.0
  }

  /** `buy` is the first leg of the window that makes a width with `sell`. */
  ghost predicate IsFirstBeyond(sell: Quote, buy: Quote, window: seq<Quote>, side: Side) {
    exists j :: 0 <= j < |window| && window[j] == buy && forall k :: 0 <= k < j ==> Width(sell, window[k], side) <= 0.0
  }

  /** The first leg of the window struck beyond `sell`. */
  method CreditAgainst(sell: Quote, window: seq<Quote>, side: Side) returns (pair: Option<CreditPair>)
    requires side != Stock
    ensures pair.None? <==> forall q <- window :: Width(sell, q, side) <= 0.0
    ensures pair.Some? ==> IsCreditPair(pair.value, side) && pair.value.sell == sell && IsFirstBeyond(sell, pair.value.buy, window, side)
  {
    for j := 0 to |window|
      invariant forall k :: 0 <= k < j ==> Width(sell, window[k], side) <= 0.0
    {
      var buy := window[j];
      if (side == Put && sell.strike <= buy.strike) || (side != Put && buy.strike <= sell.strike) {
        continue;
      }
      var width := Width(sell, buy, side);
      var credit := Max(FLOOR, RawCredit(sell, buy));
      if width > 0.0 && credit > 0.0 {
        return Some(CreditPair(sell, buy, credit, width));
      }
    }
    pair := None;
  }

  lemma NextInWindow(ordered: seq<Quote>, i: nat, side: Side)
    requires side != Stock && IsSorted(ordered, side == Put) && i + 1 < |ordered|
    requires forall q <- Ahead(ordered, i) :: Width(ordered[i], q, side) <= 0.0
    ensures ordered[i + 1].strike == ordered[i].strike
  {
    assert Ahead(ordered, i)[0] == ordered[i + 1];
    assert ordered[i + 1] in Ahead(ordered, i);
    assert StrikeOrder(ordered[i], ordered[i + 1], side == Put);
  }

  /** Where the strikes up to position `i` agree, the first leg beyond them is struck next to them. */
  lemma NextStrike(ordered: seq<Quote>, i: nat, buy: Quote, side: Side)
    requires side != Stock && IsSorted(ordered, side == Put) && i < |ordered| && Width(ordered[i], buy, side) > 0.0
    requires IsFirstBeyond(ordered[i], buy, Ahead(ordered, i), side) && forall k :: 0 <= k <= i ==> ordered[k].strike == ordered[0].strike
    ensures buy in ordered && forall q <- ordered :: q.strike == ordered[i].strike || StrikeOrder(buy, q, side == Put)
  {
    var w := Ahead(ordered, i);
    var j :| 0 <= j < |w| && w[j] == buy && forall k :: 0 <= k < j ==> Width(ordered[i], w[k], side) <= 0.0;
    assert ordered[i + 1 + j] == buy;
    forall m | 0 <= m < |ordered|
      ensures ordered[m].strike == ordered[i].strike || StrikeOrder(buy, ordered[m], side == Put)
    {
      if i < m < i + 1 + j {
        assert w[m - i - 1] == ordered[m];
        assert StrikeOrder(ordered[i], ordered[m], side == Put);
      }
    }
  }

  /** Puts below the one sold, or calls above it, are struck no nearer than the one bought. */
  ghost predicate NoneBetween(sell: Quote, buy: Quote, legs: seq<Quote>, side: Side) {
    if side == Put then forall q <- legs :: q.strike < sell.strike ==> q.strike <= buy.strike
    else forall q <- legs :: q.strike > sell.strike ==> q.strike >= buy.strike
  }

  /** Sells the most extreme strike it is given, the highest put or the lowest call, against the strike next to it. It fails only when
      all strikes agree. */
  method BestCreditPair(legs: seq<Quote>, side: Side) returns (pair: Option<CreditPair>)
    requires side != Stock
    ensures pair.None? <==> forall p <- legs, q <- legs :: p.strike == q.strike
    ensures pair.Some? ==> IsCreditPair(pair.value, side) && pair.value.sell in legs && pair.value.buy in legs
    ensures pair.Some? ==> forall q <- legs :: if side == Put then q.strike <= pair.value.sell.strike else q.strike >= pair.value.sell.strike
    ensures pair.Some? ==> NoneBetween(pair.value.sell, pair.value.buy, legs, side)
  {
    var ordered := SortByStrike(legs, side == Put);
    SortSorts(legs, side == Put);
    SameQuotes(legs, ordered);
    for i := 0 to |ordered|
      invariant forall k :: 0 <= k < |ordered| && k <= i ==> ordered[k].strike == ordered[0].strike
    {
      pair := CreditAgainst(ordered[i], Ahead(ordered, i), side);
      if pair.Some? {
        assert forall k :: 0 < k < |ordered| ==> StrikeOrder(ordered[0], ordered[k], side == Put);
        NextStrike(ordered, i, pair.value.buy, side);
        return;
      }
      if i + 1 < |ordered| {
        NextInWindow(ordered, i, side);
      }
    }
    pair := None;
  }

  /** The condor built from both sides; its short strikes are in order exactly when every put is struck at or below
      every call it was chosen from. */
  method BuildIronCondor(puts: seq<Quote>, calls: seq<Quote>) returns (condor: Option<Structure>)
    requires Quoted(puts, Put) && Quoted(calls, Call)
    ensures condor.Some? ==> exists sp <- puts, bp <- puts, sc <- calls, bc <- calls ::
              IsCondor(sp, bp, sc, bc) && condor.value == IronCondor(sp, bp, sc, bc) &&
              (sp.strike <= sc.strike <==> forall p <- puts, c <- calls :: p.strike <= c.strike) &&
              (forall p <- puts :: p.strike <= sp.strike) && NoneBetween(sp, bp, puts, Put) &&
              (forall c <- calls :: c.strike >= sc.strike) && NoneBetween(sc, bc, calls, Call)
    ensures condor.Some? ==> ProfitSound(condor.value)
    ensures condor.None? <==> (forall p <- puts, q <- puts :: p.strike == q.strike) || (forall p <- calls, q <- calls :: p.strike == q.strike)
  {
    var putCredit := BestCreditPair(puts, Put);
    var callCredit := BestCreditPair(calls, Call);
    if putCredit.None? || callCredit.None? {
      return None;
    }
    var CreditPair(sellPut, buyPut, putCreditValue, putWidth) := putCredit.value;
    var CreditPair(sellCall, buyCall, callCreditValue, callWidth) := callCredit.value;
    var credit := putCreditValue + callCreditValue;
    var width := Min(putWidth, callWidth);
    CondorBounds(sellPut, buyPut, sellCall, buyCall);
    assert IsCondor(sellPut, buyPut, sellCall, buyCall);
    condor := Some(IronCondor(sellPut, buyPut, sellCall, buyCall).(netCredit := credit, width := width));
    assert condor.value == IronCondor(sellPut, buyPut, sellCall, buyCall);
  }

  // ----- Single legs chosen around the spot -----

  predicate OutOfTheMoney(q: Quote, spot: real, side: Side) {
    if side == Call then q.strike > spot else q.strike < spot
  }

  /** Signed distance past the spot in the direction of the side. */
  function Distance(q: Quote, spot: real, side: Side): real {
    if side == Call then q.strike - spot else spot - q.strike
  }

  predicate NoWorse(a: Quote, b: Quote, spot: real, side: Side) {
    Distance(a, spot, side) < Distance(b, spot, side) ||
    (Distance(a, spot, side) == Distance(b, spot, side) && a.score >= b.score)
  }

  /** Struck lower, or at the same strike and scored no worse. */
  predicate LowerOrBetter(a: Quote, b: Quote) {
    a.strike < b.strike || (a.strike == b.strike && a.score >= b.score)
  }

  predicate HigherOrBetter(a: Quote, b: Quote) {
    a.strike > b.strike || (a.strike == b.strike && a.score >= b.score)
  }

  /** The lowest call above the spot, or of all calls when none is; the best scored of its strike. */
  ghost predicate IsCallChoice(call: Quote, calls: seq<Quote>, spot: real) {
    call in calls &&
    if exists q <- calls :: q.strike > spot then call.strike > spot && forall q <- calls :: q.strike > spot ==> LowerOrBetter(call, q)
    else forall q <- calls :: LowerOrBetter(call, q)
  }

  /** The highest put below the spot, or of all puts when none is; the best scored of its strike. */
  ghost predicate IsPutChoice(put: Quote, puts: seq<Quote>, spot: real) {
    put in puts &&
    if exists q <- puts :: q.strike < spot then put.strike < spot && forall q <- puts :: q.strike < spot ==> HigherOrBetter(put, q)
    else forall q <- puts :: HigherOrBetter(put, q)
  }

  method Eligible(candidates: seq<Quote>, spot: real, side: Side) returns (eligible: seq<Quote>)
    ensures forall q :: q in eligible <==> q in candidates && OutOfTheMoney(q, spot, side)
  {
    eligible := [];
    for i := 0 to |candidates|
      invariant forall q :: q in eligible <==> q in candidates[..i] && OutOfTheMoney(q, spot, side)
    {
      assert candidates[..i + 1] == candidates[..i] + [candidates[i]];
      if OutOfTheMoney(candidates[i], spot, side) {
        eligible := eligible + [candidates[i]];
      }
    }
    assert candidates[..|candidates|] == candidates;
  }

  /** The nearest out-of-the-money leg, the better scored one among equals; without any, the least strike past the spot
      of all legs, which is then the deepest in the money. */
  method SelectOtmLeg(candidates: seq<Quote>, spot: real, side: Side) returns (leg: Option<Quote>)
    ensures leg.None? <==> candidates == []
    ensures leg.Some? ==> leg.value in candidates
    ensures leg.Some? && (exists q <- candidates :: OutOfTheMoney(q, spot, side)) ==>
              OutOfTheMoney(leg.value, spot, side) &&
              forall q <- candidates :: OutOfTheMoney(q, spot, side) ==> NoWorse(leg.value, q, spot, side)
    ensures leg.Some? && !OutOfTheMoney(leg.value, spot, side) ==> forall q <- candidates :: NoWorse(leg.value, q, spot, side)
    ensures leg.Some? && side == Call ==> IsCallChoice(leg.value, candidates, spot)
    ensures leg.Some? && side == Put ==> IsPutChoice(leg.value, candidates, spot)
  {
    if candidates == [] {
      return None;
    }
    var eligible := Eligible(candidates, spot, side);
    if eligible == [] {
      eligible := candidates;
    }
    var best := eligible[0];
    for i := 1 to |eligible|
      invariant best in eligible
      invariant forall k :: 0 <= k < i ==> NoWorse(best, eligible[k], spot, side)
    {
      if !NoWorse(best, eligible[i], spot, side) {
        best := eligible[i];
      }
    }
    leg := Some(best);
  }

  /** A strangle is only built around the spot. */
  method BuildStrangle(calls: seq<Quote>, puts: seq<Quote>, spot: real) returns (row: Option<Structure>)
    requires Quoted(calls, Call) && Quoted(puts, Put)
    ensures row.Some? <==> (exists c <- calls :: c.strike > spot) && (exists p <- puts :: p.strike < spot)
    ensures row.Some? ==> LossSound(row.value)
    ensures row.Some? ==> exists c <- calls, p <- puts ::
              p.strike < spot < c.strike && IsCallChoice(c, calls, spot) && IsPutChoice(p, puts, spot) && row.value == Strangle(c, p)
  {
    var call := SelectOtmLeg(calls, spot, Call);
    var put := SelectOtmLeg(puts, spot, Put);
    if call.None? || put.None? {
      return None;
    }
    if call.value.strike <= spot || put.value.strike >= spot {
      assert !(exists c <- calls :: OutOfTheMoney(c, spot, Call)) || !(exists p <- puts :: OutOfTheMoney(p, spot, Put));
      return None;
    }
    StrangleBounds(call.value, put.value);
    assert OutOfTheMoney(call.value, spot, Call) && OutOfTheMoney(put.value, spot, Put);
    row := Some(Strangle(call.value, put.value));
  }

  /** With an out-of-the-money call and put to choose from, the collar's two bounds hold. */
  method BuildCollar(calls: seq<Quote>, puts: seq<Quote>, spot: real) returns (row: Option<Structure>)
    requires Quoted(calls, Call) && Quoted(puts, Put)
    ensures row.Some? <==> calls != [] && puts != []
    ensures (exists c <- calls :: OutOfTheMoney(c, spot, Call)) && (exists p <- puts :: OutOfTheMoney(p, spot, Put)) ==>
              row.Some? && LossSound(WithShares(row.value, spot)) && ProfitSound(WithShares(row.value, spot))
    ensures row.Some? ==> exists c <- calls, p <- puts ::
              IsCallChoice(c, calls, spot) && IsPutChoice(p, puts, spot) && row.value == Collar(c, p, spot)
  {
    var call := SelectOtmLeg(calls, spot, Call);
    var put := SelectOtmLeg(puts, spot, Put);
    if call.None? || put.None? {
      return None;
    }
    if put.value.strike <= call.value.strike {
      CollarBounds(call.value, put.value, spot);
    }
    row := Some(Collar(call.value, put.value, spot));
  }

  /** No strike lies nearer to the target on either side. */
  ghost predicate IsNearest(best: Quote, candidates: seq<Quote>, target: real) {
    best in candidates &&
    forall q <- candidates :: if best.strike < target then !(best.strike < q.strike < target + (target - best.strike))
                              else !(target - (best.strike - target) < q.strike < best.strike)
  }

  method NearestStrike(candidates: seq<Quote>, target: real) returns (best: Quote)
    requires candidates != []
    ensures best in candidates && forall q <- candidates :: Gap(best.strike, target) <= Gap(q.strike, target)
    ensures IsNearest(best, candidates, target)
    ensures IsSorted(candidates, false) ==> forall q <- candidates :: Gap(q.strike, target) == Gap(best.strike, target) ==> best.strike <= q.strike
  {
    best := candidates[0];
    for i := 1 to |candidates|
      invariant best in candidates[..i]
      invariant forall k :: 0 <= k < i ==> Gap(best.strike, target) <= Gap(candidates[k].strike, target)
      invariant IsSorted(candidates, false) ==>
                  forall k :: 0 <= k < i && Gap(candidates[k].strike, target) == Gap(best.strike, target) ==> best.strike <= candidates[k].strike
    {
      assert IsSorted(candidates, false) ==> StrikeOrder(best, candidates[i], false);
      if Gap(candidates[i].strike, target) < Gap(best.strike, target) {
        best := candidates[i];
      }
    }
  }

  /** The put is the one nearest the call's strike: they share it whenever some put is struck there. */
  method BuildStraddle(calls: seq<Quote>, puts: seq<Quote>, spot: real) returns (row: Option<Structure>)
    requires Quoted(calls, Call) && Quoted(puts, Put)
    ensures row.Some? <==> calls != [] && puts != []
    ensures row.Some? ==> LossSound(row.value)
    ensures row.Some? ==> exists c <- calls, p <- puts ::
              row.value == Straddle(c, p) && (p.strike == c.strike <==> exists q <- puts :: q.strike == c.strike) &&
              IsNearest(c, calls, spot) && IsNearest(p, puts, c.strike)
  {
    if calls == [] || puts == [] {
      return None;
    }
    var call := NearestStrike(calls, spot);
    var put := NearestStrike(puts, call.strike);
    StraddleBounds(call, put);
    row := Some(Straddle(call, put));
  }

  // ----- The butterfly's three strikes -----

  method StrikeBelow(calls: seq<Quote>, center: real) returns (strike: Option<real>)
    ensures strike.None? <==> forall q <- calls :: q.strike >= center
    ensures strike.Some? ==> strike.value < center && forall q <- calls :: q.strike < center ==> q.strike <= strike.value
    ensures strike.Some? ==> exists q <- calls :: q.strike == strike.value
  {
    strike := None;
    for i := 0 to |calls|
      invariant strike.None? <==> forall k :: 0 <= k < i ==> calls[k].strike >= center
      invariant strike.Some? ==> strike.value < center && forall k :: 0 <= k < i && calls[k].strike < center ==> calls[k].strike <= strike.value
      invariant strike.Some? ==> exists k :: 0 <= k < i && calls[k].strike == strike.value
    {
      if calls[i].strike < center && (strike.None? || strike.value < calls[i].strike) {
        strike := Some(calls[i].strike);
      }
    }
  }

  method StrikeAbove(calls: seq<Quote>, center: real) returns (strike: Option<real>)
    ensures strike.None? <==> forall q <- calls :: q.strike <= center
    ensures strike.Some? ==> strike.value > center && forall q <- calls :: q.strike > center ==> q.strike >= strike.value
    ensures strike.Some? ==> exists q <- calls :: q.strike == strike.value
  {
    strike := None;
    for i := 0 to |calls|
      invariant strike.None? <==> forall k :: 0 <= k < i ==> calls[k].strike <= center
      invariant strike.Some? ==> strike.value > center && forall k :: 0 <= k < i && calls[k].strike > center ==> calls[k].strike >= strike.value
      invariant strike.Some? ==> exists k :: 0 <= k < i && calls[k].strike == strike.value
    {
      if calls[i].strike > center && (strike.None? || calls[i].strike < strike.value) {
        strike := Some(calls[i].strike);
      }
    }
  }

  method PickByStrike(calls: seq<Quote>, strike: real) returns (q: Quote)
    requires exists q <- calls :: q.strike == strike
    ensures q in calls && q.strike == strike
  {
    for i := 0 to |calls|
      invariant forall k :: 0 <= k < i ==> calls[k].strike != strike
    {
      if calls[i].strike == strike {
        return calls[i];
      }
    }
    assert false;
  }

  /** The center is the strike nearest the spot, the lower of two equally near ones. */
  ghost predicate IsCenter(center: Quote, calls: seq<Quote>, spot: real) {
    center in calls &&
    forall q <- calls :: Gap(center.strike, spot) < Gap(q.strike, spot) || (Gap(center.strike, spot) == Gap(q.strike, spot) && center.strike <= q.strike)
  }

  /** The wings are the strikes next to the center. */
  ghost predicate IsAdjacent(low: Quote, center: Quote, high: Quote, calls: seq<Quote>) {
    low in calls && high in calls && low.strike < center.strike < high.strike &&
    forall q <- calls :: !(low.strike < q.strike < center.strike) && !(center.strike < q.strike < high.strike)
  }

  predicate IsEdge(center: real, calls: seq<Quote>) {
    (forall q <- calls :: q.strike >= center) || (forall q <- calls :: q.strike <= center)
  }

  lemma TwoStrikesHaveNoInside(calls: seq<Quote>, center: Quote)
    requires |calls| < 3 && center in calls
    ensures IsEdge(center.strike, calls)
  {
    if |calls| == 2 {
      assert calls == [calls[0], calls[1]];
    }
  }

  datatype Wings = Wings(low: Quote, center: Quote, high: Quote)

  /** The three legs exist exactly when the center is not the lowest or the highest strike. */
  method ButterflyLegs(calls: seq<Quote>, spot: real) returns (legs: Option<Wings>)
    requires IsSorted(calls, false)
    ensures legs.Some? ==> IsCenter(legs.value.center, calls, spot) && IsAdjacent(legs.value.low, legs.value.center, legs.value.high, calls)
    ensures legs.None? ==> forall center: Quote :: IsCenter(center, calls, spot) ==> IsEdge(center.strike, calls)
  {
    if |calls| < 3 {
      forall center: Quote | IsCenter(center, calls, spot)
        ensures IsEdge(center.strike, calls)
      {
        TwoStrikesHaveNoInside(calls, center);
      }
      return None;
    }
    var center := NearestStrike(calls, spot);
    var lowStrike := StrikeBelow(calls, center.strike);
    var highStrike := StrikeAbove(calls, center.strike);
    if lowStrike.None? || highStrike.None? {
      assert IsEdge(center.strike, calls);
      forall c: Quote | IsCenter(c, calls, spot)
        ensures c.strike == center.strike
      {
      }
      return None;
    }
    var low := PickByStrike(calls, lowStrike.value);
    var high := PickByStrike(calls, highStrike.value);
    legs := Some(Wings(low, center, high));
  }

  method CallButterfly(calls: seq<Quote>, spot: real) returns (row: Option<Structure>)
    requires Quoted(calls, Call) && IsSorted(calls, false)
    ensures row.Some? ==> exists legs: Wings ::
              IsCenter(legs.center, calls, spot) && IsAdjacent(legs.low, legs.center, legs.high, calls) &&
              IsButterfly(legs.low, legs.center, legs.high) && row.value == Butterfly(legs.low, legs.center, legs.high)
    ensures row.None? ==> forall center: Quote :: IsCenter(center, calls, spot) ==> IsEdge(center.strike, calls)
  {
    var legs := ButterflyLegs(calls, spot);
    match legs
    case None => row := None;
    case Some(w) =>
      assert IsButterfly(w.low, w.center, w.high);
      row := Some(Butterfly(w.low, w.center, w.high));
  }
}
