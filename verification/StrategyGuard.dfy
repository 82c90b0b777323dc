/** Which built structures the guard stops (`ai_decision_guard.py`). */
module StrategyGuard {
  import opened StructureFlags
  import opened Payoff
  import opened StrategyBuilders
  import opened StrategyBounds
  import opened StrategyQuotes
  import Options
  import DecisionScores
  import DecisionGuard

  /** A structure as it leaves the builders: the flags they put on it, and whether its template was refused. */
  datatype Built = Built(structure: Structure, own: seq<Flag>, refused: bool, score: real)

  predicate IsBuilt(b: Built) {
    b.structure.legs != [] && forall f <- b.own :: BuilderFlag(f)
  }

  /** The row the guard sees: own flags, quote flags and the template's, each once. */
  ghost predicate IsRowOf(row: DecisionGuard.StrategyRow, b: Built) {
    (forall f :: f in row.flags <==> f in b.own || f in ConsistencyOf(b.structure).flags || (b.refused && f == StrategyTemplateBlocked)) &&
    row.fields == map[
      DecisionScores.Score := DecisionScores.Number(b.score), DecisionScores.MaxLoss := DecisionScores.Number(b.structure.maxLoss),
      DecisionScores.Legs := DecisionScores.Items(|b.structure.legs|)]
  }

  lemma RowIsComplete(row: DecisionGuard.StrategyRow, b: Built)
    requires IsBuilt(b) && IsRowOf(row, b)
    ensures DecisionGuard.Complete(row.fields, DecisionGuard.RequiredOfStrategies)
  {
    DecisionGuard.OneFieldMissing(row.fields, DecisionScores.Score);
    DecisionGuard.OneFieldMissing(row.fields, DecisionScores.MaxLoss);
    DecisionGuard.OneFieldMissing(row.fields, DecisionScores.Legs);
  }

  lemma QuoteFlagsOnly(s: Structure, f: Flag)
    requires f in ConsistencyOf(s).flags
    ensures QuoteFault(f) || f == LegWideSpread
  {
    FlagMeans(s, f);
  }

  /** Of everything a builder, its quotes and its template can raise, the guard stops a structure for unusable quotes alone. The
      flags for shares and cash it looks for are not the ones the builders set, and a refused template is not among them. */
  lemma GuardStopsUnusableQuotes(row: DecisionGuard.StrategyRow, b: Built)
    requires IsBuilt(b) && IsRowOf(row, b)
    ensures DecisionGuard.StrategyPasses(row) <==> !Unusable(b.structure)
  {
    RowIsComplete(row, b);
    BlockedIffUnusable(b.structure);
    forall f <- row.flags
      ensures DecisionGuard.Blocking(f) ==> f in ConsistencyOf(b.structure).flags && QuoteFault(f)
    {
      if f in ConsistencyOf(b.structure).flags {
        QuoteFlagsOnly(b.structure, f);
      }
    }
  }

  /** A selected structure of the program's own making is executed exactly when the gate allows automatic trades, the evidence is
      there and its quotes are usable. */
  lemma StrategyExecution(a: DecisionGuard.Answer, p: DecisionGuard.Payload, row: DecisionGuard.StrategyRow, b: Built)
    requires IsBuilt(b) && IsRowOf(row, b)
    requires a.selection == DecisionGuard.StrategyPick && DecisionGuard.FindStrategy(p.strategies, a.strategy) == Options.Some(row)
    ensures DecisionGuard.Executable(a, p) <==>
            a.action == DecisionGuard.Trade && p.shouldTrade && p.allowAutoTrade && DecisionGuard.EvidencePasses(a.evidence, 3) && !Unusable(b.structure)
  {
    GuardStopsUnusableQuotes(row, b);
  }

  /** A covered call and a cash-secured put are stopped exactly when there is no bid, whatever the account holds. */
  lemma IncomeIsStoppedWithoutABid(q: Quote, spot: real)
    requires q.side != Stock
    ensures Unusable(CoveredCall(q, spot)) <==> q.bid <= 0.0
    ensures Unusable(CashSecuredPut(q)) <==> q.bid <= 0.0
  {
    IncomeIsConsistent(q, spot);
    var short := OptionLeg(q, Sell, 1);
    assert CoveredCall(q, spot).legs == [StockLeg(spot), short] && CashSecuredPut(q).legs == [short];
    assert short in CoveredCall(q, spot).legs && short in CashSecuredPut(q).legs;
  }

  /** A vertical is stopped exactly when the leg it buys has no ask or the leg it sells no bid. */
  lemma VerticalIsStoppedWithoutQuotes(a: Quote, b: Quote, spot: real)
    requires a.side != Stock && b.side != Stock
    ensures DebitRow(a, b).Some? ==> (Unusable(DebitRow(a, b).value) <==> a.ask <= 0.0 || b.bid <= 0.0)
    ensures CreditRow(a, b).Some? ==> (Unusable(CreditRow(a, b).value) <==> a.bid <= 0.0 || b.ask <= 0.0)
  {
    PairsAreConsistent(a, b, spot);
    if DebitRow(a, b).Some? {
      TwoLegs(DebitRow(a, b).value, OptionLeg(a, Buy, 1), OptionLeg(b, Sell, 1));
    }
    if CreditRow(a, b).Some? {
      TwoLegs(CreditRow(a, b).value, OptionLeg(a, Sell, 1), OptionLeg(b, Buy, 1));
    }
  }

  lemma TwoLegs(s: Structure, x: Leg, y: Leg)
    requires s.legs == [x, y] && !Inconsistent(s, NetPremium(s.legs))
    ensures Unusable(s) <==> BadLong(x) || BadLong(y) || BadShort(x) || BadShort(y)
  {
    assert x in s.legs && y in s.legs;
  }
}
