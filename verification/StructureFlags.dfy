/** The hard flags of an option structure, as strings in every component that raises or reads them. */
module StructureFlags {
  datatype Flag =
    | BadLongAsk | ShortLegBidUnavailable | NetPriceInconsistent | LegWideSpread
    | UnlimitedUpside | RequiresStockPosition | RequiresCashSecured | TermStructureRisk | DiagonalAssignmentRisk
    | StrategyTemplateBlocked
    | NeedsStockBacking | NeedsCashSecured

  /** What the builders put on a structure themselves (`strategy_structures.py`). */
  predicate BuilderFlag(f: Flag) {
    f == UnlimitedUpside || f == RequiresStockPosition || f == RequiresCashSecured || f == TermStructureRisk || f == DiagonalAssignmentRisk
  }

  /** What makes quotes unusable (`strategy_structures.py`). */
  predicate QuoteFault(f: Flag) {
    f == BadLongAsk || f == ShortLegBidUnavailable || f == NetPriceInconsistent
  }
}
