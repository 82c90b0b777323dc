/** The validator between a language model's answer and an order (`ai_decision_guard.py`). */
module DecisionGuard {
  import opened Options
  import opened StructureFlags
  import opened DecisionGate
  import opened DecisionScores

  datatype Action = Trade | Observe | NoTrade | OtherAction
  datatype Selection = SingleLegPick | StrategyPick | NoPick | OtherPick
  datatype Mode = SingleLegMode | StructureMode

  /** The evidence list, each item reduced to whether it names a field and gives a value. */
  datatype Evidence = NotAList | References(items: seq<bool>)

  datatype Answer = Answer(action: Action, selection: Selection, contract: string, strategy: string, evidence: Evidence)

  datatype CandidateRow = CandidateRow(symbol: string, bucket: Bucket, flags: seq<HardFlag>, fields: map<Field, Value>)
  datatype StrategyRow = StrategyRow(key: string, flags: seq<Flag>, fields: map<Field, Value>)

  datatype Payload = Payload(
    candidates: seq<CandidateRow>, strategies: seq<StrategyRow>, shouldTrade: bool, allowAutoTrade: bool, modes: seq<Mode>)

  datatype Problem =
    | BadAction | BadSelection | GateForbidsTrade | SingleLegNotInModes | UnknownContract | MissingField(path: seq<Field>)
    | UntradableBucket | TriggerTooLow | FlaggedContract | UnknownStrategy | FlaggedStrategy | NothingSelected
    | NoEvidence | BadEvidence(index: nat)

  datatype Warning = AutoTradeForbidden | DiffersFromTop

  datatype Validation = Validation(
    errors: seq<Problem>, warnings: seq<Warning>, action: Action, selection: Selection, contract: string, strategy: string,
    top: string, executionAllowed: bool)

  // ----- Reading rows -----

  predicate Empty(v: Value) {
    match v
    case Null => true
    case Text(t) => t == ""
    case Number(_) => false
    case Items(n) => n == 0
    case Dict(d) => d == map[]
  }

  /** Whether the dotted path leads to nothing, or to an empty value. */
  predicate Missing(v: Value, path: seq<Field>) {
    if path == [] then Empty(v)
    else v.Dict? && path[0] in v.entries ==> Missing(v.entries[path[0]], path[1..])
  }

  method FieldMissing(row: map<Field, Value>, path: seq<Field>) returns (missing: bool)
    ensures missing == Missing(Dict(row), path)
  {
    var value := Dict(row);
    for i := 0 to |path|
      invariant Missing(Dict(row), path) == Missing(value, path[i..])
    {
      if !value.Dict? || path[i] !in value.entries {
        return true;
      }
      value := value.entries[path[i]];
      assert path[i..][1..] == path[i + 1..];
    }
    missing := Empty(value);
  }

  function Num(fields: map<Field, Value>, f: Field, default: real): real {
    if f in fields && fields[f].Number? then fields[f].number else default
  }

  function RankKey(row: CandidateRow): real {
    Num(row.fields, DecisionScore, Num(row.fields, AnalysisScore, 0.0))
  }

  /** The first row of the highest rank key. */
  function Top(rows: seq<CandidateRow>): (i: nat)
    requires rows != []
    ensures i < |rows| && (forall k :: 0 <= k < |rows| ==> RankKey(rows[k]) <= RankKey(rows[i]))
    ensures forall k :: 0 <= k < i ==> RankKey(rows[k]) < RankKey(rows[i])
  {
    if |rows| == 1 then 0
    else
      var i := Top(rows[1..]);
      assert forall k :: 1 <= k < |rows| ==> rows[k] == rows[1..][k - 1];
      if RankKey(rows[0]) >= RankKey(rows[1..][i]) then 0 else i + 1
  }

  function TopContract(rows: seq<CandidateRow>): string {
    if rows == [] then "" else rows[Top(rows)].symbol
  }

  /** A later row of the same symbol replaces an earlier one; a row without a symbol cannot be found. */
  function Find(rows: seq<CandidateRow>, symbol: string): (r: Option<CandidateRow>)
    ensures r.Some? ==> symbol != "" && r.value in rows && r.value.symbol == symbol
    ensures r.None? ==> symbol == "" || forall row <- rows :: row.symbol != symbol
  {
    if rows == [] || symbol == "" then None
    else if rows[|rows| - 1].symbol == symbol then Some(rows[|rows| - 1])
    else Find(rows[..|rows| - 1], symbol)
  }

  function FindStrategy(rows: seq<StrategyRow>, key: string): (r: Option<StrategyRow>)
    ensures r.Some? ==> key != "" && r.value in rows && r.value.key == key
    ensures r.None? ==> key == "" || forall row <- rows :: row.key != key
  {
    if rows == [] || key == "" then None
    else if rows[|rows| - 1].key == key then Some(rows[|rows| - 1])
    else FindStrategy(rows[..|rows| - 1], key)
  }

  /** The row found is the last one of its symbol. */
  lemma {:induction false} LastOfSymbol(rows: seq<CandidateRow>, i: nat)
    requires i < |rows| && rows[i].symbol != "" && forall k :: i < k < |rows| ==> rows[k].symbol != rows[i].symbol
    ensures Find(rows, rows[i].symbol) == Some(rows[i])
  {
    if i < |rows| - 1 {
      LastOfSymbol(rows[..|rows| - 1], i);
    }
  }

  lemma {:induction false} LastOfKey(rows: seq<StrategyRow>, i: nat)
    requires i < |rows| && rows[i].key != "" && forall k :: i < k < |rows| ==> rows[k].key != rows[i].key
    ensures FindStrategy(rows, rows[i].key) == Some(rows[i])
  {
    if i < |rows| - 1 {
      LastOfKey(rows[..|rows| - 1], i);
    }
  }

  method Lookup(rows: seq<CandidateRow>, symbol: string) returns (found: Option<CandidateRow>)
    ensures found == Find(rows, symbol)
  {
    var bySymbol: map<string, CandidateRow> := map[];
    for i := 0 to |rows|
      invariant "" !in bySymbol
      invariant (if symbol in bySymbol then Some(bySymbol[symbol]) else None) == Find(rows[..i], symbol)
    {
      assert rows[..i + 1][..i] == rows[..i];
      if rows[i].symbol != "" {
        bySymbol := bySymbol[rows[i].symbol := rows[i]];
      }
    }
    assert rows[..|rows|] == rows;
    found := if symbol != "" && symbol in bySymbol then Some(bySymbol[symbol]) else None;
  }

  /** A row ranks by its decision score, without one by its analysis score, and without both at zero. */
  lemma RankKeyIs(row: CandidateRow, x: real)
    ensures DecisionScore in row.fields && row.fields[DecisionScore] == Number(x) ==> RankKey(row) == x
    ensures DecisionScore !in row.fields && AnalysisScore in row.fields && row.fields[AnalysisScore] == Number(x) ==> RankKey(row) == x
    ensures DecisionScore !in row.fields && AnalysisScore !in row.fields ==> RankKey(row) == 0.0
  {
  }

  // ----- What a trade needs -----

  /** The evidence every single-leg row must carry. */
  const RequiredEvidence: seq<seq<Field>> := [
    [DecisionScore], [AlphaScore], [ExecutionScore], [RiskPlan, MaxLossPerContract], [RiskPlan, StopLossPrice],
    [RiskPlan, TakeProfit1], [RiskPlan, TakeProfit2], [RiskPlan, LatestExit]]

  const RequiredOfStrategies: seq<seq<Field>> := [[Score], [MaxLoss], [Legs]]

  predicate Blocking(f: Flag) {
    QuoteFault(f) || f == NeedsStockBacking || f == NeedsCashSecured
  }

  predicate Complete(fields: map<Field, Value>, required: seq<seq<Field>>) {
    forall path <- required :: !Missing(Dict(fields), path)
  }

  predicate StrategyOnly(modes: seq<Mode>) {
    modes != [] && SingleLegMode !in modes
  }

  predicate SingleLegPasses(row: CandidateRow) {
    Complete(row.fields, RequiredEvidence) && Tradable(row.bucket) && Num(row.fields, TriggerScore, 0.0) >= 60.0 && row.flags == []
  }

  predicate StrategyPasses(row: StrategyRow) {
    Complete(row.fields, RequiredOfStrategies) && forall f <- row.flags :: !Blocking(f)
  }

  predicate EvidencePasses(e: Evidence, least: nat) {
    e.References? && |e.items| >= least && forall i :: 0 <= i < |e.items| && i < 12 ==> e.items[i]
  }

  predicate SelectionPasses(a: Answer, p: Payload) {
    match a.selection
    case SingleLegPick => !StrategyOnly(p.modes) && var found := Find(p.candidates, a.contract); found.Some? && SingleLegPasses(found.value)
    case StrategyPick => var found := FindStrategy(p.strategies, a.strategy); found.Some? && StrategyPasses(found.value)
    case NoPick => a.action != Trade
    case OtherPick => false
  }

  predicate Acceptable(a: Answer, p: Payload) {
    a.action != OtherAction && SelectionPasses(a, p) && (a.action == Trade ==> p.shouldTrade) &&
    EvidencePasses(a.evidence, if a.action == Trade then 3 else 1)
  }

  /** A trade in a contract other than the highest ranked is only observed. */
  predicate SecondChoice(a: Answer, p: Payload) {
    a.selection == SingleLegPick && a.contract != "" && TopContract(p.candidates) != "" && a.contract != TopContract(p.candidates)
  }

  predicate Executable(a: Answer, p: Payload) {
    a.action == Trade && Acceptable(a, p) && !SecondChoice(a, p) && p.shouldTrade && p.allowAutoTrade
  }

  // ----- The program -----

  // What each error stands for.

  ghost predicate FieldFault(e: Problem, fields: map<Field, Value>, required: seq<seq<Field>>) {
    e.MissingField? && e.path in required && Missing(Dict(fields), e.path)
  }

  ghost predicate SingleLegFault(e: Problem, p: Payload, found: Option<CandidateRow>) {
    match e
    case SingleLegNotInModes => p.modes != [] && SingleLegMode !in p.modes
    case UnknownContract => found.None?
    case MissingField(_) => found.Some? && FieldFault(e, found.value.fields, RequiredEvidence)
    case UntradableBucket => found.Some? && (found.value.bucket == TriggerNotMet || found.value.bucket == BlockedExecution)
    case TriggerTooLow => found.Some? && Num(found.value.fields, TriggerScore, 0.0) < 60.0
    case FlaggedContract => found.Some? && found.value.flags != []
    case _ => false
  }

  ghost predicate StrategyFault(e: Problem, found: Option<StrategyRow>) {
    match e
    case UnknownStrategy => found.None?
    case MissingField(_) => found.Some? && FieldFault(e, found.value.fields, RequiredOfStrategies)
    case FlaggedStrategy => found.Some? && exists f <- found.value.flags :: Blocking(f)
    case _ => false
  }

  ghost predicate EvidenceFault(e: Problem, evidence: Evidence, least: nat) {
    match e
    case NoEvidence => evidence.NotAList? || |evidence.items| < least
    case BadEvidence(i) => evidence.References? && |evidence.items| >= least && i < |evidence.items| && i < 12 && !evidence.items[i]
    case _ => false
  }

  ghost predicate SelectionFault(e: Problem, a: Answer, p: Payload) {
    match a.selection
    case SingleLegPick => SingleLegFault(e, p, Find(p.candidates, a.contract))
    case StrategyPick => StrategyFault(e, FindStrategy(p.strategies, a.strategy))
    case NoPick => e == NothingSelected && a.action == Trade
    case OtherPick => e == BadSelection || (e == NothingSelected && a.action == Trade)
  }

  ghost predicate AnswerFault(e: Problem, a: Answer, p: Payload) {
    (e == BadAction && a.action == OtherAction) || (e == GateForbidsTrade && a.action == Trade && !p.shouldTrade)
  }

  ghost predicate Faulted(e: Problem, a: Answer, p: Payload) {
    AnswerFault(e, a, p) || SelectionFault(e, a, p) || EvidenceFault(e, a.evidence, if a.action == Trade then 3 else 1)
  }

  method FieldProblems(fields: map<Field, Value>, required: seq<seq<Field>>) returns (errors: seq<Problem>)
    ensures errors == [] <==> Complete(fields, required)
    ensures forall e :: e in errors <==> FieldFault(e, fields, required)
  {
    errors := [];
    for i := 0 to |required|
      invariant errors == [] <==> forall path <- required[..i] :: !Missing(Dict(fields), path)
      invariant forall e :: e in errors <==> FieldFault(e, fields, required[..i])
    {
      var missing := FieldMissing(fields, required[i]);
      assert required[..i + 1] == required[..i] + [required[i]];
      if missing {
        errors := errors + [MissingField(required[i])];
      }
    }
    assert required[..|required|] == required;
  }

  method SingleLegProblems(a: Answer, p: Payload, found: Option<CandidateRow>) returns (errors: seq<Problem>)
    requires found == Find(p.candidates, a.contract)
    ensures errors == [] <==> !StrategyOnly(p.modes) && found.Some? && SingleLegPasses(found.value)
    ensures forall e :: e in errors <==> SingleLegFault(e, p, found)
  {
    var modes: seq<Problem> := if StrategyOnly(p.modes) then [SingleLegNotInModes] else [];
    if found.None? {
      return modes + [UnknownContract];
    }
    var row := found.value;
    var fields := FieldProblems(row.fields, RequiredEvidence);
    errors := modes + fields;
    if row.bucket == TriggerNotMet || row.bucket == BlockedExecution {
      errors := errors + [UntradableBucket];
    }
    if Num(row.fields, TriggerScore, 0.0) < 60.0 {
      errors := errors + [TriggerTooLow];
    }
    if row.flags != [] {
      errors := errors + [FlaggedContract];
    }
  }

  method StrategyProblems(found: Option<StrategyRow>) returns (errors: seq<Problem>)
    ensures errors == [] <==> found.Some? && StrategyPasses(found.value)
    ensures forall e :: e in errors <==> StrategyFault(e, found)
  {
    if found.None? {
      return [UnknownStrategy];
    }
    errors := FieldProblems(found.value.fields, RequiredOfStrategies);
    if exists f <- found.value.flags :: Blocking(f) {
      errors := errors + [FlaggedStrategy];
    }
  }

  method EvidenceProblems(e: Evidence, least: nat) returns (errors: seq<Problem>)
    ensures errors == [] <==> EvidencePasses(e, least)
    ensures forall x :: x in errors <==> EvidenceFault(x, e, least)
  {
    if e.NotAList? || |e.items| < least {
      return [NoEvidence];
    }
    errors := [];
    var checked := if |e.items| < 12 then |e.items| else 12;
    for i := 0 to checked
      invariant errors == [] <==> forall k :: 0 <= k < i ==> e.items[k]
      invariant forall x :: x in errors <==> x.BadEvidence? && x.index < i && !e.items[x.index]
    {
      if !e.items[i] {
        errors := errors + [BadEvidence(i)];
      }
    }
  }

  method SelectionProblems(a: Answer, p: Payload, action: Action, found: Option<CandidateRow>, strategy: Option<StrategyRow>)
    returns (errors: seq<Problem>)
    requires found == Find(p.candidates, a.contract) && strategy == FindStrategy(p.strategies, a.strategy)
    requires action == if a.action == OtherAction then Observe else a.action
    ensures errors == [] <==> SelectionPasses(a, p)
    ensures forall e :: e in errors <==> SelectionFault(e, a, p)
  {
    errors := if a.selection == OtherPick then [BadSelection] else [];
    if a.selection == SingleLegPick {
      errors := SingleLegProblems(a, p, found);
    } else if a.selection == StrategyPick {
      errors := StrategyProblems(strategy);
    } else if action == Trade {
      errors := errors + [NothingSelected];
    }
  }

  /** An answer is executed exactly when it is `Executable`; any error turns it into an observation, or into no trade when
      there is nothing to observe. */
  method ValidateAnalysisDecision(a: Answer, p: Payload) returns (v: Validation)
    ensures v.errors == [] <==> Acceptable(a, p)
    ensures forall e :: e in v.errors <==> Faulted(e, a, p)
    ensures v.executionAllowed <==> Executable(a, p)
    ensures v.action == Trade <==> a.action == Trade && Acceptable(a, p) && !SecondChoice(a, p)
    ensures v.errors != [] ==> v.action == if p.candidates == [] && p.strategies == [] then NoTrade else Observe
    ensures v.contract == (if Find(p.candidates, a.contract).Some? then a.contract else "") && v.top == TopContract(p.candidates)
    ensures v.executionAllowed ==> v.selection == a.selection
    ensures v.errors == [] ==>
              v.action == if SecondChoice(a, p) && a.action == Trade then Observe else a.action
    ensures v.strategy == if FindStrategy(p.strategies, a.strategy).Some? then a.strategy else ""
    ensures v.selection == if a.selection == OtherPick || (v.errors != [] && v.contract == v.strategy == "") then NoPick else a.selection
    ensures v.warnings == (if a.action == Trade && !p.allowAutoTrade then [AutoTradeForbidden] else [])
                          + (if a.action == Trade && SecondChoice(a, p) then [DiffersFromTop] else [])
  {
    var found := Lookup(p.candidates, a.contract);
    var strategy := FindStrategy(p.strategies, a.strategy);
    var action := if a.action == OtherAction then Observe else a.action;
    var errors := AllProblems(a, p, action, found, strategy);
    v := Conclude(a, p, action, errors, found.Some?, strategy.Some?);
  }

  /** What is returned once the errors are known: a second choice is only observed, and so is an answer with errors when there is
      anything to observe. */
  method Conclude(a: Answer, p: Payload, asked: Action, errors: seq<Problem>, found: bool, known: bool) returns (v: Validation)
    requires asked == if a.action == OtherAction then Observe else a.action
    ensures v.errors == errors && v.top == TopContract(p.candidates)
    ensures v.action == if errors != [] then (if p.candidates == [] && p.strategies == [] then NoTrade else Observe)
                        else if asked == Trade && SecondChoice(a, p) then Observe else asked
    ensures v.executionAllowed <==> errors == [] && asked == Trade && !SecondChoice(a, p) && p.shouldTrade && p.allowAutoTrade
    ensures v.contract == (if found then a.contract else "") && v.strategy == if known then a.strategy else ""
    ensures v.selection == if a.selection == OtherPick || (errors != [] && !found && !known) then NoPick else a.selection
    ensures v.warnings == (if asked == Trade && !p.allowAutoTrade then [AutoTradeForbidden] else [])
                          + (if asked == Trade && SecondChoice(a, p) then [DiffersFromTop] else [])
  {
    var action := asked;
    var top := TopContract(p.candidates);
    var differs := action == Trade && a.selection == SingleLegPick && a.contract != "" && top != "" && a.contract != top;
    var warnings := Warn(!p.allowAutoTrade && action == Trade, differs);
    if differs {
      action := Observe;
    }
    if errors != [] {
      action := if p.candidates != [] || p.strategies != [] then Observe else NoTrade;
    }
    var selection := if a.selection == OtherPick then NoPick else a.selection;
    v := Validation(errors, warnings, action, if errors != [] && !found && !known then NoPick else selection,
                    if found then a.contract else "", if known then a.strategy else "",
                    top, errors == [] && action == Trade && p.shouldTrade && p.allowAutoTrade);
  }

  method Warn(forbidden: bool, differs: bool) returns (warnings: seq<Warning>)
    ensures warnings == (if forbidden then [AutoTradeForbidden] else []) + (if differs then [DiffersFromTop] else [])
  {
    warnings := [];
    if forbidden {
      warnings := warnings + [AutoTradeForbidden];
    }
    if differs {
      warnings := warnings + [DiffersFromTop];
    }
  }

  /** The errors in the order they are found. */
  method AllProblems(a: Answer, p: Payload, action: Action, found: Option<CandidateRow>, strategy: Option<StrategyRow>) returns (errors: seq<Problem>)
    requires found == Find(p.candidates, a.contract) && strategy == FindStrategy(p.strategies, a.strategy)
    requires action == if a.action == OtherAction then Observe else a.action
    ensures errors == [] <==> Acceptable(a, p)
    ensures forall e :: e in errors <==> Faulted(e, a, p)
  {
    errors := if a.action == OtherAction then [BadAction] else [];
    if !p.shouldTrade && action == Trade {
      errors := errors + [GateForbidsTrade];
    }
    var picked := SelectionProblems(a, p, action, found, strategy);
    var evidence := EvidenceProblems(a.evidence, if action == Trade then 3 else 1);
    errors := errors + picked + evidence;
  }

  // ----- From the market to the order -----

  /** The row of a scored candidate. */
  function RowOf(s: Scored): CandidateRow {
    CandidateRow(s.candidate.symbol, s.bucket, s.flags, map[
      DecisionScore := Number(s.decision), AnalysisScore := Number(s.candidate.analysis), AlphaScore := Number(s.alpha),
      ExecutionScore := Number(if s.execution != 0.0 then s.execution else s.candidate.quality),
      TriggerScore := Number(s.trigger), RiskPlan := Dict(s.candidate.riskPlan)])
  }

  /** The first twenty rows are what the language model sees and the guard checks. */
  function Compact(ranked: seq<Scored>): (rows: seq<CandidateRow>)
    ensures |rows| == if |ranked| < 20 then |ranked| else 20
    ensures forall i :: 0 <= i < |rows| ==> rows[i] == RowOf(ranked[i])
  {
    seq(if |ranked| < 20 then |ranked| else 20, i requires 0 <= i < |ranked| => RowOf(ranked[i]))
  }

  function PayloadOf(cs: seq<Candidate>, gex: Gex, g: Gate, now: TimeOfDay, strategies: seq<StrategyRow>, modes: seq<Mode>): Payload {
    Payload(Compact(RankedRows(cs, gex, g, now)), strategies, g.shouldTrade, g.allowAutoTrade, modes)
  }

  /** No two contracts share a symbol, every contract has one and is a call or a put. */
  ghost predicate WellNamed(cs: seq<Candidate>) {
    (forall c <- cs :: c.symbol != "" && c.side != OtherSide) &&
    forall c, d :: c in cs && d in cs && c.symbol == d.symbol ==> c == d
  }

  predicate PlannedRisk(plan: map<Field, Value>) {
    forall f <- [MaxLossPerContract, StopLossPrice, TakeProfit1, TakeProfit2, LatestExit] :: f in plan && !Empty(plan[f])
  }

  /** The hard trigger fired for calls and `c` is one, or for puts and `c` is one. */
  predicate Triggered(c: Candidate, g: Gate) {
    g.trigger.triggered && ((g.trigger.direction == Bullish && c.side == Call) || (g.trigger.direction == Bearish && c.side == Put))
  }

  /** What a single-leg trade in `c` needs of the gate and of the contract. */
  predicate SafeSingleLeg(c: Candidate, g: Gate) {
    g.shouldTrade && g.allowAutoTrade && Triggered(c, g) && Liquid(c)
  }

  lemma OneFieldMissing(fields: map<Field, Value>, f: Field)
    ensures Missing(Dict(fields), [f]) <==> !(f in fields && !Empty(fields[f]))
  {
    assert [f][1..] == [];
  }

  /** A structure passes with score, loss and legs that are not empty and without any of five flags. */
  lemma StrategyPassesIff(row: StrategyRow)
    ensures StrategyPasses(row) <==>
            (forall f <- [Score, MaxLoss, Legs] :: f in row.fields && !Empty(row.fields[f])) &&
            BadLongAsk !in row.flags && ShortLegBidUnavailable !in row.flags && NetPriceInconsistent !in row.flags &&
            NeedsStockBacking !in row.flags && NeedsCashSecured !in row.flags
  {
    OneFieldMissing(row.fields, Score);
    OneFieldMissing(row.fields, MaxLoss);
    OneFieldMissing(row.fields, Legs);
    var r := RequiredOfStrategies;
    assert r[0] == [Score] && r[1] == [MaxLoss] && r[2] == [Legs];
    assert Complete(row.fields, r) <==> !Missing(Dict(row.fields), r[0]) && !Missing(Dict(row.fields), r[1]) && !Missing(Dict(row.fields), r[2]);
  }

  lemma RowIsComplete(s: Scored)
    ensures Complete(RowOf(s).fields, RequiredEvidence) <==> PlannedRisk(s.candidate.riskPlan)
  {
    CompleteIff(RowOf(s).fields, s.candidate.riskPlan);
  }

  /** One symbol, one row. */
  ghost predicate Distinguished(ranked: seq<Scored>) {
    (forall s <- ranked :: s.candidate.symbol != "") &&
    forall s, t :: s in ranked && t in ranked && s.candidate.symbol == t.candidate.symbol ==> s == t
  }

  /** The guard's top contract is the head of a ranking, and looking its symbol up finds it. */
  lemma TopIsHead(ranked: seq<Scored>)
    requires ranked != [] && Descending(ranked) && Distinguished(ranked)
    ensures var rows := Compact(ranked);
            TopContract(rows) == ranked[0].candidate.symbol != "" && Find(rows, ranked[0].candidate.symbol) == Some(RowOf(ranked[0]))
  {
    var rows := Compact(ranked);
    var symbol := ranked[0].candidate.symbol;
    forall k | 0 <= k < |rows|
      ensures RankKey(rows[k]) == ranked[k].decision
    {
    }
    assert Top(rows) == 0;
    assert rows[0] in rows && rows[0].symbol == symbol && ranked[0] in ranked;
    var found := Find(rows, symbol).value;
    var i :| 0 <= i < |rows| && rows[i] == found;
    assert ranked[i] in ranked;
  }

  lemma RankingIsDistinguished(cs: seq<Candidate>, gex: Gex, g: Gate, now: TimeOfDay)
    requires WellNamed(cs)
    ensures Distinguished(RankedRows(cs, gex, g, now))
  {
    RankedScores(cs, gex, g, now);
    var ranked := RankedRows(cs, gex, g, now);
    forall s, t | s in ranked && t in ranked && s.candidate.symbol == t.candidate.symbol
      ensures s == t
    {
      assert s.candidate in cs && t.candidate in cs;
    }
  }

  /** The guard's tests on a scored row, traced back to the contract and the gate. */
  lemma RowPassesIff(c: Candidate, gex: Gex, g: Gate, now: TimeOfDay)
    requires c.side != OtherSide && SoundTrigger(g.trigger)
    ensures SingleLegPasses(RowOf(ScoreOf(c, gex, g, now))) <==>
            PlannedRisk(c.riskPlan) && Liquid(c) && Triggered(c, g)
  {
    var s := ScoreOf(c, gex, g, now);
    TradableIff(c, gex, g, now);
    RowIsComplete(s);
  }

  lemma HeadPasses(cs: seq<Candidate>, gex: Gex, g: Gate, now: TimeOfDay)
    requires cs != [] && WellNamed(cs) && SoundTrigger(g.trigger)
    ensures var ranked := RankedRows(cs, gex, g, now);
            ranked != [] && Descending(ranked) && Distinguished(ranked) &&
            var c := ranked[0].candidate;
            SingleLegPasses(RowOf(ranked[0])) <==>
              PlannedRisk(c.riskPlan) && Liquid(c) && Triggered(c, g)
  {
    RankedScores(cs, gex, g, now);
    RankingIsDistinguished(cs, gex, g, now);
    var head := RankedRows(cs, gex, g, now)[0];
    assert head in RankedRows(cs, gex, g, now);
    RowPassesIff(head.candidate, gex, g, now);
  }

  lemma HeadExecution(ranked: seq<Scored>, a: Answer, p: Payload)
    requires ranked != [] && Descending(ranked) && Distinguished(ranked)
    requires p.candidates == Compact(ranked) && a.selection == SingleLegPick
    ensures Executable(a, p) <==>
            a.action == Trade && EvidencePasses(a.evidence, 3) && !StrategyOnly(p.modes) && p.shouldTrade && p.allowAutoTrade &&
            a.contract == ranked[0].candidate.symbol && SingleLegPasses(RowOf(ranked[0]))
  {
    TopIsHead(ranked);
    var symbol := ranked[0].candidate.symbol;
    if a.contract == symbol {
      assert !SecondChoice(a, p);
      assert Find(p.candidates, a.contract) == Some(RowOf(ranked[0]));
    } else if a.contract == "" {
      assert Find(p.candidates, a.contract) == None;
    } else {
      assert SecondChoice(a, p);
    }
  }

  /** A single-leg answer is executed exactly when it names the head of the ranking, that contract is liquid, carries its
      risk plan and stands on the side of a hard trigger that fired, and the gate allows automatic trades. */
  lemma SingleLegExecution(cs: seq<Candidate>, gex: Gex, g: Gate, now: TimeOfDay, a: Answer, strategies: seq<StrategyRow>, modes: seq<Mode>)
    requires WellNamed(cs) && SoundTrigger(g.trigger) && a.selection == SingleLegPick
    ensures var ranked := RankedRows(cs, gex, g, now);
            Executable(a, PayloadOf(cs, gex, g, now, strategies, modes)) <==>
              a.action == Trade && EvidencePasses(a.evidence, 3) && (modes == [] || SingleLegMode in modes) &&
              ranked != [] && a.contract == ranked[0].candidate.symbol &&
              SafeSingleLeg(ranked[0].candidate, g) && PlannedRisk(ranked[0].candidate.riskPlan)
  {
    var ranked := RankedRows(cs, gex, g, now);
    if cs == [] {
      assert ranked == [];
    } else {
      HeadPasses(cs, gex, g, now);
      HeadExecution(ranked, a, PayloadOf(cs, gex, g, now, strategies, modes));
    }
  }

  ghost predicate HighestScored(c: Candidate, cs: seq<Candidate>, gex: Gex, g: Gate, now: TimeOfDay) {
    forall d <- cs :: ScoreOf(d, gex, g, now).decision <= ScoreOf(c, gex, g, now).decision
  }

  lemma HeadIsHighestScored(cs: seq<Candidate>, gex: Gex, g: Gate, now: TimeOfDay)
    requires cs != []
    ensures var ranked := RankedRows(cs, gex, g, now); ranked != [] && ranked[0].candidate in cs && HighestScored(ranked[0].candidate, cs, gex, g, now)
  {
    RankedScores(cs, gex, g, now);
    var scored, ranked := Scores(cs, gex, g, now), RankedRows(cs, gex, g, now);
    RankedMembers(scored);
    assert ranked[0] in ranked;
    forall d <- cs
      ensures ScoreOf(d, gex, g, now).decision <= ranked[0].decision
    {
      var i :| 0 <= i < |cs| && cs[i] == d;
      ScoresAt(cs, gex, g, now, i);
      assert scored[i] in scored;
    }
  }

  /** The quote of a contract that may be traded, in figures. */
  predicate QuotedInFigures(c: Candidate) {
    c.bid > 0.0 && c.ask > 0.0 && c.spread <= 30.0 && c.quoted && (c.volume >= 100.0 || c.openInterest >= 1000.0)
  }

  /** A row passes with three scores and the five parts of its plan, a tradable bucket, a trigger score of sixty and no flag. */
  lemma SingleLegPassesIff(row: CandidateRow, plan: map<Field, Value>)
    requires RiskPlan in row.fields && row.fields[RiskPlan] == Dict(plan)
    ensures SingleLegPasses(row) <==>
            (forall f <- [DecisionScore, AlphaScore, ExecutionScore] :: f in row.fields && !Empty(row.fields[f])) && PlannedRisk(plan) &&
            (row.bucket == AlphaFirst || row.bucket == ExecutionFirst) && row.flags == [] &&
            TriggerScore in row.fields && row.fields[TriggerScore].Number? && row.fields[TriggerScore].number >= 60.0
  {
    CompleteIff(row.fields, plan);
  }

  lemma CompleteIff(fields: map<Field, Value>, plan: map<Field, Value>)
    requires RiskPlan in fields && fields[RiskPlan] == Dict(plan)
    ensures Complete(fields, RequiredEvidence) <==>
            (forall f <- [DecisionScore, AlphaScore, ExecutionScore] :: f in fields && !Empty(fields[f])) && PlannedRisk(plan)
  {
    OneFieldMissing(fields, DecisionScore);
    OneFieldMissing(fields, AlphaScore);
    OneFieldMissing(fields, ExecutionScore);
    forall f <- [MaxLossPerContract, StopLossPrice, TakeProfit1, TakeProfit2, LatestExit]
      ensures Missing(Dict(fields), [RiskPlan, f]) <==> !(f in plan && !Empty(plan[f]))
    {
      OneFieldMissing(plan, f);
    }
    var r := RequiredEvidence;
    assert r[3] == [RiskPlan, MaxLossPerContract] && r[4] == [RiskPlan, StopLossPrice] && r[5] == [RiskPlan, TakeProfit1]
        && r[6] == [RiskPlan, TakeProfit2] && r[7] == [RiskPlan, LatestExit];
  }

  /** The row of a candidate carries its symbol, bucket and flags, its rounded scores and its plan; the quality stands in for an execution
      score of zero. */
  lemma RowIs(s: Scored)
    ensures var row := RowOf(s);
            row.symbol == s.candidate.symbol && row.bucket == s.bucket && row.flags == s.flags &&
            row.fields.Keys == {DecisionScore, AnalysisScore, AlphaScore, ExecutionScore, TriggerScore, RiskPlan} &&
            row.fields[DecisionScore] == Number(s.decision) && row.fields[AnalysisScore] == Number(s.candidate.analysis) &&
            row.fields[AlphaScore] == Number(s.alpha) && row.fields[TriggerScore] == Number(s.trigger) &&
            row.fields[ExecutionScore] == Number(if s.execution == 0.0 then s.candidate.quality else s.execution) &&
            row.fields[RiskPlan] == Dict(s.candidate.riskPlan)
  {
  }

  /** Of the items only the first twelve are looked at. */
  lemma EvidenceIff(items: seq<bool>, least: nat)
    ensures EvidencePasses(References(items), least) <==>
            |items| >= least && false !in (if |items| > 12 then items[..12] else items)
    ensures !EvidencePasses(NotAList, least)
  {
    var checked := if |items| > 12 then items[..12] else items;
    assert forall i :: 0 <= i < |checked| ==> checked[i] == items[i];
  }

  /** An answer that picks nothing passes when it does not trade and gives some evidence; one that trades or picks something unheard of
      never does. */
  lemma NothingPicked(a: Answer, p: Payload)
    requires a.selection == NoPick || a.selection == OtherPick
    ensures Acceptable(a, p) <==> a.selection == NoPick && (a.action == Observe || a.action == NoTrade) && EvidencePasses(a.evidence, 1)
    ensures !Executable(a, p)
  {
  }

  /** What an executed single leg in `c` has behind it: the gate's permissions, a hard trigger of sixty points or more for its own
      side, a quote without a flag and its whole risk plan. */
  predicate Backed(c: Candidate, g: Gate) {
    g.blockers == [] && g.shouldTrade && g.allowAutoTrade && g.trigger.triggered && g.trigger.score >= 60.0 &&
    (g.trigger.direction == Bullish ==> c.side == Call) && (g.trigger.direction == Bearish ==> c.side == Put) &&
    g.trigger.direction != Neutral && QuotedInFigures(c) &&
    forall f <- [MaxLossPerContract, StopLossPrice, TakeProfit1, TakeProfit2, LatestExit] ::
      f in c.riskPlan && c.riskPlan[f] !in {Null, Text(""), Items(0), Dict(map[])}
  }

  lemma SafeIsBacked(m: Market, low: bool, c: Candidate)
    requires SafeSingleLeg(c, GateOf(m, low)) && PlannedRisk(c.riskPlan)
    ensures Backed(c, GateOf(m, low))
  {
    BlockersStopTrading(m, low);
  }

  /** Whatever the model answers and whatever the market does, an executed single leg is the one of the highest decision score, and
      has all that behind it. */
  lemma ExecutedSingleLegIsSafe(m: Market, low: bool, cs: seq<Candidate>, now: TimeOfDay, a: Answer, strategies: seq<StrategyRow>, modes: seq<Mode>)
    requires WellNamed(cs) && a.selection == SingleLegPick
    requires Executable(a, PayloadOf(cs, m.gex, GateOf(m, low), now, strategies, modes))
    ensures var g := GateOf(m, low);
            exists c :: c in cs && c.symbol == a.contract && SafeSingleLeg(c, g) && Backed(c, g) && HighestScored(c, cs, m.gex, g, now)
  {
    var g := GateOf(m, low);
    SingleLegExecution(cs, m.gex, g, now, a, strategies, modes);
    HeadIsHighestScored(cs, m.gex, g, now);
    SafeIsBacked(m, low, RankedRows(cs, m.gex, g, now)[0].candidate);
  }

  /** Two gates that differ in the single-leg permission alone rank the same contract first. */
  lemma SameHead(cs: seq<Candidate>, gex: Gex, g: Gate, now: TimeOfDay)
    ensures var on, off := RankedRows(cs, gex, g.(allowSingleLeg := true), now), RankedRows(cs, gex, g.(allowSingleLeg := false), now);
            |on| == |off| && (on != [] ==> on[0].candidate == off[0].candidate)
  {
    SingleLegFlagKeepsTheOrder(cs, gex, g, now);
  }

  /** The gate's own single-leg permission is not among the conditions: withdrawing it changes no verdict. */
  lemma SingleLegPermissionIsIgnored(cs: seq<Candidate>, gex: Gex, g: Gate, now: TimeOfDay, a: Answer, strategies: seq<StrategyRow>, modes: seq<Mode>)
    requires WellNamed(cs) && SoundTrigger(g.trigger) && a.selection == SingleLegPick
    ensures Executable(a, PayloadOf(cs, gex, g.(allowSingleLeg := true), now, strategies, modes)) <==>
            Executable(a, PayloadOf(cs, gex, g.(allowSingleLeg := false), now, strategies, modes))
  {
    var on, off := g.(allowSingleLeg := true), g.(allowSingleLeg := false);
    SameHead(cs, gex, g, now);
    SingleLegExecution(cs, gex, on, now, a, strategies, modes);
    SingleLegExecution(cs, gex, off, now, a, strategies, modes);
    if RankedRows(cs, gex, on, now) != [] {
      var c := RankedRows(cs, gex, on, now)[0].candidate;
      assert SafeSingleLeg(c, on) == SafeSingleLeg(c, off);
    }
  }

  /** What the gate reads of a candidate that is scored later. */
  function GateRow(c: Candidate): Row {
    Row(c.quality, c.spread, c.ivPercentile, c.probability, c.rewardRisk)
  }

  function GateRows(cs: seq<Candidate>): seq<Row> {
    if cs == [] then [] else [GateRow(cs[0])] + GateRows(cs[1..])
  }

  /** So a market whose votes are split still executes a single leg that the gate itself disallows: the gate saw the very
      candidate that is traded. */
  lemma SplitVotesStillExecute() returns (m: Market, c: Candidate, a: Answer, now: TimeOfDay)
    ensures Summarises(m, GateRows([c]))
    ensures !GateOf(m, false).allowSingleLeg && WellNamed([c]) && a.selection == SingleLegPick
    ensures Executable(a, PayloadOf([c], m.gex, GateOf(m, false), now, [], []))
  {
    c := LiquidCall();
    m := SplitMarket(GateRow(c));
    OneGateRow(c);
    a := Answer(Trade, SingleLegPick, c.symbol, "", References([true, true, true]));
    now := TimeOfDay(10, 0);
    ExecutesIn(m, c, now, a);
  }

  lemma OneGateRow(c: Candidate)
    ensures GateRows([c]) == [GateRow(c)]
  {
    assert [c][1..] == [] && [GateRow(c)] + [] == [GateRow(c)];
  }

  lemma ExecutesIn(m: Market, c: Candidate, now: TimeOfDay, a: Answer)
    requires ShouldTrade(m, false) && AllowsAuto(m, false) && TriggerOf(m) == Trigger(true, 65.0, Bullish)
    requires Liquid(c) && PlannedRisk(c.riskPlan) && c.symbol != "" && c.side == Call
    requires a == Answer(Trade, SingleLegPick, c.symbol, "", References([true, true, true]))
    ensures WellNamed([c]) && Executable(a, PayloadOf([c], m.gex, GateOf(m, false), now, [], []))
  {
    ExecutesAlone(c, m.gex, GateOf(m, false), now, a);
  }

  lemma LiquidCall() returns (c: Candidate)
    ensures Liquid(c) && PlannedRisk(c.riskPlan) && c.symbol != "" && c.side == Call && GateRow(c) == Row(80.0, 9.0, 50.0, 40.0, 10.0)
  {
    var plan := map[MaxLossPerContract := Number(1.0), StopLossPrice := Number(1.0), TakeProfit1 := Number(1.0),
                    TakeProfit2 := Number(1.0), LatestExit := Text("15:45")];
    c := Candidate("SPY", Call, 1.91, 2.09, 9.0, 500.0, 5000.0, true, 10.0, 10.0, 0.0, 0.0, 0.0, true, 80.0, 50.0, 10.0, 5.0, 40.0, NoAlignment, plan);
  }

  /** Opening range, VWAP and EMA fire the trigger, but only two of the six votes are bullish. */
  lemma SplitMarket(r: Row) returns (m: Market)
    requires r == Row(80.0, 9.0, 50.0, 40.0, 10.0)
    ensures ShouldTrade(m, false) && AllowsAuto(m, false) && !AllowsSingleLeg(m, false) && TriggerOf(m) == Trigger(true, 65.0, Bullish)
    ensures Summarises(m, [r])
  {
    m := Market(Neutral, 0.0, 0.0, 0.0, 1.0, 0, 0, BullSignal, BullSignal, BullSignal, NoSignal, OtherGex, 0.0, 1, 80.0, 9.0, 50.0, 40.0, 10.0);
    SummaryOfOne(m, r);
    SplitVotes(m);
  }

  lemma ExecutesAlone(c: Candidate, gex: Gex, g: Gate, now: TimeOfDay, a: Answer)
    requires SoundTrigger(g.trigger) && SafeSingleLeg(c, g) && PlannedRisk(c.riskPlan) && c.symbol != "" && c.side != OtherSide
    requires a.selection == SingleLegPick && a.action == Trade && a.contract == c.symbol && EvidencePasses(a.evidence, 3)
    ensures WellNamed([c]) && Executable(a, PayloadOf([c], gex, g, now, [], []))
  {
    SingleLegExecution([c], gex, g, now, a, [], []);
    HeadIsHighestScored([c], gex, g, now);
  }

  lemma SplitVotes(m: Market)
    requires Votes(m) == [Neutral, Neutral, Bullish, Bullish, Neutral, Neutral]
    ensures Majority(m) == Neutral
  {
    CountSix(Neutral, Neutral, Bullish, Bullish, Neutral, Neutral, Bullish);
    CountSix(Neutral, Neutral, Bullish, Bullish, Neutral, Neutral, Bearish);
    CountSix(Neutral, Neutral, Bullish, Bullish, Neutral, Neutral, Neutral);
  }
}
