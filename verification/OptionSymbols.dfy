/** Parsing and printing option symbols (`option_symbol_utils.py`), over ASCII letters and digits. A symbol is read by its first
    marker, six digits and a C or P; what stands before it is the root, what follows it the strike. */
module OptionSymbols {
  import opened Options
  import opened Text
  import opened Digits

  /** A contract: root, yymmdd, C or P, strike in thousandths of a dollar. */
  datatype Symbol = Symbol(root: string, expiry: string, side: char, millis: nat)

  // ----- Printing -----

  function Head(p: Symbol): string {
    p.root + p.expiry + [p.side]
  }

  function OccSymbol(p: Symbol): string {
    Head(p) + Padded(p.millis)
  }

  function LongbridgeSymbol(p: Symbol): string {
    Head(p) + Decimal(p.millis) + ".US"
  }

  // ----- Parsing -----

  function UpperChar(c: char): char {
    if 'a' <= c <= 'z' then c - ' ' else c
  }

  function Upper(s: string): (r: string)
    ensures |r| == |s| && forall i :: 0 <= i < |s| ==> r[i] == UpperChar(s[i])
  {
    seq(|s|, i requires 0 <= i < |s| => UpperChar(s[i]))
  }

  /** `removesuffix(".US")` */
  function WithoutMarket(s: string): string {
    if |s| >= 3 && s[|s| - 3..] == ".US" then s[..|s| - 3] else s
  }

  /** `"".join(s.split())` */
  function Compact(s: string): string {
    if s == [] then "" else Visible(s[0]) + Compact(s[1..])
  }

  function Visible(c: char): string {
    if IsSpace(c) then "" else [c]
  }

  predicate Marker(s: string, i: nat) {
    i + 6 < |s| && AllDigits(s[i..i + 6]) && (s[i + 6] == 'C' || s[i + 6] == 'P')
  }

  /** The first marker at `i` or after it that leaves room for a three-digit strike. */
  function FirstMarker(s: string, i: nat): (m: int)
    ensures -1 <= m
    ensures m >= 0 ==> i <= m < |s| - 9 && Marker(s, m) && forall k :: i <= k < m ==> !Marker(s, k)
    ensures m < 0 ==> forall k :: i <= k < |s| - 9 ==> !Marker(s, k)
    decreases |s| - i
  {
    if i >= |s| - 9 then -1 else if Marker(s, i) then i else FirstMarker(s, i + 1)
  }

  function ParseCompact(c: string): Option<Symbol> {
    var m := FirstMarker(c, 0);
    if m < 1 || !AllDigits(c[m + 7..]) then None
    else Some(Symbol(c[..m], c[m..m + 6], c[m + 6], Value(c[m + 7..])))
  }

  function Parse(value: string): Option<Symbol> {
    ParseCompact(Compact(WithoutMarket(Upper(Trim(value)))))
  }

  method FindMarker(compact: string) returns (marker: int)
    ensures marker == FirstMarker(compact, 0)
  {
    marker := -1;
    var index := 0;
    while index < |compact| - 9
      invariant 0 <= index && marker == -1 && FirstMarker(compact, 0) == FirstMarker(compact, index)
    {
      if Marker(compact, index) {
        marker := index;
        break;
      }
      index := index + 1;
    }
  }

  method ParseOptionSymbol(value: string) returns (parsed: Option<Symbol>)
    ensures parsed == Parse(value)
  {
    var text := Upper(Trim(value));
    if text == "" {
      return None;
    }
    if |text| >= 3 && text[|text| - 3..] == ".US" {
      text := text[..|text| - 3];
    }
    var compact := Compact(text);
    var marker := FindMarker(compact);
    if marker < 1 {
      return None;
    }
    if !AllDigits(compact[marker + 7..]) {
      return None;
    }
    parsed := Some(Symbol(compact[..marker], compact[marker..marker + 6], compact[marker + 6], Value(compact[marker + 7..])));
  }

  // ----- Normal texts -----

  /** No space and no lower-case letter. */
  predicate Normal(s: string) {
    forall i :: 0 <= i < |s| ==> !IsSpace(s[i]) && UpperChar(s[i]) == s[i]
  }

  predicate HasMarket(s: string) {
    |s| >= 3 && s[|s| - 3..] == ".US"
  }

  lemma {:induction false} CompactIsNormal(s: string)
    requires forall i :: 0 <= i < |s| ==> UpperChar(s[i]) == s[i]
    ensures Normal(Compact(s))
  {
    if s != [] {
      CompactIsNormal(s[1..]);
    }
  }

  lemma {:induction false} NormalIsCompact(s: string)
    requires Normal(s)
    ensures Compact(s) == s
  {
    if s != [] {
      NormalIsCompact(s[1..]);
    }
  }

  lemma NormalIsUpper(s: string)
    requires Normal(s)
    ensures Upper(s) == s && Trim(s) == s
  {
  }

  /** A normal text without a market suffix is parsed as it stands; the suffix changes nothing. */
  lemma ParseNormal(s: string)
    requires Normal(s) && !HasMarket(s)
    ensures Parse(s) == ParseCompact(s) && Parse(s + ".US") == ParseCompact(s)
  {
    NormalIsUpper(s);
    NormalIsCompact(s);
    var t := s + ".US";
    assert Normal(t);
    NormalIsUpper(t);
    assert t[|t| - 3..] == ".US" && t[..|t| - 3] == s;
  }

  // ----- Round trips -----

  /** Head and marker of a parsed text: the first marker stands at the end of the root. */
  ghost predicate Wellformed(p: Symbol) {
    p.root != [] && |p.expiry| == 6 && AllDigits(p.expiry) && (p.side == 'C' || p.side == 'P') && Normal(Head(p)) &&
    forall k :: 0 <= k < |p.root| ==> !Marker(Head(p), k)
  }

  lemma MarkerOfPrefix(a: string, b: string, k: nat)
    requires k + 6 < |a|
    ensures Marker(a + b, k) == Marker(a, k)
  {
    assert (a + b)[k..k + 6] == a[k..k + 6];
  }

  lemma CompactIsWellformed(c: string)
    requires Normal(c) && ParseCompact(c).Some?
    ensures Wellformed(ParseCompact(c).value)
  {
    var m := FirstMarker(c, 0);
    var p := ParseCompact(c).value;
    assert Head(p) == c[..m + 7];
    assert c == Head(p) + c[m + 7..];
    forall k | 0 <= k < |p.root|
      ensures !Marker(Head(p), k)
    {
      MarkerOfPrefix(Head(p), c[m + 7..], k);
    }
  }

  lemma ParsedIsWellformed(value: string)
    requires Parse(value).Some?
    ensures Wellformed(Parse(value).value)
  {
    var text := WithoutMarket(Upper(Trim(value)));
    CompactIsNormal(text);
    CompactIsWellformed(Compact(text));
  }

  /** A contract's head with any strike digits parses exactly when there are three of them or more. */
  lemma HeadParses(p: Symbol, code: string)
    requires Wellformed(p) && AllDigits(code)
    ensures ParseCompact(Head(p) + code) == if |code| >= 3 then Some(p.(millis := Value(code))) else None
  {
    MarkerAfterRoot(p, code);
    HeadParts(p, code);
  }

  lemma HeadMarks(p: Symbol)
    requires Wellformed(p)
    ensures Marker(Head(p), |p.root|) && |Head(p)| == |p.root| + 7
  {
    var m := |p.root|;
    assert Head(p)[m..m + 6] == p.expiry && Head(p)[m + 6] == p.side;
  }

  lemma OnlyMarker(c: string, m: nat)
    requires m + 6 < |c| && Marker(c, m) && forall k :: 0 <= k < m ==> !Marker(c, k)
    ensures FirstMarker(c, 0) == if m < |c| - 9 then m else -1
  {
    var first := FirstMarker(c, 0);
    if first >= 0 {
      assert Marker(c, first) && !(first < m) && !(m < first);
    }
  }

  lemma MarkerAfterRoot(p: Symbol, code: string)
    requires Wellformed(p)
    ensures FirstMarker(Head(p) + code, 0) == if |code| >= 3 then |p.root| else -1
  {
    var m, c := |p.root|, Head(p) + code;
    HeadMarks(p);
    forall k | 0 <= k <= m
      ensures Marker(c, k) == Marker(Head(p), k)
    {
      MarkerOfPrefix(Head(p), code, k);
    }
    OnlyMarker(c, m);
  }

  lemma HeadParts(p: Symbol, code: string)
    requires |p.expiry| == 6
    ensures var c, m := Head(p) + code, |p.root|;
            |c| == m + 7 + |code| && c[..m] == p.root && c[m..m + 6] == p.expiry && c[m + 6] == p.side && c[m + 7..] == code
  {
  }

  lemma DigitsAreNormal(p: Symbol, code: string)
    requires Wellformed(p) && AllDigits(code) && code != []
    ensures Normal(Head(p) + code) && !HasMarket(Head(p) + code)
  {
    var c := Head(p) + code;
    assert c[|c| - 1] == code[|code| - 1];
  }

  /** Any text that parses, printed in OCC form, parses to the same contract. */
  lemma OccRoundTrip(value: string)
    requires Parse(value).Some?
    ensures Parse(OccSymbol(Parse(value).value)) == Parse(value)
  {
    var p := Parse(value).value;
    ParsedIsWellformed(value);
    DigitsAreNormal(p, Padded(p.millis));
    ParseNormal(OccSymbol(p));
    HeadParses(p, Padded(p.millis));
    PaddedHasValue(p.millis);
  }

  /** The Longbridge form is read back exactly from a strike of ten cents on; below, it is not an option symbol at all. */
  lemma LongbridgeRoundTrip(value: string)
    requires Parse(value).Some?
    ensures var p := Parse(value).value; Parse(LongbridgeSymbol(p)) == if p.millis >= 100 then Some(p) else None
  {
    var p := Parse(value).value;
    var code := Decimal(p.millis);
    ParsedIsWellformed(value);
    DigitsAreNormal(p, code);
    ParseNormal(Head(p) + code);
    HeadParses(p, code);
    DecimalHasValue(p.millis);
    ThreeDigits(p.millis);
  }

  // ----- Converters -----

  function ForLongbridge(value: string): string {
    if Parse(value).Some? then LongbridgeSymbol(Parse(value).value) else Trim(value)
  }

  function ForOcc(value: string): string {
    if Parse(value).Some? then OccSymbol(Parse(value).value)
    else if HasMarket(Upper(Trim(value))) then Trim(value)[..|Trim(value)| - 3]
    else Trim(value)
  }

  lemma TrimTwice(s: string)
    ensures Trim(Trim(s)) == Trim(s)
  {
    StripBares(s, IsSpace);
  }

  /** Through Longbridge and on to OCC is the same as straight to OCC, for every text but an option struck below ten cents. */
  lemma LongbridgeThenOcc(value: string)
    ensures ForOcc(ForLongbridge(value)) == ForOcc(value) <==> (Parse(value).Some? ==> Parse(value).value.millis >= 100)
  {
    TrimTwice(value);
    if Parse(value).Some? {
      var p := Parse(value).value;
      LongbridgeRoundTrip(value);
      if p.millis < 100 {
        ShortStrikeKeepsItsDigits(value);
      }
    }
  }

  lemma ShortStrikeKeepsItsDigits(value: string)
    requires Parse(value).Some? && Parse(value).value.millis < 100
    ensures ForOcc(LongbridgeSymbol(Parse(value).value)) == Head(Parse(value).value) + Decimal(Parse(value).value.millis)
    ensures ForOcc(LongbridgeSymbol(Parse(value).value)) != OccSymbol(Parse(value).value)
  {
    var p := Parse(value).value;
    var text := LongbridgeSymbol(p);
    LongbridgeRoundTrip(value);
    ParsedIsWellformed(value);
    LongbridgeSuffix(p);
    NormalIsUpper(text);
    ThreeDigits(p.millis);
    assert |OccSymbol(p)| > |Head(p) + Decimal(p.millis)|;
  }

  lemma LongbridgeSuffix(p: Symbol)
    requires Wellformed(p)
    ensures var text := LongbridgeSymbol(p);
            Normal(text) && HasMarket(text) && text[..|text| - 3] == Head(p) + Decimal(p.millis)
  {
    var code := Head(p) + Decimal(p.millis);
    DigitsAreNormal(p, Decimal(p.millis));
    assert LongbridgeSymbol(p)[|code|..] == ".US";
  }

  /** The names an option is looked up by: the text itself, both printed forms, and each without its market. */
  predicate IsAlias(s: string, value: string) {
    var text := Upper(Trim(value));
    s != "" &&
    (s == text || s == WithoutMarket(text) ||
     (Parse(text).Some? && var p := Parse(text).value;
      s == OccSymbol(p) || s == LongbridgeSymbol(p) || s == WithoutMarket(LongbridgeSymbol(p))))
  }

  lemma UpperTwice(s: string)
    ensures Upper(Upper(s)) == Upper(s)
  {
  }

  lemma UpperIsBare(s: string)
    requires Bare(s, IsSpace)
    ensures Bare(Upper(s), IsSpace)
  {
  }

  lemma ParseOfUpper(value: string)
    ensures Parse(Upper(Trim(value))) == Parse(value)
  {
    StripBares(value, IsSpace);
    UpperIsBare(Trim(value));
    UpperTwice(Trim(value));
  }

  lemma Regroup(a: string, b: string, c: string)
    ensures a + (b + c) == (a + b) + c
  {
  }

  lemma {:induction false} CompactAppend(a: string, b: string)
    ensures Compact(a + b) == Compact(a) + Compact(b)
  {
    if a == [] {
      assert a + b == b;
    } else {
      CompactAppend(a[1..], b);
      assert (a + b)[1..] == a[1..] + b;
      Regroup(Visible(a[0]), Compact(a[1..]), Compact(b));
    }
  }

  lemma CompactEnd(s: string)
    requires s != [] && !IsSpace(s[|s| - 1])
    ensures Compact(s) != [] && Compact(s)[|Compact(s)| - 1] == s[|s| - 1]
  {
    var last := s[|s| - 1];
    assert s == s[..|s| - 1] + [last];
    CompactAppend(s[..|s| - 1], [last]);
    assert [last][1..] == [] && Compact([last]) == [last] + [];
  }

  predicate AllUpper(s: string) {
    forall i :: 0 <= i < |s| ==> UpperChar(s[i]) == s[i]
  }

  lemma {:induction false} StripLeftSpace(s: string)
    ensures Compact(StripLeft(s, IsSpace)) == Compact(s) && (AllUpper(s) ==> AllUpper(StripLeft(s, IsSpace)))
  {
    if s != [] && IsSpace(s[0]) {
      StripLeftSpace(s[1..]);
    }
  }

  lemma {:induction false} StripRightSpace(s: string)
    ensures Compact(StripRight(s, IsSpace)) == Compact(s) && (AllUpper(s) ==> AllUpper(StripRight(s, IsSpace)))
  {
    if s != [] && IsSpace(s[|s| - 1]) {
      var last := s[|s| - 1];
      StripRightSpace(s[..|s| - 1]);
      assert s == s[..|s| - 1] + [last];
      CompactAppend(s[..|s| - 1], [last]);
      assert Compact([last]) == [];
    }
  }

  /** A text without capitals to make whose compact form ends in a digit is parsed by its compact form. */
  lemma ParseByCompact(s: string)
    requires AllUpper(s) && Compact(s) != [] && IsDigit(Compact(s)[|Compact(s)| - 1])
    ensures Parse(s) == ParseCompact(Compact(s))
  {
    var t := Trim(s);
    StripLeftSpace(s);
    StripRightSpace(StripLeft(s, IsSpace));
    assert Upper(t) == t && Compact(t) == Compact(s);
    StripBares(s, IsSpace);
    CompactEnd(t);
    MarketEndsInS(t);
  }

  lemma MarketEndsInS(s: string)
    ensures HasMarket(s) ==> s[|s| - 1] == 'S'
  {
    if HasMarket(s) {
      assert s[|s| - 1] == s[|s| - 3..][2];
    }
  }

  /** Every alias of an option struck at ten cents or more stands for the same contract. */
  lemma AliasesAgree(value: string, s: string)
    requires Parse(value).Some? && Parse(value).value.millis >= 100 && IsAlias(s, value)
    ensures Parse(s) == Parse(value)
  {
    var text, p := Upper(Trim(value)), Parse(value).value;
    ParseOfUpper(value);
    if s != text {
      if s == WithoutMarket(text) {
        AliasWithoutMarket(value);
      } else if s == OccSymbol(p) {
        OccRoundTrip(value);
      } else if s == LongbridgeSymbol(p) {
        LongbridgeRoundTrip(value);
      } else {
        BareLongbridge(value);
      }
    }
  }

  lemma BareLongbridge(value: string)
    requires Parse(value).Some? && Parse(value).value.millis >= 100
    ensures Parse(WithoutMarket(LongbridgeSymbol(Parse(value).value))) == Parse(value)
  {
    var p := Parse(value).value;
    var code := Decimal(p.millis);
    ParsedIsWellformed(value);
    LongbridgeSuffix(p);
    DigitsAreNormal(p, code);
    ParseNormal(Head(p) + code);
    HeadParses(p, code);
    DecimalHasValue(p.millis);
    ThreeDigits(p.millis);
  }

  lemma AliasWithoutMarket(value: string)
    requires Parse(value).Some?
    ensures Parse(WithoutMarket(Upper(Trim(value)))) == Parse(value)
  {
    var text := WithoutMarket(Upper(Trim(value)));
    var c := Compact(text);
    var m := FirstMarker(c, 0);
    assert c[|c| - 1] == c[m + 7..][|c| - 1 - (m + 7)];
    ParseByCompact(text);
  }

  // ----- How a symbol is written -----

  /** A letter from a to z and the capital of the same letter, 32 places before it. */
  predicate IsCapitalOf(c: char, small: char) {
    97 <= small as int <= 122 && c as int == small as int - 32
  }

  lemma CapitalIff(c: char, small: char)
    ensures IsCapitalOf(c, small) ==> UpperChar(small) == c == UpperChar(c)
    ensures UpperChar(small) != small ==> IsCapitalOf(UpperChar(small), small)
  {
  }

  lemma UpperAt(s: string, i: nat, j: nat)
    requires i <= j <= |s|
    ensures Upper(s[i..j]) == Upper(s)[i..j]
  {
  }

  lemma {:induction false} UpperStripsLeft(s: string)
    ensures StripLeft(Upper(s), IsSpace) == Upper(StripLeft(s, IsSpace))
  {
    if s != [] && IsSpace(s[0]) {
      UpperAt(s, 1, |s|);
      assert s[1..|s|] == s[1..] && Upper(s)[1..|s|] == Upper(s)[1..];
      UpperStripsLeft(s[1..]);
    }
  }

  lemma {:induction false} UpperStripsRight(s: string)
    ensures StripRight(Upper(s), IsSpace) == Upper(StripRight(s, IsSpace))
  {
    if s != [] {
      UpperAt(s, 0, |s| - 1);
      UpperStripsRight(s[..|s| - 1]);
    }
  }

  /** Capitals and small letters are read alike. */
  lemma CaseIsIgnored(s: string, t: string)
    requires |s| == |t| && forall i :: 0 <= i < |s| ==> s[i] == t[i] || IsCapitalOf(s[i], t[i]) || IsCapitalOf(t[i], s[i])
    ensures Parse(s) == Parse(t)
  {
    forall i | 0 <= i < |s|
      ensures UpperChar(s[i]) == UpperChar(t[i])
    {
      CapitalIff(s[i], t[i]);
      CapitalIff(t[i], s[i]);
    }
    assert Upper(s) == Upper(t);
    UpperStripsLeft(s);
    UpperStripsLeft(t);
    UpperStripsRight(StripLeft(s, IsSpace));
    UpperStripsRight(StripLeft(t, IsSpace));
  }

  /** White space inside a symbol is left out, unless it parts the market. */
  lemma SpaceIsIgnored(a: string, space: char, b: string)
    requires a != "" && |b| >= 3 && IsSpace(space) && Bare(a + b, IsSpace)
    ensures Parse(a + [space] + b) == Parse(a + b)
  {
    var s, t := a + [space] + b, a + b;
    assert s[0] == a[0] && t[0] == a[0] && s[|s| - 1] == t[|t| - 1];
    BareIsTrimmed(s);
    BareIsTrimmed(t);
    assert Upper(s) == Upper(a) + [space] + Upper(b) && Upper(t) == Upper(a) + Upper(b);
    MarketOfEnd(Upper(a) + [space], Upper(b));
    MarketOfEnd(Upper(a), Upper(b));
    CompactSkips(Upper(a), space, WithoutMarket(Upper(b)));
  }

  lemma BareIsTrimmed(s: string)
    requires Bare(s, IsSpace)
    ensures Trim(s) == s
  {
  }

  lemma MarketOfEnd(a: string, b: string)
    requires |b| >= 3
    ensures WithoutMarket(a + b) == a + WithoutMarket(b)
  {
    var s := a + b;
    assert s[|s| - 3..] == b[|b| - 3..];
    if HasMarket(b) {
      assert s[..|s| - 3] == a + b[..|b| - 3];
    }
  }

  lemma CompactSkips(a: string, space: char, b: string)
    requires IsSpace(space)
    ensures Compact(a + [space] + b) == Compact(a + b)
  {
    CompactAppend(a + [space], b);
    CompactAppend(a, [space]);
    CompactAppend(a, b);
    assert [space][1..] == "" && Compact([space]) == Visible(space) + Compact("");
    assert Compact(a) + "" == Compact(a);
  }
}
