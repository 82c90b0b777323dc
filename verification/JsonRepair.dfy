/** The quote repair before JSON parsing (`ai_decision_guard.py`). */
module JsonRepair {
  import opened Text

  function SkipSpace(s: string): (r: string)
    ensures |r| <= |s| && (r != [] ==> !IsSpace(r[0]))
  {
    if s != [] && IsSpace(s[0]) then SkipSpace(s[1..]) else s
  }

  /** What follows a closing quote: a colon, a comma, a closing bracket or the end of the text. */
  predicate Closes(rest: string) {
    var r := SkipSpace(rest);
    r == [] || r[0] == ':' || r[0] == ',' || r[0] == '}' || r[0] == ']'
  }

  /** The repair of a text that is read from inside or outside a string, right after a backslash or not. */
  function Repair(s: string, inString: bool, escaped: bool): string {
    if s == [] then []
    else if escaped then [s[0]] + Repair(s[1..], inString, false)
    else if s[0] == '\\' && inString then [s[0]] + Repair(s[1..], true, true)
    else if s[0] != '"' then [s[0]] + Repair(s[1..], inString, false)
    else if !inString then [s[0]] + Repair(s[1..], true, false)
    else if Closes(s[1..]) then [s[0]] + Repair(s[1..], false, false)
    else "\\\"" + Repair(s[1..], true, false)
  }

  lemma RepairPasses(c: char, tail: string, inString: bool)
    ensures Repair([c] + tail, inString, true) == [c] + Repair(tail, inString, false)
  {
    assert ([c] + tail)[1..] == tail;
  }

  lemma RepairBackslash(tail: string)
    ensures Repair(['\\'] + tail, true, false) == ['\\'] + Repair(tail, true, true)
  {
    assert (['\\'] + tail)[1..] == tail;
  }

  method SkipsToCloser(text: string, start: nat) returns (closes: bool)
    requires start <= |text|
    ensures closes == Closes(text[start..])
  {
    var next := start;
    while next < |text| && IsSpace(text[next])
      invariant start <= next <= |text|
      invariant SkipSpace(text[next..]) == SkipSpace(text[start..])
    {
      assert text[next..][1..] == text[next + 1..];
      next := next + 1;
    }
    closes := next == |text| || text[next] == ':' || text[next] == ',' || text[next] == '}' || text[next] == ']';
  }

  /** The character loop with its two flags. */
  method EscapeLikelyUnescapedQuotes(text: string) returns (output: string)
    ensures output == Repair(text, false, false)
  {
    output := [];
    var inString, escaped := false, false;
    for index := 0 to |text|
      invariant escaped ==> inString
      invariant output + Repair(text[index..], inString, escaped) == Repair(text, false, false)
    {
      var c, tail := text[index], text[index + 1..];
      assert text[index..] == [c] + tail;
      if escaped {
        RepairPasses(c, tail, inString);
        Assoc(output, [c], Repair(tail, inString, false));
        output := output + [c];
        escaped := false;
        continue;
      }
      if c == '\\' && inString {
        RepairBackslash(tail);
        Assoc(output, [c], Repair(tail, true, true));
        output := output + [c];
        escaped := true;
        continue;
      }
      if c != '"' {
        Assoc(output, [c], Repair(tail, inString, false));
        output := output + [c];
        continue;
      }
      if !inString {
        Assoc(output, [c], Repair(tail, true, false));
        output := output + [c];
        inString := true;
        continue;
      }
      var closes := SkipsToCloser(text, index + 1);
      if closes {
        Assoc(output, [c], Repair(tail, false, false));
        output := output + [c];
        inString := false;
      } else {
        Assoc(output, "\\\"", Repair(tail, true, false));
        output := output + "\\\"";
      }
    }
  }

  lemma Assoc(a: string, b: string, c: string)
    ensures (a + b) + c == a + (b + c)
  {
  }

  // ----- On every text -----

  /** `after` is `before` with a backslash put in front of some of its quotes. */
  predicate OnlyEscapesQuotes(before: string, after: string) {
    if before == [] then after == []
    else
      (after != [] && after[0] == before[0] && OnlyEscapesQuotes(before[1..], after[1..])) ||
      (before[0] == '"' && |after| >= 2 && after[..2] == "\\\"" && OnlyEscapesQuotes(before[1..], after[2..]))
  }

  lemma {:induction false} RepairOnlyEscapesQuotes(s: string, inString: bool, escaped: bool)
    ensures OnlyEscapesQuotes(s, Repair(s, inString, escaped))
  {
    if s != [] {
      RepairOnlyEscapesQuotes(s[1..], inString, false);
      RepairOnlyEscapesQuotes(s[1..], true, true);
      RepairOnlyEscapesQuotes(s[1..], true, false);
      RepairOnlyEscapesQuotes(s[1..], false, false);
      var r := Repair(s, inString, escaped);
      if r[0] != s[0] {
        assert r[2..] == Repair(s[1..], true, false);
      }
    }
  }

  /** Outside strings nothing is inserted before the next visible character, so what closed a string still closes it. */
  lemma {:induction false} ClosesAfterRepair(s: string)
    ensures Closes(Repair(s, false, false)) == Closes(s)
  {
    if s != [] && IsSpace(s[0]) {
      ClosesAfterRepair(s[1..]);
      assert Repair(s, false, false)[1..] == Repair(s[1..], false, false);
    }
  }

  /** Repairing a repaired text changes nothing. */
  lemma {:induction false} RepairIsIdempotent(s: string, inString: bool, escaped: bool)
    ensures Repair(Repair(s, inString, escaped), inString, escaped) == Repair(s, inString, escaped)
    decreases |s|, true
  {
    if s != [] {
      var c, tail := s[0], s[1..];
      if escaped {
        RepairIsIdempotent(tail, inString, false);
        RepairPasses(c, Repair(tail, inString, false), inString);
      } else if c == '\\' && inString {
        RepairIsIdempotent(tail, true, true);
        RepairBackslash(Repair(tail, true, true));
      } else if c != '"' {
        RepairIsIdempotent(tail, inString, false);
      } else {
        assert s == "\"" + tail;
        QuoteIsIdempotent(tail, inString);
      }
    }
  }

  lemma {:induction false} QuoteIsIdempotent(tail: string, inString: bool)
    ensures Repair(Repair("\"" + tail, inString, false), inString, false) == Repair("\"" + tail, inString, false)
    decreases |tail| + 1, false
  {
    if inString && Closes(tail) {
      RepairIsIdempotent(tail, false, false);
      ClosesAfterRepair(tail);
    } else {
      var r := Repair(tail, true, false);
      RepairIsIdempotent(tail, true, false);
      if inString {
        RepairBackslash("\"" + r);
        RepairPasses('"', r, true);
        assert "\\\"" + r == ['\\'] + ("\"" + r);
      }
    }
  }

  // ----- JSON texts, as written and as meant -----

  /** One character of a string: itself, an escape, or a quote that should have been escaped. */
  datatype Item = Plain(c: char) | Escape(c: char) | RawQuote

  datatype Json =
    | Scalar(token: string)
    | Text(items: seq<Item>)
    | Array(elements: Elements)
    | Object(members: Members)

  /** White space, or an element with the white space around it and what follows. */
  datatype Elements = NoElements(space: string) | Element(before: string, value: Json, after: string, rest: Elements) | EndOfArray

  datatype Members = NoMembers(space: string) | Member(before: string, key: seq<Item>, middle: string, colon: string, value: Json, after: string, rest: Members) | EndOfObject

  function Items(items: seq<Item>, meant: bool): string {
    if items == [] then []
    else
      (match items[0]
       case Plain(c) => [c]
       case Escape(c) => ['\\', c]
       case RawQuote => if meant then "\\\"" else "\"") + Items(items[1..], meant)
  }

  function Quoted(items: seq<Item>, meant: bool): string {
    "\"" + Items(items, meant) + "\""
  }

  /** The text of a value, with its raw quotes as written or escaped as meant. */
  function Render(v: Json, meant: bool): string {
    match v
    case Scalar(token) => token
    case Text(items) => Quoted(items, meant)
    case Array(first) => "[" + RenderElements(first, false, meant) + "]"
    case Object(first) => "{" + RenderMembers(first, false, meant) + "}"
  }

  function RenderElements(e: Elements, following: bool, meant: bool): string {
    match e
    case NoElements(space) => space
    case EndOfArray => ""
    case Element(before, value, after, rest) =>
      (if following then "," else "") + before + Render(value, meant) + after + RenderElements(rest, true, meant)
  }

  function RenderMembers(m: Members, following: bool, meant: bool): string {
    match m
    case NoMembers(space) => space
    case EndOfObject => ""
    case Member(before, key, middle, colon, value, after, rest) =>
      (if following then "," else "") + before + Quoted(key, meant) + middle + ":" + colon + Render(value, meant) + after + RenderMembers(rest, true, meant)
  }

  // ----- Well-formedness (RFC 8259, sections 2 and 7, and more) -----

  predicate AllSpace(s: string) {
    forall i :: 0 <= i < |s| ==> s[i] == ' ' || s[i] == '\t' || s[i] == '\n' || s[i] == '\r'
  }

  /** Any token free of quotes; literals and numbers are such tokens. */
  predicate IsToken(s: string) {
    forall i :: 0 <= i < |s| ==> s[i] != '"'
  }

  predicate ItemsOk(items: seq<Item>) {
    forall i <- items :: i.Plain? ==> i.c != '"' && i.c != '\\'
  }

  predicate IsJson(v: Json) {
    match v
    case Scalar(token) => IsToken(token)
    case Text(items) => ItemsOk(items)
    case Array(first) => IsElements(first, false)
    case Object(first) => IsMembers(first, false)
  }

  predicate IsElements(e: Elements, following: bool) {
    match e
    case NoElements(space) => !following && AllSpace(space)
    case EndOfArray => following
    case Element(before, value, after, rest) => AllSpace(before) && IsJson(value) && AllSpace(after) && IsElements(rest, true)
  }

  predicate IsMembers(m: Members, following: bool) {
    match m
    case NoMembers(space) => !following && AllSpace(space)
    case EndOfObject => following
    case Member(before, key, middle, colon, value, after, rest) =>
      AllSpace(before) && ItemsOk(key) && AllSpace(middle) && AllSpace(colon) && IsJson(value) && AllSpace(after) && IsMembers(rest, true)
  }

  // ----- Which raw quotes the repair can tell from closing ones -----

  /** No raw quote is followed, inside its string, by what follows a closing quote. */
  predicate Tellable(items: seq<Item>) {
    items == [] || ((items[0].RawQuote? ==> !Closes(Items(items[1..], false) + "\"")) && Tellable(items[1..]))
  }

  predicate AllTellable(v: Json) {
    match v
    case Scalar(_) => true
    case Text(items) => Tellable(items)
    case Array(first) => ElementsTellable(first)
    case Object(first) => MembersTellable(first)
  }

  predicate ElementsTellable(e: Elements) {
    e.Element? ==> AllTellable(e.value) && ElementsTellable(e.rest)
  }

  predicate MembersTellable(m: Members) {
    m.Member? ==> Tellable(m.key) && AllTellable(m.value) && MembersTellable(m.rest)
  }

  // ----- The repair, piece by piece -----

  lemma {:induction false} RepairToken(token: string, rest: string)
    requires IsToken(token)
    ensures Repair(token + rest, false, false) == token + Repair(rest, false, false)
  {
    if token == [] {
      assert token + rest == rest;
    } else {
      RepairToken(token[1..], rest);
      assert token + rest == [token[0]] + (token[1..] + rest);
      assert token == [token[0]] + token[1..];
    }
  }

  lemma {:induction false} SpaceThenCloser(space: string, rest: string)
    requires AllSpace(space) && rest != [] && (rest[0] == ':' || rest[0] == ',' || rest[0] == '}' || rest[0] == ']')
    ensures Closes(space + rest)
  {
    if space == [] {
      assert space + rest == rest;
    } else {
      SpaceThenCloser(space[1..], rest);
      assert (space + rest)[1..] == space[1..] + rest;
    }
  }

  /** Whether a text closes is settled by the time a quote is reached. */
  lemma {:induction false} ClosesIsLocal(s: string, rest: string)
    requires '"' in s
    ensures Closes(s + rest) == Closes(s)
  {
    if IsSpace(s[0]) {
      assert s == [s[0]] + s[1..];
      ClosesIsLocal(s[1..], rest);
      assert (s + rest)[1..] == s[1..] + rest;
    }
  }

  lemma RepairOneItem(item: Item, tail: string)
    requires item.Plain? ==> item.c != '"' && item.c != '\\'
    requires item.RawQuote? ==> !Closes(tail)
    ensures Repair(Items([item], false) + tail, true, false) == Items([item], true) + Repair(tail, true, false)
  {
    assert [item][1..] == [];
    match item
    case Plain(c) =>
    case Escape(c) =>
      RepairBackslash([c] + tail);
      RepairPasses(c, tail, true);
      assert Items([item], false) + tail == ['\\'] + ([c] + tail);
    case RawQuote =>
  }

  lemma SplitItems(items: seq<Item>, meant: bool)
    requires items != []
    ensures Items(items, meant) == Items([items[0]], meant) + Items(items[1..], meant)
  {
    assert [items[0]][1..] == [];
  }

  lemma TellableNext(items: seq<Item>, rest: string)
    requires items != [] && Tellable(items) && items[0].RawQuote?
    ensures !Closes(Items(items[1..], false) + ("\"" + rest))
  {
    var tail := Items(items[1..], false) + "\"";
    assert tail[|tail| - 1] == '"';
    ClosesIsLocal(tail, rest);
    Assoc(Items(items[1..], false), "\"", rest);
  }

  /** Inside a string, up to and past its closing quote. */
  lemma {:induction false} RepairItems(items: seq<Item>, rest: string)
    requires ItemsOk(items) && Closes(rest) && Tellable(items)
    ensures Repair(Items(items, false) + ("\"" + rest), true, false) == Items(items, true) + ("\"" + Repair(rest, false, false))
  {
    if items == [] {
      assert Items(items, false) + ("\"" + rest) == "\"" + rest;
    } else {
      var tail := Items(items[1..], false) + ("\"" + rest);
      RepairItems(items[1..], rest);
      if items[0].RawQuote? {
        TellableNext(items, rest);
      }
      RepairOneItem(items[0], tail);
      JoinItems(items, "\"" + rest, "\"" + Repair(rest, false, false));
    }
  }

  lemma JoinItems(items: seq<Item>, written: string, meant: string)
    requires items != []
    ensures Items(items, false) + written == Items([items[0]], false) + (Items(items[1..], false) + written)
    ensures Items(items, true) + meant == Items([items[0]], true) + (Items(items[1..], true) + meant)
  {
    SplitItems(items, false);
    SplitItems(items, true);
    Assoc(Items([items[0]], false), Items(items[1..], false), written);
    Assoc(Items([items[0]], true), Items(items[1..], true), meant);
  }

  lemma JoinQuoted(items: seq<Item>, meant: bool, rest: string)
    ensures Quoted(items, meant) + rest == "\"" + (Items(items, meant) + ("\"" + rest))
  {
    Assoc(Items(items, meant), "\"", rest);
    Assoc("\"", Items(items, meant) + "\"", rest);
    Assoc("\"", Items(items, meant), "\"");
  }

  lemma RepairQuoted(items: seq<Item>, rest: string)
    requires ItemsOk(items) && Closes(rest) && Tellable(items)
    ensures Repair(Quoted(items, false) + rest, false, false) == Quoted(items, true) + Repair(rest, false, false)
  {
    var inner := Items(items, false) + ("\"" + rest);
    JoinQuoted(items, false, rest);
    JoinQuoted(items, true, Repair(rest, false, false));
    RepairItems(items, rest);
  }

  // ----- The repair of whole texts -----

  /** What an element, or a member, is written between: an optional comma with white space, and white space. */
  function Lead(following: bool, before: string): string {
    (if following then "," else "") + before
  }

  lemma RepairLead(following: bool, before: string, tail: string)
    requires AllSpace(before)
    ensures Repair(Lead(following, before) + tail, false, false) == Lead(following, before) + Repair(tail, false, false)
  {
    assert Lead(false, before) == before;
    RepairToken(Lead(following, before), tail);
  }

  lemma JoinElement(before: string, value: string, after: string, more: string, rest: string, following: bool)
    ensures ((if following then "," else "") + before + value + after + more) + rest
            == Lead(following, before) + (value + (after + (more + rest)))
  {
    var lead := Lead(following, before);
    Assoc(lead + value + after, more, rest);
    Assoc(lead + value, after, more + rest);
    Assoc(lead, value, after + (more + rest));
  }

  lemma {:induction false} RepairValue(v: Json, rest: string)
    requires IsJson(v) && AllTellable(v) && Closes(rest)
    ensures Repair(Render(v, false) + rest, false, false) == Render(v, true) + Repair(rest, false, false)
    decreases v
  {
    match v
    case Scalar(token) => RepairToken(token, rest);
    case Text(items) => RepairQuoted(items, rest);
    case Array(elements) =>
      RepairElements(elements, false, "]" + rest);
      RepairToken("]", rest);
      RepairToken("[", RenderElements(elements, false, false) + ("]" + rest));
      JoinBrackets("[", RenderElements(elements, false, false), "]", rest);
      JoinBrackets("[", RenderElements(elements, false, true), "]", Repair(rest, false, false));
    case Object(members) =>
      RepairMembers(members, false, "}" + rest);
      RepairToken("}", rest);
      RepairToken("{", RenderMembers(members, false, false) + ("}" + rest));
      JoinBrackets("{", RenderMembers(members, false, false), "}", rest);
      JoinBrackets("{", RenderMembers(members, false, true), "}", Repair(rest, false, false));
  }

  lemma JoinBrackets(open: string, inside: string, close: string, rest: string)
    ensures (open + inside + close) + rest == open + (inside + (close + rest))
  {
    Assoc(open + inside, close, rest);
    Assoc(open, inside, close + rest);
  }

  lemma {:induction false} RepairElements(e: Elements, following: bool, rest: string)
    requires IsElements(e, following) && ElementsTellable(e) && rest != [] && rest[0] == ']'
    ensures Repair(RenderElements(e, following, false) + rest, false, false) == RenderElements(e, following, true) + Repair(rest, false, false)
    decreases e
  {
    match e
    case NoElements(space) =>
      RepairToken(space, rest);
    case EndOfArray =>
      RepairToken("", rest);
    case Element(before, value, after, more) =>
      var tail := RenderElements(more, true, false) + rest;
      RepairElements(more, true, rest);
      RepairToken(after, tail);
      SpaceThenCloser(after, tail);
      RepairValue(value, after + tail);
      RepairLead(following, before, Render(value, false) + (after + tail));
      JoinElement(before, Render(value, false), after, RenderElements(more, true, false), rest, following);
      JoinElement(before, Render(value, true), after, RenderElements(more, true, true), Repair(rest, false, false), following);
  }

  lemma JoinMember(before: string, key: string, middle: string, colon: string, value: string, after: string, more: string, rest: string, following: bool)
    ensures ((if following then "," else "") + before + key + middle + ":" + colon + value + after + more) + rest
            == Lead(following, before) + (key + (middle + ((":" + colon) + (value + (after + (more + rest))))))
  {
    var lead := Lead(following, before);
    Assoc(lead + key + middle, ":", colon);
    Assoc(lead + key + middle + (":" + colon) + value + after, more, rest);
    Assoc(lead + key + middle + (":" + colon) + value, after, more + rest);
    Assoc(lead + key + middle + (":" + colon), value, after + (more + rest));
    Assoc(lead + key + middle, ":" + colon, value + (after + (more + rest)));
    Assoc(lead + key, middle, (":" + colon) + (value + (after + (more + rest))));
    Assoc(lead, key, middle + ((":" + colon) + (value + (after + (more + rest)))));
  }

  lemma {:induction false} RepairMembers(m: Members, following: bool, rest: string)
    requires IsMembers(m, following) && MembersTellable(m) && rest != [] && rest[0] == '}'
    ensures Repair(RenderMembers(m, following, false) + rest, false, false) == RenderMembers(m, following, true) + Repair(rest, false, false)
    decreases m
  {
    match m
    case NoMembers(space) =>
      RepairToken(space, rest);
    case EndOfObject =>
      RepairToken("", rest);
    case Member(before, key, middle, colon, value, after, more) =>
      var tail := RenderMembers(more, true, false) + rest;
      RepairMembers(more, true, rest);
      RepairToken(after, tail);
      SpaceThenCloser(after, tail);
      RepairValue(value, after + tail);
      RepairKey(key, middle, colon, Render(value, false) + (after + tail));
      RepairLead(following, before, Quoted(key, false) + (middle + ((":" + colon) + (Render(value, false) + (after + tail)))));
      JoinMember(before, Quoted(key, false), middle, colon, Render(value, false), after, RenderMembers(more, true, false), rest, following);
      JoinMember(before, Quoted(key, true), middle, colon, Render(value, true), after, RenderMembers(more, true, true), Repair(rest, false, false), following);
  }

  lemma RepairKey(key: seq<Item>, middle: string, colon: string, tail: string)
    requires ItemsOk(key) && Tellable(key) && AllSpace(middle) && AllSpace(colon)
    ensures Repair(Quoted(key, false) + (middle + ((":" + colon) + tail)), false, false)
            == Quoted(key, true) + (middle + ((":" + colon) + Repair(tail, false, false)))
  {
    RepairToken(":" + colon, tail);
    RepairToken(middle, (":" + colon) + tail);
    SpaceThenCloser(middle, (":" + colon) + tail);
    RepairQuoted(key, middle + ((":" + colon) + tail));
  }

  // ----- Beyond the tellable texts the repair goes wrong -----

  lemma Cancel(a: string, b: string, c: string)
    requires b != c
    ensures a + b != a + c
  {
    assert (a + b)[|a|..] == b && (a + c)[|a|..] == c;
  }

  lemma {:induction false} DivergeItems(items: seq<Item>, rest: string, x: string)
    requires ItemsOk(items) && !Tellable(items)
    ensures Repair(Items(items, false) + ("\"" + rest), true, false) != Items(items, true) + x
  {
    var tail := Items(items[1..], false) + ("\"" + rest);
    var local := Items(items[1..], false) + "\"";
    assert local[|local| - 1] == '"';
    ClosesIsLocal(local, rest);
    Assoc(Items(items[1..], false), "\"", rest);
    JoinItems(items, "\"" + rest, x);
    if items[0].RawQuote? && Closes(local) {
      assert (Items(items, true) + x)[0] == '\\';
    } else {
      RepairOneItem(items[0], tail);
      DivergeItems(items[1..], rest, x);
      Cancel(Items([items[0]], true), Repair(tail, true, false), Items(items[1..], true) + x);
    }
  }

  lemma DivergeQuoted(items: seq<Item>, rest: string, x: string)
    requires ItemsOk(items) && !Tellable(items)
    ensures Repair(Quoted(items, false) + rest, false, false) != Quoted(items, true) + x
  {
    var inner := Items(items, false) + ("\"" + rest);
    JoinQuoted(items, false, rest);
    JoinQuoted(items, true, x);
    DivergeItems(items, rest, "\"" + x);
    Cancel("\"", Repair(inner, true, false), Items(items, true) + ("\"" + x));
  }

  lemma {:induction false} DivergeValue(v: Json, rest: string, x: string)
    requires IsJson(v) && !AllTellable(v)
    ensures Repair(Render(v, false) + rest, false, false) != Render(v, true) + x
    decreases v
  {
    match v
    case Text(items) => DivergeQuoted(items, rest, x);
    case Array(elements) =>
      var inner := RenderElements(elements, false, false) + ("]" + rest);
      RepairToken("[", inner);
      DivergeElements(elements, false, "]" + rest, "]" + x);
      JoinBrackets("[", RenderElements(elements, false, false), "]", rest);
      JoinBrackets("[", RenderElements(elements, false, true), "]", x);
      Cancel("[", Repair(inner, false, false), RenderElements(elements, false, true) + ("]" + x));
    case Object(members) =>
      var inner := RenderMembers(members, false, false) + ("}" + rest);
      RepairToken("{", inner);
      DivergeMembers(members, false, "}" + rest, "}" + x);
      JoinBrackets("{", RenderMembers(members, false, false), "}", rest);
      JoinBrackets("{", RenderMembers(members, false, true), "}", x);
      Cancel("{", Repair(inner, false, false), RenderMembers(members, false, true) + ("}" + x));
  }

  lemma {:induction false} DivergeElements(e: Elements, following: bool, rest: string, x: string)
    requires IsElements(e, following) && !ElementsTellable(e) && rest != [] && rest[0] == ']'
    ensures Repair(RenderElements(e, following, false) + rest, false, false) != RenderElements(e, following, true) + x
    decreases e
  {
    var Element(before, value, after, more) := e;
    var tail := RenderElements(more, true, false) + rest;
    var meant := RenderElements(more, true, true) + x;
    var inner := Render(value, false) + (after + tail);
    RepairLead(following, before, inner);
    JoinElement(before, Render(value, false), after, RenderElements(more, true, false), rest, following);
    JoinElement(before, Render(value, true), after, RenderElements(more, true, true), x, following);
    if AllTellable(value) {
      DivergeElements(more, true, rest, x);
      RepairToken(after, tail);
      SpaceThenCloser(after, tail);
      RepairValue(value, after + tail);
      Cancel(after, Repair(tail, false, false), meant);
      Cancel(Render(value, true), after + Repair(tail, false, false), after + meant);
    } else {
      DivergeValue(value, after + tail, after + meant);
    }
    Cancel(Lead(following, before), Repair(inner, false, false), Render(value, true) + (after + meant));
  }

  lemma {:induction false} DivergeMembers(m: Members, following: bool, rest: string, x: string)
    requires IsMembers(m, following) && !MembersTellable(m) && rest != [] && rest[0] == '}'
    ensures Repair(RenderMembers(m, following, false) + rest, false, false) != RenderMembers(m, following, true) + x
    decreases m, 1
  {
    var Member(before, key, middle, colon, value, after, more) := m;
    var tail := RenderMembers(more, true, false) + rest;
    var meant := RenderMembers(more, true, true) + x;
    var inner := Quoted(key, false) + (middle + ((":" + colon) + (Render(value, false) + (after + tail))));
    var wanted := Quoted(key, true) + (middle + ((":" + colon) + (Render(value, true) + (after + meant))));
    RepairLead(following, before, inner);
    JoinMember(before, Quoted(key, false), middle, colon, Render(value, false), after, RenderMembers(more, true, false), rest, following);
    JoinMember(before, Quoted(key, true), middle, colon, Render(value, true), after, RenderMembers(more, true, true), x, following);
    if !Tellable(key) {
      DivergeQuoted(key, middle + ((":" + colon) + (Render(value, false) + (after + tail))), middle + ((":" + colon) + (Render(value, true) + (after + meant))));
    } else {
      RepairKey(key, middle, colon, Render(value, false) + (after + tail));
      DivergeInMember(m, rest, x);
      DivergeAfterKey(Quoted(key, true), middle, ":" + colon, Repair(Render(value, false) + (after + tail), false, false), Render(value, true) + (after + meant));
    }
    Cancel(Lead(following, before), Repair(inner, false, false), wanted);
  }

  lemma DivergeAfterKey(key: string, middle: string, colon: string, a: string, b: string)
    requires a != b
    ensures key + (middle + (colon + a)) != key + (middle + (colon + b))
  {
    Cancel(colon, a, b);
    Cancel(middle, colon + a, colon + b);
    Cancel(key, middle + (colon + a), middle + (colon + b));
  }

  lemma {:induction false} DivergeInMember(m: Members, rest: string, x: string)
    requires m.Member? && IsMembers(m, true) && rest != [] && rest[0] == '}'
    requires !AllTellable(m.value) || !MembersTellable(m.rest)
    ensures Repair(Render(m.value, false) + (m.after + (RenderMembers(m.rest, true, false) + rest)), false, false)
            != Render(m.value, true) + (m.after + (RenderMembers(m.rest, true, true) + x))
    decreases m, 0
  {
    var Member(_, _, _, _, value, after, more) := m;
    var tail := RenderMembers(more, true, false) + rest;
    var meant := RenderMembers(more, true, true) + x;
    if AllTellable(value) {
      DivergeMembers(more, true, rest, x);
      RepairToken(after, tail);
      SpaceThenCloser(after, tail);
      RepairValue(value, after + tail);
      Cancel(after, Repair(tail, false, false), meant);
      Cancel(Render(value, true), after + Repair(tail, false, false), after + meant);
    } else {
      DivergeValue(value, after + tail, after + meant);
    }
  }

  // ----- Main results -----

  /** A JSON text, white space around it included, is repaired to what it means exactly when no unescaped quote inside one
      of its strings is followed by what follows a closing quote. */
  lemma RepairMeansIffTellable(before: string, v: Json, after: string)
    requires AllSpace(before) && IsJson(v) && AllSpace(after)
    ensures Repair(before + (Render(v, false) + after), false, false) == before + (Render(v, true) + after) <==> AllTellable(v)
  {
    RepairToken(before, Render(v, false) + after);
    RepairToken(after, "");
    assert after + "" == after;
    if AllTellable(v) {
      SpaceCloses(after);
      RepairValue(v, after);
    } else {
      DivergeValue(v, after, after);
      Cancel(before, Repair(Render(v, false) + after, false, false), Render(v, true) + after);
    }
  }

  lemma {:induction false} SpaceCloses(space: string)
    requires AllSpace(space)
    ensures Closes(space)
  {
    if space != [] {
      SpaceCloses(space[1..]);
    }
  }

  /** A text without unescaped quotes. */
  predicate NoRawQuotes(items: seq<Item>) {
    forall i :: 0 <= i < |items| ==> !items[i].RawQuote?
  }

  predicate IsValid(v: Json) {
    match v
    case Scalar(_) => true
    case Text(items) => NoRawQuotes(items)
    case Array(elements) => ValidElements(elements)
    case Object(members) => ValidMembers(members)
  }

  predicate ValidElements(e: Elements) {
    e.Element? ==> IsValid(e.value) && ValidElements(e.rest)
  }

  predicate ValidMembers(m: Members) {
    m.Member? ==> NoRawQuotes(m.key) && IsValid(m.value) && ValidMembers(m.rest)
  }

  lemma {:induction false} ValidItems(items: seq<Item>)
    requires NoRawQuotes(items)
    ensures Tellable(items) && Items(items, true) == Items(items, false)
  {
    if items != [] {
      ValidItems(items[1..]);
    }
  }

  lemma {:induction false} ValidValue(v: Json)
    requires IsValid(v)
    ensures AllTellable(v) && Render(v, true) == Render(v, false)
    decreases v
  {
    match v
    case Scalar(_) =>
    case Text(items) => ValidItems(items);
    case Array(elements) => ValidElementsSame(elements, false);
    case Object(members) => ValidMembersSame(members, false);
  }

  lemma {:induction false} ValidElementsSame(e: Elements, following: bool)
    requires ValidElements(e)
    ensures ElementsTellable(e) && RenderElements(e, following, true) == RenderElements(e, following, false)
    decreases e
  {
    if e.Element? {
      ValidValue(e.value);
      ValidElementsSame(e.rest, true);
    }
  }

  lemma {:induction false} ValidMembersSame(m: Members, following: bool)
    requires ValidMembers(m)
    ensures MembersTellable(m) && RenderMembers(m, following, true) == RenderMembers(m, following, false)
    decreases m
  {
    if m.Member? {
      ValidItems(m.key);
      ValidValue(m.value);
      ValidMembersSame(m.rest, true);
    }
  }

  /** Every well-formed JSON text is left as it is. */
  lemma ValidJsonIsUnchanged(before: string, v: Json, after: string)
    requires AllSpace(before) && IsJson(v) && IsValid(v) && AllSpace(after)
    ensures Repair(before + (Render(v, false) + after), false, false) == before + (Render(v, false) + after)
  {
    ValidValue(v);
    RepairMeansIffTellable(before, v, after);
  }
}
