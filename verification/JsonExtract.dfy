/** Finding the JSON object in a model's answer (`extract_json_object` in `ai_decision_guard.py`). */
module JsonExtract {
  import opened Options
  import opened Text
  import opened JsonRepair

  // ----- Searching and stripping -----

  predicate Absent(s: string, c: char) {
    forall k :: 0 <= k < |s| ==> s[k] != c
  }

  function Find(s: string, c: char): (r: int)
    ensures -1 <= r < |s|
    ensures r >= 0 ==> s[r] == c && forall k :: 0 <= k < r ==> s[k] != c
    ensures r < 0 ==> Absent(s, c)
  {
    if s == [] then -1
    else if s[0] == c then 0
    else
      var r := Find(s[1..], c);
      assert forall k :: 1 <= k < |s| ==> s[k] == s[1..][k - 1];
      if r < 0 then -1 else r + 1
  }

  function FindLast(s: string, c: char): (r: int)
    ensures -1 <= r < |s|
    ensures r >= 0 ==> s[r] == c && forall k :: r < k < |s| ==> s[k] != c
    ensures r < 0 ==> Absent(s, c)
  {
    if s == [] then -1 else if s[|s| - 1] == c then |s| - 1 else FindLast(s[..|s| - 1], c)
  }

  function IsTick(c: char): bool {
    c == '`'
  }

  /** `text.split("\n", 1)[-1]` */
  function AfterFirstLine(s: string): string {
    var newline := Find(s, '\n');
    if newline < 0 then s else s[newline + 1..]
  }

  predicate IsFenced(s: string) {
    "```" <= s
  }

  /** The text in which the braces are looked for. */
  function Prepared(answer: string): string {
    var text := Strip(answer, IsSpace);
    if IsFenced(text) then AfterFirstLine(Strip(text, IsTick)) else text
  }

  /** From the first opening to the last closing brace. */
  function Braces(s: string): Option<string> {
    var start, end := Find(s, '{'), FindLast(s, '}');
    if start < 0 || end <= start then None else Some(s[start..end + 1])
  }

  // ----- What surrounds the braces does not matter -----

  lemma FindAt(s: string, c: char, i: int)
    requires 0 <= i < |s| && s[i] == c && forall k :: 0 <= k < i ==> s[k] != c
    ensures Find(s, c) == i
  {
  }

  lemma FindLastAt(s: string, c: char, i: int)
    requires 0 <= i < |s| && s[i] == c && forall k :: i < k < |s| ==> s[k] != c
    ensures FindLast(s, c) == i
  {
  }

  lemma FindAfterPrefix(a: string, s: string, c: char)
    requires Absent(a, c)
    ensures Find(a + s, c) == if Find(s, c) < 0 then -1 else |a| + Find(s, c)
  {
    var r := Find(s, c);
    if r >= 0 {
      FindAt(a + s, c, |a| + r);
    } else {
      assert Absent(a + s, c);
    }
  }

  lemma FindLastAfterPrefix(a: string, s: string, c: char)
    ensures FindLast(a + s, c) == if FindLast(s, c) < 0 then FindLast(a, c) else |a| + FindLast(s, c)
  {
    var r := FindLast(s, c);
    if r >= 0 {
      FindLastAt(a + s, c, |a| + r);
    } else if FindLast(a, c) >= 0 {
      FindLastAt(a + s, c, FindLast(a, c));
    } else {
      assert Absent(a + s, c);
    }
  }

  lemma FindBeforeSuffix(s: string, b: string, c: char)
    ensures Find(s + b, c) == if Find(s, c) >= 0 then Find(s, c) else if Find(b, c) >= 0 then |s| + Find(b, c) else -1
  {
    if Find(s, c) >= 0 {
      FindAt(s + b, c, Find(s, c));
    } else {
      FindAfterPrefix(s, b, c);
    }
  }

  lemma BracesAfterPrefix(a: string, s: string)
    requires Absent(a, '{')
    ensures Braces(a + s) == Braces(s)
  {
    FindAfterPrefix(a, s, '{');
    FindLastAfterPrefix(a, s, '}');
    var start, end := Find(s, '{'), FindLast(s, '}');
    if start >= 0 && start < end {
      SliceAfterPrefix(a, s, start, end + 1);
    }
  }

  lemma SliceAfterPrefix(a: string, s: string, i: nat, j: nat)
    requires i <= j <= |s|
    ensures (a + s)[|a| + i..|a| + j] == s[i..j]
  {
  }

  lemma BracesBeforeSuffix(s: string, b: string)
    requires Absent(b, '}')
    ensures Braces(s + b) == Braces(s)
  {
    FindBeforeSuffix(s, b, '{');
    FindLastAfterPrefix(s, b, '}');
    if Braces(s).Some? {
      var start, end := Find(s, '{'), FindLast(s, '}');
      assert (s + b)[start..end + 1] == s[start..end + 1];
    }
  }

  lemma {:induction false} StripLeftKeepsBraces(s: string, drop: char -> bool)
    requires !drop('{') && !drop('}')
    ensures Braces(StripLeft(s, drop)) == Braces(s)
  {
    if s != [] && drop(s[0]) {
      StripLeftKeepsBraces(s[1..], drop);
      assert s == [s[0]] + s[1..];
      BracesAfterPrefix([s[0]], s[1..]);
    }
  }

  lemma {:induction false} StripRightKeepsBraces(s: string, drop: char -> bool)
    requires !drop('{') && !drop('}')
    ensures Braces(StripRight(s, drop)) == Braces(s)
  {
    if s != [] && drop(s[|s| - 1]) {
      StripRightKeepsBraces(s[..|s| - 1], drop);
      assert s == s[..|s| - 1] + [s[|s| - 1]];
      BracesBeforeSuffix(s[..|s| - 1], [s[|s| - 1]]);
    }
  }

  lemma StripKeepsBraces(s: string, drop: char -> bool)
    requires !drop('{') && !drop('}')
    ensures Braces(Strip(s, drop)) == Braces(s)
  {
    StripLeftKeepsBraces(s, drop);
    StripRightKeepsBraces(StripLeft(s, drop), drop);
  }

  // ----- Which object is taken -----

  /** In an answer without a code fence, prose without braces around an object leaves exactly that object. */
  lemma ProseKeepsTheObject(before: string, json: string, after: string)
    requires Absent(before, '{') && Absent(after, '}')
    requires |json| >= 2 && json[0] == '{' && json[|json| - 1] == '}'
    requires !IsFenced(Strip(before + json + after, IsSpace))
    ensures Braces(Prepared(before + json + after)) == Some(json)
  {
    StripKeepsBraces(before + json + after, IsSpace);
    BracesBeforeSuffix(before + json, after);
    BracesAfterPrefix(before, json);
    FindAt(json, '{', 0);
    FindLastAt(json, '}', |json| - 1);
  }

  /** In a fenced answer the object survives exactly when the fence's first line does not open it. */
  lemma FenceKeepsTheObject(answer: string)
    requires IsFenced(Strip(answer, IsSpace)) && Braces(answer).Some?
    ensures var inside := Strip(Strip(answer, IsSpace), IsTick);
            Braces(Prepared(answer)) == Braces(answer) <==> Find(inside, '\n') < 0 || Find(inside, '\n') < Find(inside, '{')
  {
    var text := Strip(answer, IsSpace);
    var inside := Strip(text, IsTick);
    StripKeepsBraces(answer, IsSpace);
    StripKeepsBraces(text, IsTick);
    FirstLineDropped(inside);
  }

  lemma FirstLineDropped(inside: string)
    requires Braces(inside).Some?
    ensures Braces(AfterFirstLine(inside)) == Braces(inside) <==> Find(inside, '\n') < 0 || Find(inside, '\n') < Find(inside, '{')
  {
    var newline := Find(inside, '\n');
    if newline >= 0 {
      var line, rest := inside[..newline + 1], inside[newline + 1..];
      assert inside == line + rest;
      assert AfterFirstLine(inside) == rest;
      if newline < Find(inside, '{') {
        assert Absent(line, '{');
        BracesAfterPrefix(line, rest);
      } else {
        ShorterBraces(line, rest);
      }
    }
  }

  lemma ShorterBraces(line: string, rest: string)
    requires Braces(line + rest).Some? && Find(line + rest, '{') < |line|
    ensures Braces(rest) != Braces(line + rest)
  {
    FindLastAfterPrefix(line, rest, '}');
    if Braces(rest).Some? {
      var end := FindLast(rest, '}');
      assert |Braces(rest).value| == end + 1 - Find(rest, '{');
      assert |Braces(line + rest).value| == |line| + end + 1 - Find(line + rest, '{');
    }
  }

  /** The parser is any function that may fail; an answer whose object does not parse is tried once more, repaired. */
  method ExtractJsonObject<T>(answer: string, parse: string -> Option<T>, isObject: T -> bool) returns (parsed: Option<T>)
    ensures parsed.Some? ==>
              isObject(parsed.value) && Braces(Prepared(answer)).Some? &&
              var json := Braces(Prepared(answer)).value;
              parsed == parse(json) || (parse(json).None? && parsed == parse(Repair(json, false, false)))
    ensures parsed.None? && Braces(Prepared(answer)).Some? ==>
              var json := Braces(Prepared(answer)).value;
              var last := if parse(json).Some? then parse(json) else parse(Repair(json, false, false));
              last.None? || !isObject(last.value)
  {
    var text := Strip(answer, IsSpace);
    if IsFenced(text) {
      text := Strip(text, IsTick);
      text := AfterFirstLine(text);
    }
    var start, end := Find(text, '{'), FindLast(text, '}');
    if start < 0 || end <= start {
      return None;
    }
    parsed := parse(text[start..end + 1]);
    if parsed.None? {
      var repaired := EscapeLikelyUnescapedQuotes(text[start..end + 1]);
      parsed := parse(repaired);
    }
    if parsed.Some? && !isObject(parsed.value) {
      parsed := None;
    }
  }
}
