/** The option-quote budget (`longbridge_sdk_client.py`). */
module QuoteBudget {
  import opened Options
  import opened Text

  const SECOND := 1_000_000  // times are microseconds
  const MINUTE := 60 * SECOND
  const KEY_TTL := 70 * SECOND

  // ----- Batches -----

  function Clamp(x: int, low: int, high: int): int {
    if x < low then low else if x > high then high else x
  }

  /** The configured batch size, kept within the per-minute limit when there is one. */
  function BatchSize(limit: nat, configured: Option<int>): (size: nat)
    ensures 1 <= size <= 500 && (limit > 0 ==> size <= limit)
  {
    var default := if limit > 0 && limit < 80 then limit else 80;
    var value := Clamp(if configured.Some? then configured.value else default, 1, 500);
    if limit > 0 && limit < value then limit else value
  }

  /** 80 symbols unless another size is set, from 1 to 500, and no more than the limit when there is one. */
  lemma BatchSizeIs(limit: nat, configured: Option<int>)
    ensures var asked := if configured.None? then 80 else if configured.value < 1 then 1 else if configured.value > 500 then 500 else configured.value;
            BatchSize(limit, configured) == if 0 < limit < asked then limit else asked
  {
  }

  predicate Clean(s: string) {
    s != [] && Bare(s, IsSpace)
  }

  predicate AllClean(symbols: seq<string>) {
    forall i :: 0 <= i < |symbols| ==> Clean(symbols[i])
  }

  /** The symbols without surrounding space, the blank ones left out. */
  function Cleaned(symbols: seq<string>): (r: seq<string>)
    ensures |r| <= |symbols|
  {
    if symbols == [] then []
    else
      var rest := Cleaned(symbols[1..]);
      if Trim(symbols[0]) == "" then rest else [Trim(symbols[0])] + rest
  }

  lemma {:induction false} CleaningCleans(symbols: seq<string>)
    ensures AllClean(Cleaned(symbols))
  {
    if symbols != [] {
      StripBares(symbols[0], IsSpace);
      CleaningCleans(symbols[1..]);
    }
  }

  lemma {:induction false} CleanedIsClean(symbols: seq<string>)
    requires AllClean(symbols)
    ensures Cleaned(symbols) == symbols
  {
    if symbols != [] {
      assert Clean(symbols[0]);
      CleanedIsClean(symbols[1..]);
    }
  }

  function Concat(batches: seq<seq<string>>): seq<string> {
    if batches == [] then [] else Concat(batches[..|batches| - 1]) + batches[|batches| - 1]
  }

  lemma ConcatOne(batches: seq<seq<string>>, batch: seq<string>)
    ensures Concat(batches + [batch]) == Concat(batches) + batch
  {
    assert (batches + [batch])[..|batches|] == batches;
  }

  /** What a batch takes from the budget. */
  function Charge(symbols: nat, limit: nat): nat {
    if symbols < limit then symbols else limit
  }

  /** Non-empty batches of at most `size` symbols. */
  predicate AllFit(batches: seq<seq<string>>, size: nat) {
    forall i :: 0 <= i < |batches| ==> 1 <= |batches[i]| <= size
  }

  /** The batches fetched, in order: together they are the cleaned symbols and none exceeds the batch size. */
  method OptionQuotes(symbols: seq<string>, limit: nat, configured: Option<int>) returns (batches: seq<seq<string>>)
    ensures Concat(batches) == Cleaned(symbols) && AllFit(batches, BatchSize(limit, configured))
    decreases |symbols|
  {
    var cleaned := Cleaned(symbols);
    var size := BatchSize(limit, configured);
    if |cleaned| <= size {
      batches := if cleaned == [] then [] else [cleaned];
      OneBatch(cleaned, size);
      return;
    }
    CleaningCleans(symbols);
    batches := [];
    var offset := 0;
    while offset < |cleaned|
      invariant 0 <= offset <= |cleaned| && Concat(batches) == cleaned[..offset] && AllFit(batches, size)
    {
      var end := if offset + size < |cleaned| then offset + size else |cleaned|;
      var more := OptionQuotes(cleaned[offset..end], limit, configured);
      NextSlice(cleaned, offset, end, batches, more, size);
      batches := batches + more;
      offset := end;
    }
    assert cleaned[..|cleaned|] == cleaned;
  }

  lemma OneBatch(cleaned: seq<string>, size: nat)
    requires |cleaned| <= size
    ensures var batches := if cleaned == [] then [] else [cleaned]; Concat(batches) == cleaned && AllFit(batches, size)
  {
    ConcatOne([], cleaned);
    assert [] + [cleaned] == [cleaned];
  }

  lemma NextSlice(symbols: seq<string>, from: nat, end: nat, batches: seq<seq<string>>, more: seq<seq<string>>, size: nat)
    requires AllClean(symbols) && from <= end <= |symbols| && Concat(batches) == symbols[..from]
    requires Concat(more) == Cleaned(symbols[from..end]) && AllFit(batches, size) && AllFit(more, size)
    ensures Concat(batches + more) == symbols[..end] && AllFit(batches + more, size)
  {
    CleanedIsClean(symbols[from..end]);
    AppendBatches(batches, more);
    assert symbols[..end] == symbols[..from] + symbols[from..end];
  }

  /** So each batch is charged for exactly the symbols in it. */
  lemma BatchesArePaidInFull(batches: seq<seq<string>>, limit: nat, configured: Option<int>, i: nat)
    requires limit > 0 && AllFit(batches, BatchSize(limit, configured)) && i < |batches|
    ensures Charge(|batches[i]|, limit) == |batches[i]|
  {
  }

  lemma {:induction false} AppendBatches(a: seq<seq<string>>, b: seq<seq<string>>)
    ensures Concat(a + b) == Concat(a) + Concat(b)
  {
    if b == [] {
      assert a + b == a;
    } else {
      var last := |b| - 1;
      AppendBatches(a, b[..last]);
      assert a + b == (a + b[..last]) + [b[last]] && b == b[..last] + [b[last]];
      ConcatOne(a + b[..last], b[last]);
      ConcatOne(b[..last], b[last]);
    }
  }

  // ----- The local counter -----

  datatype Budget = Budget(window: int, used: nat)

  /** A request for `amount` symbols, with the minute it was counted in. */
  datatype Request = Request(time: int, amount: nat)

  function WindowOf(time: int): int {
    time / MINUTE
  }

  /** A request is counted in the minute of the clock it falls in. */
  lemma WindowIs(time: int, w: int)
    ensures WindowOf(time) == w <==> w * 60_000_000 <= time < (w + 1) * 60_000_000
  {
  }

  function Opened(b: Budget, window: int): Budget {
    if b.window != window then Budget(window, 0) else b
  }

  predicate Allows(b: Budget, amount: nat, limit: nat, window: int) {
    Opened(b, window).used + amount <= limit
  }

  function Taken(b: Budget, amount: nat, limit: nat, window: int): Budget {
    var o := Opened(b, window);
    if Allows(b, amount, limit, window) then o.(used := o.used + amount) else o
  }

  class LocalBudget {
    var window: int
    var used: nat

    constructor ()
      ensures View() == Budget(0, 0)
    {
      window, used := 0, 0;
    }

    ghost function View(): Budget
      reads this
    {
      Budget(window, used)
    }

    method Take(amount: nat, limit: nat, now: int) returns (ok: bool)
      modifies this
      ensures ok == Allows(old(View()), amount, limit, now) && View() == Taken(old(View()), amount, limit, now)
      ensures ok ==> used <= limit
      ensures var before := if old(window) == now then old(used) else 0;
              window == now && (ok <==> before + amount <= limit) && used == if ok then before + amount else before
    {
      if window != now {
        window, used := now, 0;
      }
      if used + amount <= limit {
        used := used + amount;
        return true;
      }
      ok := false;
    }
  }

  /** The requests that are granted. */
  function Granted(b: Budget, limit: nat, rs: seq<Request>): seq<Request>
    decreases |rs|
  {
    if rs == [] then []
    else
      var w := WindowOf(rs[0].time);
      (if Allows(b, rs[0].amount, limit, w) then [rs[0]] else []) + Granted(Taken(b, rs[0].amount, limit, w), limit, rs[1..])
  }

  function InWindow(rs: seq<Request>, w: int): nat {
    if rs == [] then 0 else (if WindowOf(rs[0].time) == w then rs[0].amount else 0) + InWindow(rs[1..], w)
  }

  /** What is granted in the 60 seconds from `from`. */
  function InSpan(rs: seq<Request>, from: int): nat {
    if rs == [] then 0 else (if from <= rs[0].time < from + 60_000_000 then rs[0].amount else 0) + InSpan(rs[1..], from)
  }

  /** The minutes in which requests are counted. */
  function Windows(rs: seq<Request>): (ws: seq<int>)
    ensures |ws| == |rs| && forall i :: 0 <= i < |rs| ==> ws[i] == WindowOf(rs[i].time)
  {
    if rs == [] then [] else [WindowOf(rs[0].time)] + Windows(rs[1..])
  }

  /** No minute comes back once another one has come after it. */
  predicate NoReturn(ws: seq<int>) {
    ws == [] || (NoReturn(ws[1..]) && (ws[0] in ws[1..] ==> ws[1] == ws[0]))
  }

  ghost predicate InOrder(ws: seq<int>) {
    forall i, j :: 0 <= i < j < |ws| ==> ws[i] <= ws[j]
  }

  lemma {:induction false} OrderedMinutesNeverReturn(ws: seq<int>)
    requires InOrder(ws)
    ensures NoReturn(ws)
  {
    if ws != [] {
      OrderedMinutesNeverReturn(ws[1..]);
    }
  }

  lemma InWindowCons(r: Request, rs: seq<Request>, w: int)
    ensures InWindow([r] + rs, w) == (if WindowOf(r.time) == w then r.amount else 0) + InWindow(rs, w)
  {
    assert ([r] + rs)[1..] == rs;
  }

  lemma GrantStep(b: Budget, limit: nat, rs: seq<Request>, w: int)
    requires rs != []
    ensures var v := WindowOf(rs[0].time);
            InWindow(Granted(b, limit, rs), w) == (if Allows(b, rs[0].amount, limit, v) && v == w then rs[0].amount else 0)
              + InWindow(Granted(Taken(b, rs[0].amount, limit, v), limit, rs[1..]), w)
  {
    var v := WindowOf(rs[0].time);
    var rest := Granted(Taken(b, rs[0].amount, limit, v), limit, rs[1..]);
    InWindowCons(rs[0], rest, w);
    assert [] + rest == rest;
  }

  lemma {:induction false} NoneElsewhere(b: Budget, limit: nat, rs: seq<Request>, w: int)
    requires w !in Windows(rs)
    ensures InWindow(Granted(b, limit, rs), w) == 0
    decreases |rs|
  {
    if rs != [] {
      var v := WindowOf(rs[0].time);
      assert Windows(rs)[0] == v && Windows(rs)[1..] == Windows(rs[1..]);
      NoneElsewhere(Taken(b, rs[0].amount, limit, v), limit, rs[1..], w);
      GrantStep(b, limit, rs, w);
    }
  }

  lemma {:induction false} OpenWindowWithinLimit(b: Budget, limit: nat, rs: seq<Request>, w: int)
    requires NoReturn([b.window] + Windows(rs)) && b.used <= limit
    ensures InWindow(Granted(b, limit, rs), w) + (if w == b.window then b.used else 0) <= limit
    decreases |rs|
  {
    if rs != [] {
      var v := WindowOf(rs[0].time);
      var t := Taken(b, rs[0].amount, limit, v);
      var ws := Windows(rs);
      assert ([b.window] + ws)[1..] == ws && ws == [v] + Windows(rs[1..]);
      OpenWindowWithinLimit(t, limit, rs[1..], w);
      GrantStep(b, limit, rs, w);
      if w == b.window && v != w {
        assert ([b.window] + ws)[1] == v && w !in ws;
        NoneElsewhere(b, limit, rs, w);
      }
    }
  }

  /** When no minute returns, no minute is granted more than the limit, whatever is asked for. */
  lemma WindowWithinLimit(b: Budget, limit: nat, rs: seq<Request>, w: int)
    requires b.used == 0 && NoReturn(Windows(rs))
    ensures InWindow(Granted(b, limit, rs), w) <= limit
  {
    if rs != [] {
      var v := WindowOf(rs[0].time);
      assert Windows(rs) == [v] + Windows(rs[1..]);
      OpenWindowWithinLimit(Taken(b, rs[0].amount, limit, v), limit, rs[1..], w);
      GrantStep(b, limit, rs, w);
    }
  }

  lemma WindowsSnoc(rs: seq<Request>, r: Request)
    ensures Windows(rs + [r]) == Windows(rs) + [WindowOf(r.time)]
  {
  }

  /** The last of these requests, after an open minute. */
  lemma {:induction false} LastIsGrantedIff(b: Budget, limit: nat, rs: seq<Request>, r: Request)
    requires NoReturn([b.window] + Windows(rs) + [WindowOf(r.time)])
    ensures var w, before := WindowOf(r.time), Granted(b, limit, rs);
            Granted(b, limit, rs + [r]) ==
            before + if (if w == b.window then b.used else 0) + InWindow(before, w) + r.amount <= limit then [r] else []
    decreases |rs|
  {
    var w := WindowOf(r.time);
    if rs == [] {
      assert rs + [r] == [r] && [r][1..] == [];
    } else {
      var v, ws := WindowOf(rs[0].time), Windows(rs);
      var t := Taken(b, rs[0].amount, limit, v);
      assert (rs + [r])[1..] == rs[1..] + [r] && ws == [v] + Windows(rs[1..]);
      assert ([b.window] + ws + [w])[1..] == [v] + Windows(rs[1..]) + [w];
      assert v != b.window ==> w != b.window by {
        assert ([b.window] + ws + [w])[1] == v && w in ws + [w] && ([b.window] + ws + [w])[1..] == ws + [w];
      }
      LastIsGrantedIff(t, limit, rs[1..], r);
      GrantStep(b, limit, rs, w);
    }
  }

  /** While no minute returns, a request is granted exactly when it fits beside all that its minute was granted before: none is refused
      that the limit leaves room for. */
  lemma GrantedIff(b: Budget, limit: nat, rs: seq<Request>, r: Request)
    requires b.used == 0 && NoReturn(Windows(rs + [r]))
    ensures var before := Granted(b, limit, rs);
            Granted(b, limit, rs + [r]) == before + if InWindow(before, WindowOf(r.time)) + r.amount <= limit then [r] else []
  {
    var w := WindowOf(r.time);
    WindowsSnoc(rs, r);
    if rs == [] {
      assert rs + [r] == [r] && [r][1..] == [];
    } else {
      var v := WindowOf(rs[0].time);
      assert (rs + [r])[1..] == rs[1..] + [r] && Windows(rs) == [v] + Windows(rs[1..]);
      LastIsGrantedIff(Taken(b, rs[0].amount, limit, v), limit, rs[1..], r);
      GrantStep(b, limit, rs, w);
    }
  }

  /** Every visit asks for the whole limit. */
  function Demanding(ws: seq<int>, limit: nat): (rs: seq<Request>)
    ensures Windows(rs) == ws && forall r <- rs :: r.amount == limit
  {
    if ws == [] then [] else Ask(ws[0], limit, Demanding(ws[1..], limit))
  }

  function Ask(w: int, amount: nat, rest: seq<Request>): (rs: seq<Request>)
    ensures rs == [Request(w * MINUTE, amount)] + rest && rs[1..] == rest && Windows(rs) == [w] + Windows(rest)
  {
    var rs := [Request(w * MINUTE, amount)] + rest;
    assert rs[1..] == rest && WindowOf(w * MINUTE) == w;
    rs
  }

  /** A minute other than the open one is granted the limit when it next comes. */
  lemma {:induction false} NextVisitIsGranted(b: Budget, limit: nat, ws: seq<int>, w: int)
    requires w in ws && w != b.window
    ensures InWindow(Granted(b, limit, Demanding(ws, limit)), w) >= limit
    decreases |ws|
  {
    GrantStep(b, limit, Demanding(ws, limit), w);
    if ws[0] != w {
      NextVisitIsGranted(Taken(b, limit, limit, ws[0]), limit, ws[1..], w);
    }
  }

  /** When the open minute has used its limit up, some minute that returns is granted it again. */
  lemma {:induction false} ReturnIsGrantedAgain(b: Budget, limit: nat, ws: seq<int>) returns (w: int)
    requires b.used == limit && !NoReturn([b.window] + ws)
    ensures InWindow(Granted(b, limit, Demanding(ws, limit)), w) + (if w == b.window then limit else 0) >= 2 * limit
    decreases |ws|
  {
    assert ([b.window] + ws)[1..] == ws;
    var t := Taken(b, limit, limit, ws[0]);
    if NoReturn(ws) {
      w := b.window;
      assert ([b.window] + ws)[1] == ws[0];
      NextVisitIsGranted(t, limit, ws[1..], w);
    } else {
      assert [t.window] + ws[1..] == ws;
      w := ReturnIsGrantedAgain(t, limit, ws[1..]);
    }
    GrantStep(b, limit, Demanding(ws, limit), w);
  }

  /** A minute that returns is granted twice the limit when every visit asks for all of it. */
  lemma ReturnIsGrantedTwice(b: Budget, limit: nat, ws: seq<int>) returns (w: int)
    requires b.used == 0 && !NoReturn(ws)
    ensures InWindow(Granted(b, limit, Demanding(ws, limit)), w) >= 2 * limit
  {
    var t := Taken(b, limit, limit, ws[0]);
    assert [t.window] + ws[1..] == ws;
    w := ReturnIsGrantedAgain(t, limit, ws[1..]);
    GrantStep(b, limit, Demanding(ws, limit), w);
  }

  /** What a request asks for: one symbol at least and the limit at most. */
  ghost predicate Proper(rs: seq<Request>, limit: nat) {
    forall r <- rs :: 1 <= r.amount <= limit
  }

  ghost predicate NeverOverLimit(b: Budget, limit: nat, ws: seq<int>) {
    forall rs: seq<Request>, w: int :: Windows(rs) == ws && Proper(rs, limit) ==> InWindow(Granted(b, limit, rs), w) <= limit
  }

  /** The order matters exactly this far: the requests of a sequence of minutes can be granted no more than the limit in any
      minute, whatever they ask for, if and only if no minute returns. A thread that read the clock before the minute turned and
      takes the lock after another has turned it makes one return. */
  lemma WithinLimitIffNoReturn(b: Budget, limit: nat, ws: seq<int>)
    requires b.used == 0 && limit >= 1
    ensures NeverOverLimit(b, limit, ws) <==> NoReturn(ws)
  {
    if NoReturn(ws) {
      forall rs: seq<Request>, w: int | Windows(rs) == ws && Proper(rs, limit)
        ensures InWindow(Granted(b, limit, rs), w) <= limit
      {
        WindowWithinLimit(b, limit, rs, w);
      }
    } else {
      var w := ReturnIsGrantedTwice(b, limit, ws);
      assert Proper(Demanding(ws, limit), limit) && InWindow(Granted(b, limit, Demanding(ws, limit)), w) > limit;
    }
  }

  lemma {:induction false} SpanIsTwoWindows(rs: seq<Request>, from: int)
    ensures InSpan(rs, from) <= InWindow(rs, WindowOf(from)) + InWindow(rs, WindowOf(from) + 1)
  {
    if rs != [] {
      SpanIsTwoWindows(rs[1..], from);
    }
  }

  /** Any 60 seconds get at most twice the limit. */
  lemma SpanWithinTwiceTheLimit(limit: nat, rs: seq<Request>, from: int)
    requires NoReturn(Windows(rs))
    ensures InSpan(Granted(Budget(0, 0), limit, rs), from) <= 2 * limit
  {
    var granted := Granted(Budget(0, 0), limit, rs);
    SpanIsTwoWindows(granted, from);
    WindowWithinLimit(Budget(0, 0), limit, rs, WindowOf(from));
    WindowWithinLimit(Budget(0, 0), limit, rs, WindowOf(from) + 1);
  }

  lemma GrantOne(b: Budget, limit: nat, r: Request)
    requires Allows(b, r.amount, limit, WindowOf(r.time))
    ensures Granted(b, limit, [r]) == [r]
  {
    assert [r][1..] == [] && [r] + [] == [r];
  }

  lemma GrantTwo(b: Budget, limit: nat, r: Request, s: Request)
    requires r.amount == s.amount == limit && b.window != WindowOf(r.time) && WindowOf(r.time) != WindowOf(s.time)
    ensures Granted(b, limit, [r, s]) == [r, s]
  {
    GrantOne(Taken(b, limit, limit, WindowOf(r.time)), limit, s);
    assert [r, s][1..] == [s] && [r] + [s] == [r, s];
  }

  /** Twice the limit is reached: around a minute boundary, within a second. */
  lemma TwiceIsReached(limit: nat) returns (r: Request, s: Request)
    ensures NoReturn(Windows([r, s])) && s.time == r.time + 1_000_000
    ensures InSpan(Granted(Budget(0, 0), limit, [r, s]), r.time) == 2 * limit
  {
    r, s := Request(2 * MINUTE - SECOND, limit), Request(2 * MINUTE, limit);
    GrantTwo(Budget(0, 0), limit, r, s);
    assert [r, s][1..] == [s] && [s][1..] == [];
    assert InSpan([s], r.time) == limit;
    assert Windows([r, s]) == [1, 2] && [1, 2][1..] == [2] && [2][1..] == [];
  }

  /** The order matters: a thread that read the clock before the minute turned resets the counter and is granted the old
      minute's budget a second time. */
  lemma LateWindowIsGrantedTwice(limit: nat) returns (rs: seq<Request>)
    ensures InWindow(Granted(Budget(0, 0), limit, rs), 1) == 2 * limit
  {
    var a, b, c := Request(MINUTE, limit), Request(2 * MINUTE, limit), Request(2 * MINUTE - 1, limit);
    rs := [a, b, c];
    GrantTwo(Taken(Budget(0, 0), limit, limit, 1), limit, b, c);
    assert rs[1..] == [b, c] && Granted(Budget(0, 0), limit, rs) == [a] + [b, c];
    InWindowCons(a, [b, c], 1);
    assert [b, c] == [b] + [c] && [c] + [] == [c];
    InWindowCons(b, [c], 1);
    InWindowCons(c, [], 1);
  }

  // ----- The shared counter -----

  /** One Redis key per account and minute. */
  datatype Entry = Entry(count: nat, expires: int)

  /** A call of the script: the minute its caller read, and when it reaches Redis. */
  datatype Arrival = Arrival(window: int, at: int, amount: nat)

  function Count(keys: map<int, Entry>, a: Arrival): nat {
    if a.window in keys && a.at < keys[a.window].expires then keys[a.window].count else 0
  }

  predicate ScriptAllows(keys: map<int, Entry>, a: Arrival, limit: nat) {
    Count(keys, a) + a.amount <= limit
  }

  function ScriptRun(keys: map<int, Entry>, a: Arrival, limit: nat): map<int, Entry> {
    if ScriptAllows(keys, a, limit) then keys[a.window := Entry(Count(keys, a) + a.amount, a.at + KEY_TTL)] else keys
  }

  function ScriptGranted(keys: map<int, Entry>, limit: nat, arrivals: seq<Arrival>): seq<Arrival>
    decreases |arrivals|
  {
    if arrivals == [] then []
    else (if ScriptAllows(keys, arrivals[0], limit) then [arrivals[0]] else []) +
         ScriptGranted(ScriptRun(keys, arrivals[0], limit), limit, arrivals[1..])
  }

  function OfWindow(arrivals: seq<Arrival>, w: int): nat {
    if arrivals == [] then 0 else (if arrivals[0].window == w then arrivals[0].amount else 0) + OfWindow(arrivals[1..], w)
  }

  /** The call reaches Redis while the key of its minute, if it was ever set, is still there. */
  predicate Prompt(a: Arrival) {
    a.window * MINUTE <= a.at < a.window * MINUTE + KEY_TTL
  }

  /** Keys outlive their minute by ten seconds. */
  ghost predicate LongLived(keys: map<int, Entry>) {
    forall w <- keys :: keys[w].expires >= w * MINUTE + KEY_TTL
  }

  lemma OfWindowCons(a: Arrival, rest: seq<Arrival>, w: int)
    ensures OfWindow([a] + rest, w) == (if a.window == w then a.amount else 0) + OfWindow(rest, w)
  {
    assert ([a] + rest)[1..] == rest;
  }

  lemma ScriptStep(keys: map<int, Entry>, limit: nat, arrivals: seq<Arrival>, w: int)
    requires arrivals != []
    ensures var a := arrivals[0];
            OfWindow(ScriptGranted(keys, limit, arrivals), w) == (if ScriptAllows(keys, a, limit) && a.window == w then a.amount else 0)
              + OfWindow(ScriptGranted(ScriptRun(keys, a, limit), limit, arrivals[1..]), w)
  {
    var rest := ScriptGranted(ScriptRun(keys, arrivals[0], limit), limit, arrivals[1..]);
    OfWindowCons(arrivals[0], rest, w);
    assert [] + rest == rest;
  }

  /** Calls that reach Redis within 70 seconds of the start of their minute never get more than the limit of that minute, in
      whatever order they arrive and from however many nodes. */
  lemma {:induction false} SharedWindowWithinLimit(keys: map<int, Entry>, limit: nat, arrivals: seq<Arrival>, w: int)
    requires LongLived(keys) && (forall a <- arrivals :: Prompt(a)) && (forall v <- keys :: keys[v].count <= limit)
    ensures OfWindow(ScriptGranted(keys, limit, arrivals), w) + (if w in keys then keys[w].count else 0) <= limit
    decreases |arrivals|
  {
    if arrivals != [] {
      var a := arrivals[0];
      var after := ScriptRun(keys, a, limit);
      assert Prompt(a);
      SharedWindowWithinLimit(after, limit, arrivals[1..], w);
      ScriptStep(keys, limit, arrivals, w);
    }
  }

  /** Ten seconds later the key may be gone, and the minute's budget is granted again. */
  lemma LateArrivalIsGrantedTwice(limit: nat) returns (arrivals: seq<Arrival>)
    ensures |arrivals| == 2 && Prompt(arrivals[0]) && arrivals[1].at == arrivals[1].window * MINUTE + KEY_TTL
    ensures OfWindow(ScriptGranted(map[], limit, arrivals), 1) == 2 * limit
  {
    var a, b := Arrival(1, MINUTE, limit), Arrival(1, MINUTE + KEY_TTL, limit);
    arrivals := [a, b];
    assert arrivals[1..] == [b] && [b][1..] == [];
    var after := ScriptRun(map[], a, limit);
    assert ScriptGranted(after, limit, [b]) == [b];
    assert ScriptGranted(map[], limit, arrivals) == [a] + [b];
    OfWindowCons(a, [b], 1);
    OfWindowCons(b, [], 1);
    assert [b] + [] == [b];
  }

  /** A call before it is known what it asks for. */
  datatype Visit = Visit(window: int, at: int)

  function Visits(arrivals: seq<Arrival>): (vs: seq<Visit>)
    ensures |vs| == |arrivals| && forall i :: 0 <= i < |vs| ==> vs[i] == Visit(arrivals[i].window, arrivals[i].at)
  {
    seq(|arrivals|, i requires 0 <= i < |arrivals| => Visit(arrivals[i].window, arrivals[i].at))
  }

  ghost predicate Chronological(vs: seq<Visit>) {
    forall i, j :: 0 <= i < j < |vs| ==> vs[i].at <= vs[j].at
  }

  /** No two calls of a minute reach Redis a key's lifetime apart. */
  ghost predicate WithinLifetime(vs: seq<Visit>) {
    forall i, j :: 0 <= i < j < |vs| && vs[i].window == vs[j].window ==> vs[j].at < vs[i].at + 70_000_000
  }

  /** The key of `w`, if it is set, outlives every call still to come. */
  ghost predicate KeyLasts(keys: map<int, Entry>, limit: nat, vs: seq<Visit>, w: int) {
    w in keys ==> keys[w].count <= limit && forall v <- vs :: v.window == w ==> v.at < keys[w].expires
  }

  lemma KeyStillLasts(keys: map<int, Entry>, limit: nat, arrivals: seq<Arrival>, w: int)
    requires arrivals != [] && WithinLifetime(Visits(arrivals)) && KeyLasts(keys, limit, Visits(arrivals), w)
    ensures WithinLifetime(Visits(arrivals[1..])) && KeyLasts(ScriptRun(keys, arrivals[0], limit), limit, Visits(arrivals[1..]), w)
  {
    assert Visits(arrivals)[0] in Visits(arrivals);
    RestIsWithin(arrivals);
  }

  lemma RestIsWithin(arrivals: seq<Arrival>)
    requires arrivals != [] && WithinLifetime(Visits(arrivals))
    ensures WithinLifetime(Visits(arrivals[1..]))
    ensures forall v <- Visits(arrivals[1..]) :: v in Visits(arrivals) && (v.window == arrivals[0].window ==> v.at < arrivals[0].at + KEY_TTL)
  {
    var a, vs, rest := arrivals[0], Visits(arrivals), Visits(arrivals[1..]);
    assert vs[1..] == rest;
    forall v <- rest
      ensures v in vs && (v.window == a.window ==> v.at < a.at + KEY_TTL)
    {
      var i :| 0 <= i < |rest| && rest[i] == v;
      assert vs[i + 1] == v && vs[0].window == a.window;
    }
  }

  lemma {:induction false} LastingKeyWithinLimit(keys: map<int, Entry>, limit: nat, arrivals: seq<Arrival>, w: int)
    requires WithinLifetime(Visits(arrivals)) && KeyLasts(keys, limit, Visits(arrivals), w)
    ensures OfWindow(ScriptGranted(keys, limit, arrivals), w) + (if w in keys then keys[w].count else 0) <= limit
    decreases |arrivals|
  {
    if arrivals != [] {
      var after := ScriptRun(keys, arrivals[0], limit);
      KeyStillLasts(keys, limit, arrivals, w);
      LastingKeyWithinLimit(after, limit, arrivals[1..], w);
      ScriptStep(keys, limit, arrivals, w);
    }
  }

  /** The last of these calls, while the key of its minute lasts. */
  lemma {:induction false} LastCallIsGrantedIff(keys: map<int, Entry>, limit: nat, arrivals: seq<Arrival>, a: Arrival)
    requires WithinLifetime(Visits(arrivals + [a])) && KeyLasts(keys, limit, Visits(arrivals + [a]), a.window)
    ensures var before := ScriptGranted(keys, limit, arrivals);
            ScriptGranted(keys, limit, arrivals + [a]) ==
            before + if (if a.window in keys then keys[a.window].count else 0) + OfWindow(before, a.window) + a.amount <= limit then [a] else []
    decreases |arrivals|
  {
    var all := arrivals + [a];
    if arrivals == [] {
      assert Visits(all)[0] == Visit(a.window, a.at) && Visits(all)[0] in Visits(all);
      assert all == [a] && [a][1..] == [];
    } else {
      assert all[1..] == arrivals[1..] + [a];
      KeyStillLasts(keys, limit, all, a.window);
      LastCallIsGrantedIff(ScriptRun(keys, arrivals[0], limit), limit, arrivals[1..], a);
      OneCallBefore(keys, limit, arrivals, a.window);
      ScriptStep(keys, limit, arrivals, a.window);
    }
  }

  /** A call that reaches a lasting key counts beside what the key counts already. */
  lemma OneCallBefore(keys: map<int, Entry>, limit: nat, arrivals: seq<Arrival>, w: int)
    requires arrivals != [] && (w in keys && arrivals[0].window == w ==> arrivals[0].at < keys[w].expires)
    ensures var a, after := arrivals[0], ScriptRun(keys, arrivals[0], limit);
            (if w in after then after[w].count else 0) ==
            (if w in keys then keys[w].count else 0) + if ScriptAllows(keys, a, limit) && a.window == w then a.amount else 0
  {
  }

  /** While the calls of each minute reach Redis within 70 seconds of one another, the script grants a call exactly when it fits beside
      all that its minute was granted before. */
  lemma ScriptGrantedIff(limit: nat, arrivals: seq<Arrival>, a: Arrival)
    requires WithinLifetime(Visits(arrivals + [a]))
    ensures var before := ScriptGranted(map[], limit, arrivals);
            ScriptGranted(map[], limit, arrivals + [a]) == before + if OfWindow(before, a.window) + a.amount <= limit then [a] else []
  {
    LastCallIsGrantedIff(map[], limit, arrivals, a);
  }

  /** Every call asks for the whole limit. */
  function Greedy(vs: seq<Visit>, limit: nat): (arrivals: seq<Arrival>)
    ensures Visits(arrivals) == vs && forall a <- arrivals :: a.amount == limit
  {
    seq(|vs|, i requires 0 <= i < |vs| => Arrival(vs[i].window, vs[i].at, limit))
  }

  /** A call that finds no live key of its minute is granted the limit. */
  lemma {:induction false} GreedyGetsTheLimit(keys: map<int, Entry>, limit: nat, arrivals: seq<Arrival>, w: int, j: nat)
    requires limit >= 1 && (forall a <- arrivals :: a.amount == limit) && j < |arrivals| && arrivals[j].window == w
    requires w in keys ==> keys[w].expires <= arrivals[j].at
    ensures OfWindow(ScriptGranted(keys, limit, arrivals), w) >= limit
    decreases |arrivals|
  {
    var a := arrivals[0];
    ScriptStep(keys, limit, arrivals, w);
    assert a.amount == limit;
    if !(ScriptAllows(keys, a, limit) && a.window == w) {
      assert j > 0;
      GreedyGetsTheLimit(ScriptRun(keys, a, limit), limit, arrivals[1..], w, j - 1);
    }
  }

  /** Two calls of a minute a lifetime apart are both granted it. */
  lemma {:induction false} ApartIsGrantedTwice(keys: map<int, Entry>, limit: nat, arrivals: seq<Arrival>, w: int, i: nat, j: nat)
    requires limit >= 1 && (forall a <- arrivals :: a.amount == limit) && w !in keys && Chronological(Visits(arrivals))
    requires i < j < |arrivals| && arrivals[i].window == arrivals[j].window == w && arrivals[i].at + KEY_TTL <= arrivals[j].at
    ensures OfWindow(ScriptGranted(keys, limit, arrivals), w) >= 2 * limit
    decreases |arrivals|
  {
    var a, vs := arrivals[0], Visits(arrivals);
    ScriptStep(keys, limit, arrivals, w);
    assert a.amount == limit;
    if a.window == w {
      assert vs[0].at <= vs[i].at;
      GreedyGetsTheLimit(ScriptRun(keys, a, limit), limit, arrivals[1..], w, j - 1);
    } else {
      LaterVisits(arrivals);
      ApartIsGrantedTwice(ScriptRun(keys, a, limit), limit, arrivals[1..], w, i - 1, j - 1);
    }
  }

  lemma LaterVisits(arrivals: seq<Arrival>)
    requires arrivals != [] && Chronological(Visits(arrivals))
    ensures Chronological(Visits(arrivals[1..]))
  {
    assert Visits(arrivals[1..]) == Visits(arrivals)[1..];
  }

  ghost predicate ScriptNeverOverLimit(limit: nat, vs: seq<Visit>) {
    forall arrivals: seq<Arrival>, w: int :: Visits(arrivals) == vs && (forall a <- arrivals :: 1 <= a.amount <= limit) ==>
      OfWindow(ScriptGranted(map[], limit, arrivals), w) <= limit
  }

  /** The script keeps every minute within the limit, whatever is asked for, exactly when no two calls of one minute reach it 70
      seconds apart. */
  lemma ScriptWithinLimitIff(limit: nat, vs: seq<Visit>)
    requires limit >= 1 && Chronological(vs)
    ensures ScriptNeverOverLimit(limit, vs) <==> WithinLifetime(vs)
  {
    if WithinLifetime(vs) {
      forall arrivals: seq<Arrival>, w: int | Visits(arrivals) == vs && forall a <- arrivals :: 1 <= a.amount <= limit
        ensures OfWindow(ScriptGranted(map[], limit, arrivals), w) <= limit
      {
        LastingKeyWithinLimit(map[], limit, arrivals, w);
      }
    } else {
      var i, j :| 0 <= i < j < |vs| && vs[i].window == vs[j].window && vs[j].at >= vs[i].at + KEY_TTL;
      var arrivals := Greedy(vs, limit);
      ApartIsGrantedTwice(map[], limit, arrivals, vs[i].window, i, j);
      assert OfWindow(ScriptGranted(map[], limit, arrivals), vs[i].window) > limit;
    }
  }

  // ----- Both counters -----

  /** While Redis does not answer the local counter decides, and knows nothing of what the script granted: a minute served by both
      gets at most twice the limit. */
  lemma BothCountersWithinTwiceTheLimit(limit: nat, rs: seq<Request>, arrivals: seq<Arrival>, w: int)
    requires NoReturn(Windows(rs)) && WithinLifetime(Visits(arrivals))
    ensures InWindow(Granted(Budget(0, 0), limit, rs), w) + OfWindow(ScriptGranted(map[], limit, arrivals), w) <= 2 * limit
  {
    WindowWithinLimit(Budget(0, 0), limit, rs, w);
    LastingKeyWithinLimit(map[], limit, arrivals, w);
  }

  /** And can get it. */
  lemma BothCountersGrantTheLimit(limit: nat) returns (r: Request, a: Arrival)
    ensures InWindow(Granted(Budget(0, 0), limit, [r]), 1) + OfWindow(ScriptGranted(map[], limit, [a]), 1) == 2 * limit
  {
    r, a := Request(MINUTE, limit), Arrival(1, MINUTE, limit);
    GrantOne(Budget(0, 0), limit, r);
    InWindowCons(r, [], 1);
    OfWindowCons(a, [], 1);
    assert [r] + [] == [r] && [a] + [] == [a] && [a][1..] == [];
    assert ScriptGranted(map[], limit, [a]) == [a] + ScriptGranted(ScriptRun(map[], a, limit), limit, []);
  }
}
