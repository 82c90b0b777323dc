/** The cache of broker SDK contexts per account and credential (`longbridge_sdk_client.py`). */
module SdkContexts {
  /** The limits come from the environment, clamped to these ranges; every result holds for all of them. Times are seconds. */
  type Lifetime = t: real | t >= 30.0 witness 30.0
  type AccountLimit = n: nat | 1 <= n <= 64 witness 4

  const TTL: Lifetime
  const MAX_ACCOUNTS: AccountLimit

  /** The cache key: the account and the fingerprint of its credentials. */
  datatype Key = Key(account: string, fingerprint: string)

  datatype Kind = Quote | Trade | Content

  datatype Context = Context(kind: Kind, serial: nat)

  datatype Contexts = Contexts(quote: Context, trade: Context, content: Context)

  // ----- Which keys survive -----

  function Accounts(keys: set<Key>): set<string> {
    set k | k in keys :: k.account
  }

  predicate IsStale(used: map<Key, real>, k: Key, now: real)
    requires k in used
  {
    now - used[k] > TTL
  }

  function Fresh(used: map<Key, real>, now: real): set<Key> {
    set k | k in used && !IsStale(used, k, now)
  }

  /** The keys of `live` used no earlier than `k`. */
  function UsedSince(used: map<Key, real>, live: set<Key>, k: Key): set<Key>
    requires live <= used.Keys && k in used
  {
    set j | j in live && used[j] >= used[k]
  }

  /** A key survives when it is not stale and the keys used since then, itself among them, fit the account limit. */
  predicate Survives(used: map<Key, real>, k: Key, now: real) {
    k in used && !IsStale(used, k, now) && |Accounts(UsedSince(used, Fresh(used, now), k))| <= MAX_ACCOUNTS
  }

  /** No two keys were used at the same time, and none later than now. */
  ghost predicate Strict(used: map<Key, real>, now: real) {
    (forall j, k :: j in used && k in used && j != k ==> used[j] != used[k]) && forall k <- used :: used[k] <= now
  }

  lemma FewerAccounts(some: set<Key>, all: set<Key>)
    requires some <= all
    ensures |Accounts(some)| <= |Accounts(all)|
  {
    assert Accounts(some) <= Accounts(all);
    SubsetSize(Accounts(some), Accounts(all));
  }

  lemma SubsetSize<T>(a: set<T>, b: set<T>)
    requires a <= b
    ensures |a| <= |b|
  {
    assert a + (b - a) == b;
  }

  /** The keys that are left when the oldest have been removed one by one down to the limit are the surviving ones. */
  lemma OldestFirstLeavesSurvivors(used: map<Key, real>, now: real, left: set<Key>)
    requires left <= Fresh(used, now) && |Accounts(left)| <= MAX_ACCOUNTS
    requires forall k <- left :: UsedSince(used, Fresh(used, now), k) <= left
    requires forall k <- Fresh(used, now) - left :: |Accounts(UsedSince(used, Fresh(used, now), k))| > MAX_ACCOUNTS
    ensures forall k :: k in left <==> Survives(used, k, now)
  {
    forall k <- left
      ensures Survives(used, k, now)
    {
      FewerAccounts(UsedSince(used, Fresh(used, now), k), left);
    }
  }

  /** One account fits the limit, so the key used last always survives. */
  lemma LatestSurvives(used: map<Key, real>, now: real, k: Key)
    requires Strict(used, now) && k in used && used[k] == now
    ensures Survives(used, k, now)
  {
    assert UsedSince(used, Fresh(used, now), k) == {k};
    assert Accounts({k}) == {k.account};
  }

  /** Survivors never exceed the limit together. */
  lemma SurvivorsFit(used: map<Key, real>, now: real, keys: set<Key>)
    requires Strict(used, now) && keys <= used.Keys && forall k <- keys :: Survives(used, k, now)
    ensures |Accounts(keys)| <= MAX_ACCOUNTS
  {
    if keys == {} {
      assert Accounts(keys) == {};
    } else {
      var oldest := OldestOf(used, keys);
      assert keys <= UsedSince(used, Fresh(used, now), oldest);
      FewerAccounts(keys, UsedSince(used, Fresh(used, now), oldest));
    }
  }

  lemma {:induction false} OldestOf(used: map<Key, real>, keys: set<Key>) returns (k: Key)
    requires keys != {} && keys <= used.Keys
    ensures k in keys && forall j <- keys :: used[k] <= used[j]
  {
    k :| k in keys;
    if keys != {k} {
      var o := OldestOf(used, keys - {k});
      if used[o] < used[k] {
        k := o;
      }
    }
  }

  // ----- The cache as a value -----

  /** Three maps from a key to the serial number of a context, the times of last use, and the contexts closed so far. */
  datatype Cache = Cache(
    quote: map<Key, nat>, trade: map<Key, nat>, content: map<Key, nat>, lastUsed: map<Key, real>, closed: set<Context>, next: nat)

  /** The four maps hold the same keys; a cached context belongs to one key and was never closed. */
  ghost predicate Valid(c: Cache) {
    c.quote == c.trade == c.content && c.quote.Keys == c.lastUsed.Keys && OneKeyEach(c.quote) &&
    (forall k <- c.quote :: c.quote[k] < c.next) &&
    forall x <- c.closed :: x.serial < c.next && x.serial !in c.quote.Values
  }

  ghost predicate OneKeyEach(m: map<Key, nat>) {
    forall j, k :: j in m && k in m && m[j] == m[k] ==> j == k
  }

  function Of(kind: Kind, m: map<Key, nat>, keys: set<Key>): set<Context> {
    set k | k in keys && k in m :: Context(kind, m[k])
  }

  function ContextsOf(c: Cache, keys: set<Key>): set<Context> {
    Of(Quote, c.quote, keys) + Of(Trade, c.trade, keys) + Of(Content, c.content, keys)
  }

  /** Without `keys`, whose contexts are closed. */
  function Dropped(c: Cache, keys: set<Key>): Cache {
    Cache(c.quote - keys, c.trade - keys, c.content - keys, c.lastUsed - keys, c.closed + ContextsOf(c, keys), c.next)
  }

  lemma DropKeepsValid(c: Cache, keys: set<Key>)
    requires Valid(c)
    ensures Valid(Dropped(c, keys))
  {
    var d := Dropped(c, keys);
    forall x <- d.closed
      ensures x.serial < d.next && x.serial !in d.quote.Values
    {
      if x !in c.closed {
        var k :| k in keys && k in c.quote && x.serial == c.quote[k];
      }
    }
  }

  lemma OfMore(kind: Kind, m: map<Key, nat>, a: set<Key>, b: set<Key>)
    ensures Of(kind, m, a) + Of(kind, m - a, b) == Of(kind, m, a + b)
  {
    forall x | x in Of(kind, m, a + b)
      ensures x in Of(kind, m, a) + Of(kind, m - a, b)
    {
      var k :| k in a + b && k in m && x == Context(kind, m[k]);
      assert k in a || k in m - a;
    }
  }

  lemma ContextsOfMore(c: Cache, a: set<Key>, b: set<Key>)
    ensures ContextsOf(c, a) + ContextsOf(Dropped(c, a), b) == ContextsOf(c, a + b)
  {
    OfMore(Quote, c.quote, a, b);
    OfMore(Trade, c.trade, a, b);
    OfMore(Content, c.content, a, b);
  }

  lemma LeftTwice<T>(m: map<Key, T>, a: set<Key>, b: set<Key>)
    ensures m - a - b == m - (a + b)
  {
  }

  lemma DropMore(c: Cache, a: set<Key>, b: set<Key>)
    ensures Dropped(Dropped(c, a), b) == Dropped(c, a + b)
  {
    ContextsOfMore(c, a, b);
    LeftTwice(c.quote, a, b);
    LeftTwice(c.trade, a, b);
    LeftTwice(c.content, a, b);
    LeftTwice(c.lastUsed, a, b);
    UnionTwice(c.closed, ContextsOf(c, a), ContextsOf(Dropped(c, a), b));
  }

  lemma UnionTwice(x: set<Context>, y: set<Context>, z: set<Context>)
    ensures x + y + z == x + (y + z)
  {
  }

  /** The contexts of a key that is looked up: the cached ones, or new ones. */
  function Opened(c: Cache, k: Key): Cache {
    if k in c.quote && k in c.trade && k in c.content then c
    else c.(quote := c.quote[k := c.next], trade := c.trade[k := c.next], content := c.content[k := c.next], next := c.next + 1)
  }

  function Touched(c: Cache, k: Key, now: real): Cache {
    Opened(c, k).(lastUsed := c.lastUsed[k := now])
  }

  lemma TouchKeepsValid(c: Cache, k: Key, now: real)
    requires Valid(c)
    ensures Valid(Touched(c, k, now))
  {
  }

  function Doomed(used: map<Key, real>, now: real): set<Key> {
    set k | k in used && !Survives(used, k, now)
  }

  function AfterLookup(c: Cache, k: Key, now: real): Cache {
    Dropped(Touched(c, k, now), Doomed(c.lastUsed[k := now], now))
  }

  function ContextsFor(c: Cache, k: Key): Contexts
    requires k in c.quote && k in c.trade && k in c.content
  {
    Contexts(Context(Quote, c.quote[k]), Context(Trade, c.trade[k]), Context(Content, c.content[k]))
  }

  /** `r` are the contexts cached for `k`, and none of them was closed. */
  ghost predicate HandedOut(c: Cache, k: Key, r: Contexts) {
    k in c.quote && k in c.trade && k in c.content && r == ContextsFor(c, k) &&
    {r.quote, r.trade, r.content} !! c.closed
  }

  lemma CachedIsOpen(c: Cache, k: Key)
    requires Valid(c) && k in c.quote
    ensures HandedOut(c, k, ContextsFor(c, k))
  {
  }

  /** After a lookup later than all before it: the looked-up contexts are cached and open, no key is stale, the accounts fit
      the limit, and no key that was dropped for the limit is younger than one that was kept. */
  lemma LookupKeeps(c: Cache, k: Key, now: real)
    requires Valid(c) && Strict(c.lastUsed, now) && forall j <- c.lastUsed :: c.lastUsed[j] < now
    ensures var d := AfterLookup(c, k, now);
            Valid(d) && Strict(d.lastUsed, now) &&
            HandedOut(d, k, ContextsFor(Touched(c, k, now), k)) &&
            |Accounts(d.lastUsed.Keys)| <= MAX_ACCOUNTS && (forall j <- d.lastUsed :: !IsStale(d.lastUsed, j, now)) &&
            (forall j <- d.lastUsed :: now - d.lastUsed[j] <= TTL)
  {
    var t, d := Touched(c, k, now), AfterLookup(c, k, now);
    TouchKeepsValid(c, k, now);
    DropKeepsValid(t, Doomed(t.lastUsed, now));
    LatestSurvives(t.lastUsed, now, k);
    SurvivorsKept(t.lastUsed, now);
    CachedIsOpen(d, k);
  }

  lemma SurvivorsKept(used: map<Key, real>, now: real)
    requires Strict(used, now)
    ensures var kept := used - Doomed(used, now);
            Strict(kept, now) && |Accounts(kept.Keys)| <= MAX_ACCOUNTS && forall j <- kept :: !IsStale(kept, j, now)
  {
    SurvivorsFit(used, now, (used - Doomed(used, now)).Keys);
  }

  lemma OldestGoFirst(used: map<Key, real>, now: real, kept: Key, dropped: Key)
    requires Survives(used, kept, now) && dropped in used && !IsStale(used, dropped, now) && !Survives(used, dropped, now)
    ensures used[dropped] < used[kept]
  {
    if used[dropped] >= used[kept] {
      FewerAccounts(UsedSince(used, Fresh(used, now), dropped), UsedSince(used, Fresh(used, now), kept));
    }
  }

  /** The accounts used within the lifetime, and no earlier than `since`. */
  function RecentAccounts(used: map<Key, real>, since: real, now: real): set<string> {
    set k | k in used && now - used[k] <= TTL && used[k] >= since :: k.account
  }

  /** A key survives exactly when it was used within the lifetime and the accounts used since, its own among them, fit the limit. */
  lemma SurvivesIff(used: map<Key, real>, k: Key, now: real)
    ensures Survives(used, k, now) <==>
            k in used && now - used[k] <= TTL && |RecentAccounts(used, used[k], now)| <= MAX_ACCOUNTS
  {
    if k in used {
      var since := UsedSince(used, Fresh(used, now), k);
      assert RecentAccounts(used, used[k], now) == Accounts(since);
    }
  }

  lemma OfIff(kind: Kind, m: map<Key, nat>, keys: set<Key>, x: Context)
    ensures x in Of(kind, m, keys) <==> x.kind == kind && exists j :: j in keys && j in m && m[j] == x.serial
  {
    if x.kind == kind && exists j :: j in keys && j in m && m[j] == x.serial {
      assert x == Context(kind, x.serial);
    }
  }

  lemma ContextsOfIff(c: Cache, keys: set<Key>, x: Context)
    requires Valid(c)
    ensures x in ContextsOf(c, keys) <==> exists j :: j in keys && j in c.quote && c.quote[j] == x.serial
  {
    OfIff(Quote, c.quote, keys, x);
    OfIff(Trade, c.trade, keys, x);
    OfIff(Content, c.content, keys, x);
  }

  /** The contexts under a key after it has been looked up: its own, or the next serial's. */
  function SerialOf(c: Cache, k: Key): nat {
    if k in c.quote then c.quote[k] else c.next
  }

  /** A lookup in figures. The key keeps its three contexts when all are cached, and gets those of the next serial otherwise; a key
      is dropped exactly when it does not survive, and every other one is left as it was. */
  lemma LookupInFigures(c: Cache, k: Key, now: real)
    requires Valid(c)
    ensures var d, used := AfterLookup(c, k, now), c.lastUsed[k := now];
            d.next == c.next + (if k in c.quote then 0 else 1) &&
            (forall j :: j in d.lastUsed <==> Survives(used, j, now)) && (forall j <- d.lastUsed :: d.lastUsed[j] == used[j]) &&
            forall j <- d.quote :: j in d.lastUsed && d.quote[j] == if j == k then SerialOf(c, k) else c.quote[j]
  {
    TouchKeepsValid(c, k, now);
    DropKeepsValid(Touched(c, k, now), Doomed(c.lastUsed[k := now], now));
  }

  /** What it closes are the contexts of the keys it drops. */
  lemma LookupCloses(c: Cache, k: Key, now: real, x: Context)
    requires Valid(c)
    ensures var used := c.lastUsed[k := now];
            x in AfterLookup(c, k, now).closed <==>
            x in c.closed || exists j :: j in used && !Survives(used, j, now) && x.serial == if j == k then SerialOf(c, k) else c.quote[j]
  {
    var t, doomed := Touched(c, k, now), Doomed(c.lastUsed[k := now], now);
    TouchKeepsValid(c, k, now);
    ContextsOfIff(t, doomed, x);
    assert forall j <- t.quote :: t.quote[j] == if j == k then SerialOf(c, k) else c.quote[j];
  }

  // ----- The program -----

  class ContextCache {
    var quote: map<Key, nat>
    var trade: map<Key, nat>
    var content: map<Key, nat>
    var lastUsed: map<Key, real>
    var closed: set<Context>
    var next: nat

    constructor ()
      ensures View() == Cache(map[], map[], map[], map[], {}, 0)
    {
      quote, trade, content, lastUsed, closed, next := map[], map[], map[], map[], {}, 0;
    }

    ghost function View(): Cache
      reads this
    {
      Cache(quote, trade, content, lastUsed, closed, next)
    }

    /** Takes one key out of every map and closes what it held. */
    method RemoveContextKey(k: Key)
      modifies this
      ensures View() == Dropped(old(View()), {k})
    {
      var popped: set<Context> := {};
      if k in quote {
        popped := popped + {Context(Quote, quote[k])};
      }
      if k in trade {
        popped := popped + {Context(Trade, trade[k])};
      }
      if k in content {
        popped := popped + {Context(Content, content[k])};
      }
      assert popped == ContextsOf(View(), {k});
      closed := closed + popped;
      quote := quote - {k};
      trade := trade - {k};
      content := content - {k};
      lastUsed := lastUsed - {k};
    }

    method RemoveAll(doomed: set<Key>)
      modifies this
      ensures View() == Dropped(old(View()), doomed)
    {
      var left := doomed;
      assert doomed - left == {};
      while left != {}
        invariant left <= doomed && View() == Dropped(old(View()), doomed - left)
        decreases |left|
      {
        var k :| k in left;
        RemoveContextKey(k);
        DropMore(old(View()), doomed - left, {k});
        assert doomed - (left - {k}) == (doomed - left) + {k};
        left := left - {k};
      }
      assert doomed - {} == doomed;
    }

    /** Drops every key of one account, whatever its credentials. */
    method DropContexts(account: string)
      requires Valid(View())
      modifies this
      ensures Valid(View()) && View() == Dropped(old(View()), set k | k in old(lastUsed) && k.account == account)
    {
      var doomed := set k | k in lastUsed && k.account == account;
      RemoveAll(doomed);
      DropKeepsValid(old(View()), doomed);
    }

    method Oldest() returns (k: Key)
      requires lastUsed != map[]
      ensures k in lastUsed && forall j <- lastUsed :: lastUsed[k] <= lastUsed[j]
    {
      var rest := lastUsed.Keys;
      k :| k in rest;
      rest := rest - {k};
      while rest != {}
        invariant k in lastUsed && rest <= lastUsed.Keys && forall j <- lastUsed.Keys - rest :: lastUsed[k] <= lastUsed[j]
        decreases |rest|
      {
        var j :| j in rest;
        if lastUsed[j] < lastUsed[k] {
          k := j;
        }
        rest := rest - {j};
      }
    }

    method EvictOne(ghost before: Cache, ghost now: real, ghost gone: set<Key>) returns (ghost more: set<Key>)
      requires Strict(before.lastUsed, now) && Partway(before, now, gone, View()) && |Accounts(lastUsed.Keys)| > MAX_ACCOUNTS
      modifies this
      ensures Partway(before, now, more, View()) && |lastUsed.Keys| < |old(lastUsed).Keys|
    {
      var k := Oldest();
      ghost var here := View();
      PartwayMore(before, now, gone, here, k);
      RemoveContextKey(k);
      more := gone + {k};
      assert lastUsed.Keys == here.lastUsed.Keys - {k};
    }

    /** Stale keys go first, then the oldest until the accounts fit; what is left is what `Survives` says. */
    method EvictStaleContexts(now: real)
      requires Strict(lastUsed, now)
      modifies this
      ensures View() == Dropped(old(View()), Doomed(old(lastUsed), now))
    {
      ghost var before := View();
      var stale := set k | k in lastUsed && IsStale(lastUsed, k, now);
      RemoveAll(stale);
      ghost var gone := stale;
      while |Accounts(lastUsed.Keys)| > MAX_ACCOUNTS
        invariant Partway(before, now, gone, View())
        decreases |lastUsed.Keys|
      {
        gone := EvictOne(before, now, gone);
      }
      EvictionEnds(before.lastUsed, now, lastUsed.Keys, gone);
    }

    method GetContexts(account: string, fingerprint: string, now: real) returns (r: Contexts)
      requires Valid(View()) && Strict(lastUsed, now) && forall k <- lastUsed :: lastUsed[k] < now
      modifies this
      ensures View() == AfterLookup(old(View()), Key(account, fingerprint), now)
      ensures Valid(View()) && |Accounts(lastUsed.Keys)| <= MAX_ACCOUNTS && HandedOut(View(), Key(account, fingerprint), r)
    {
      var key := Key(account, fingerprint);
      if key !in quote || key !in trade || key !in content {
        Open(key);
      }
      lastUsed := lastUsed[key := now];
      r := Contexts(Context(Quote, quote[key]), Context(Trade, trade[key]), Context(Content, content[key]));
      EvictStaleContexts(now);
      LookupKeeps(old(View()), key, now);
    }

    method Open(key: Key)
      requires key !in quote || key !in trade || key !in content
      modifies this
      ensures View() == Opened(old(View()), key) && key in quote && key in trade && key in content
    {
      quote := quote[key := next];
      trade := trade[key := next];
      content := content[key := next];
      next := next + 1;
    }
  }

  // ----- The eviction loop -----

  /** `left` is closed under more recent use, and every fresh key outside it is over the limit. */
  ghost predicate Evicting(used: map<Key, real>, now: real, left: set<Key>) {
    left <= Fresh(used, now) &&
    (forall k <- left :: UsedSince(used, Fresh(used, now), k) <= left) &&
    forall k <- Fresh(used, now) - left :: |Accounts(UsedSince(used, Fresh(used, now), k))| > MAX_ACCOUNTS
  }

  ghost predicate Agrees(left: map<Key, real>, used: map<Key, real>) {
    forall j <- left :: j in used && left[j] == used[j]
  }

  lemma EvictOldest(used: map<Key, real>, now: real, left: map<Key, real>, k: Key)
    requires Evicting(used, now, left.Keys) && Agrees(left, used)
    requires |Accounts(left.Keys)| > MAX_ACCOUNTS && k in left && forall j <- left :: left[k] <= left[j]
    requires Strict(used, now)
    ensures Evicting(used, now, left.Keys - {k})
  {
    assert UsedSince(used, Fresh(used, now), k) == left.Keys;
  }

  ghost predicate Partway(before: Cache, now: real, gone: set<Key>, c: Cache) {
    c == Dropped(before, gone) && gone <= before.lastUsed.Keys && Evicting(before.lastUsed, now, c.lastUsed.Keys)
  }

  lemma PartwayMore(before: Cache, now: real, gone: set<Key>, c: Cache, k: Key)
    requires Strict(before.lastUsed, now) && Partway(before, now, gone, c) && |Accounts(c.lastUsed.Keys)| > MAX_ACCOUNTS
    requires k in c.lastUsed && forall j <- c.lastUsed :: c.lastUsed[k] <= c.lastUsed[j]
    ensures Partway(before, now, gone + {k}, Dropped(c, {k}))
  {
    EvictOldest(before.lastUsed, now, c.lastUsed, k);
    DropMore(before, gone, {k});
    assert Dropped(c, {k}).lastUsed.Keys == c.lastUsed.Keys - {k};
  }

  lemma EvictionEnds(used: map<Key, real>, now: real, left: set<Key>, gone: set<Key>)
    requires Evicting(used, now, left) && |Accounts(left)| <= MAX_ACCOUNTS && gone <= used.Keys && left == used.Keys - gone
    ensures gone == Doomed(used, now)
  {
    OldestFirstLeavesSurvivors(used, now, left);
  }
}
