/** The two-layer cache (pokerapp/cache_manager.py): an in-memory LRU layer before a shared store with expiry. */
module Cache {
  import opened Basics

  /** A cached value; `Null` is the one that a reader cannot tell from a miss. */
  datatype Value = Null | Val(content: string)

  datatype Entry = Entry(value: Value, expiresAt: real)

  datatype Config = Config(l1Ttl: int, l1MaxSize: int, enableL1: bool, enableL2: bool, prefix: string, defaultTtl: int)

  /** Both layers, the access order of the first, and every use of a first-layer key so far. */
  datatype Layers = Layers(l1: map<string, Entry>, order: seq<string>, l2: map<string, Entry>, uses: seq<string>)

  // ---------------------------------------------------------------------------------------------
  // Patterns
  // ---------------------------------------------------------------------------------------------

  /** Glob matching where only the star is special. */
  predicate Glob(key: string, pattern: string)
    decreases |key| + |pattern|
  {
    if pattern == "" then key == ""
    else if pattern[0] == '*' then Glob(key, pattern[1..]) || (key != "" && Glob(key[1..], pattern))
    else key != "" && key[0] == pattern[0] && Glob(key[1..], pattern[1..])
  }

  /** `_matches_pattern` */
  predicate Matches(key: string, pattern: string) {
    if '*' !in pattern then key == pattern else Glob(key, pattern)
  }

  lemma LiteralGlob(key: string, pattern: string)
    requires '*' !in pattern
    ensures Glob(key, pattern) <==> key == pattern
  {
    if pattern != "" && key != "" && key[0] == pattern[0] {
      LiteralGlob(key[1..], pattern[1..]);
      assert key == [key[0]] + key[1..] && pattern == [pattern[0]] + pattern[1..];
    }
  }

  lemma {:induction false} StarFinds(key: string, pattern: string) returns (n: nat)
    requires pattern != "" && pattern[0] == '*' && Glob(key, pattern)
    ensures n <= |key| && Glob(key[n..], pattern[1..])
    decreases |key|
  {
    if Glob(key, pattern[1..]) {
      n := 0;
      assert key[0..] == key;
    } else {
      var m := StarFinds(key[1..], pattern);
      n := m + 1;
      assert key[1..][m..] == key[n..];
    }
  }

  lemma {:induction false} FoundByStar(key: string, pattern: string, n: nat)
    requires pattern != "" && pattern[0] == '*' && n <= |key| && Glob(key[n..], pattern[1..])
    ensures Glob(key, pattern)
    decreases n
  {
    if n == 0 {
      assert key[0..] == key;
    } else {
      assert key[1..][n - 1..] == key[n..];
      FoundByStar(key[1..], pattern, n - 1);
    }
  }

  lemma LetterOrStar(key: string, c: char, rest: string)
    ensures ([c] + rest)[0] == c && ([c] + rest)[1..] == rest
    ensures c != '*' ==> (Glob(key, [c] + rest) <==> key != "" && key[0] == c && Glob(key[1..], rest))
  {
  }

  /** What a glob means: nothing but the star is special, and a star stands for any part of the key. */
  lemma GlobMeans(key: string, c: char, rest: string)
    ensures Glob(key, "") <==> key == ""
    ensures c != '*' ==> (Glob(key, [c] + rest) <==> key != "" && key[0] == c && Glob(key[1..], rest))
    ensures c == '*' ==> (Glob(key, [c] + rest) <==> exists n: nat :: n <= |key| && Glob(key[n..], rest))
  {
    LetterOrStar(key, c, rest);
    if c == '*' {
      if Glob(key, [c] + rest) {
        var n := StarFinds(key, [c] + rest);
      }
      if n: nat :| n <= |key| && Glob(key[n..], rest) {
        FoundByStar(key, [c] + rest, n);
      }
    }
  }

  /** The second layer matches prefixed keys against the prefixed pattern; that selects the same keys. */
  lemma PrefixedMatch(prefix: string, key: string, pattern: string)
    requires '*' !in prefix
    ensures Glob(prefix + key, prefix + pattern) <==> Matches(key, pattern)
    decreases |prefix|
  {
    if prefix == "" {
      assert prefix + key == key && prefix + pattern == pattern;
      if '*' !in pattern {
        LiteralGlob(key, pattern);
      }
    } else {
      assert (prefix + key)[1..] == prefix[1..] + key && (prefix + pattern)[1..] == prefix[1..] + pattern;
      PrefixedMatch(prefix[1..], key, pattern);
    }
  }

  // ---------------------------------------------------------------------------------------------
  // Specification of the operations
  // ---------------------------------------------------------------------------------------------

  /** The list without the first occurrence of `key`. */
  function Without(order: seq<string>, key: string): seq<string> {
    if order == [] then [] else if order[0] == key then order[1..] else [order[0]] + Without(order[1..], key)
  }

  function Effective(ttl: Option<int>, fallback: int): int {
    if ttl == None || ttl.value == 0 then fallback else ttl.value
  }

  /** The first layer has no room: its oldest entry goes. */
  function Evict(c: Layers, h: Config): Layers {
    if |c.l1| >= h.l1MaxSize && c.order != [] then c.(l1 := c.l1 - {c.order[0]}, order := c.order[1..]) else c
  }

  function Use(c: Layers, key: string): Layers {
    c.(order := Without(c.order, key) + [key], uses := c.uses + [key])
  }

  /** `_set_to_l1` */
  function SetL1(c: Layers, h: Config, key: string, value: Value, ttl: Option<int>, now: real): Layers {
    var roomy := Evict(c, h);
    Use(roomy.(l1 := roomy.l1[key := Entry(value, now + Effective(ttl, h.l1Ttl) as real)]), key)
  }

  function DropL1(c: Layers, key: string): Layers {
    c.(l1 := c.l1 - {key}, order := Without(c.order, key))
  }

  /** `_get_from_l1` */
  function GetL1(c: Layers, key: string, now: real): (Layers, Value) {
    if key !in c.l1 then (c, Null)
    else if now > c.l1[key].expiresAt then (DropL1(c, key), Null)
    else (Use(c, key), c.l1[key].value)
  }

  /** `_get_from_l2` on a store that drops a key once its time has passed. */
  function GetL2(c: Layers, h: Config, key: string, now: real): Value {
    var k := h.prefix + key;
    if k in c.l2 && now <= c.l2[k].expiresAt then c.l2[k].value else Null
  }

  /** `_set_to_l2`; the store refuses a time to live that is not positive, and the refusal is only logged. */
  function SetL2(c: Layers, h: Config, key: string, value: Value, ttl: int, now: real): Layers {
    if ttl <= 0 then c else c.(l2 := c.l2[h.prefix + key := Entry(value, now + ttl as real)])
  }

  /** `get` */
  function Get(c: Layers, h: Config, key: string, now: real): (Layers, Value) {
    var (c1, v1) := if h.enableL1 then GetL1(c, key, now) else (c, Null);
    if v1 != Null then (c1, v1)
    else
      var v2 := if h.enableL2 then GetL2(c1, h, key, now) else Null;
      (if v2 != Null && h.enableL1 then SetL1(c1, h, key, v2, None, now) else c1, v2)
  }

  /** `set` */
  function Set(c: Layers, h: Config, key: string, value: Value, ttl: Option<int>, now: real): Layers {
    var t := Effective(ttl, h.defaultTtl);
    var c1 := if h.enableL1 then SetL1(c, h, key, value, Some(t), now) else c;
    if h.enableL2 then SetL2(c1, h, key, value, t, now) else c1
  }

  /** The list without any of `keys`. */
  function WithoutAll(order: seq<string>, keys: set<string>): seq<string> {
    if order == [] then []
    else if order[0] in keys then WithoutAll(order[1..], keys)
    else [order[0]] + WithoutAll(order[1..], keys)
  }

  function Selected(c: Layers, pattern: string): set<string> {
    set k | k in c.l1 && Matches(k, pattern)
  }

  function SelectedL2(c: Layers, h: Config, pattern: string): set<string> {
    set k | k in c.l2 && Glob(k, h.prefix + pattern)
  }

  /** `invalidate`: both layers lose the matching keys, and the number of lost entries is reported. */
  function Invalidate(c: Layers, h: Config, pattern: string): (Layers, nat) {
    var dropped := if h.enableL1 then Selected(c, pattern) else {};
    var dropped2 := if h.enableL2 then SelectedL2(c, h, pattern) else {};
    (c.(l1 := c.l1 - dropped, order := WithoutAll(c.order, dropped), l2 := c.l2 - dropped2), |dropped| + |dropped2|)
  }

  lemma WithoutNone(order: seq<string>)
    ensures WithoutAll(order, {}) == order
  {
  }

  lemma {:induction false} WithoutKey(order: seq<string>, key: string)
    requires Distinct(order)
    ensures Without(order, key) == WithoutAll(order, {key})
  {
    if order != [] {
      WithoutKey(order[1..], key);
      if order[0] == key {
        NothingToDrop(order[1..], {key});
      }
    }
  }

  lemma NothingToDrop(order: seq<string>, keys: set<string>)
    requires forall k :: k in order ==> k !in keys
    ensures WithoutAll(order, keys) == order
  {
  }

  lemma {:induction false} WithoutOneMore(order: seq<string>, keys: set<string>, key: string)
    requires Distinct(order)
    ensures Without(WithoutAll(order, keys), key) == WithoutAll(order, keys + {key})
  {
    if order != [] {
      WithoutOneMore(order[1..], keys, key);
      var rest := WithoutAll(order[1..], keys);
      if order[0] !in keys {
        assert WithoutAll(order, keys)[1..] == rest;
        if order[0] == key {
          SameWithout(order[1..], keys, key);
        }
      }
    }
  }

  lemma KeysOfWithout(order: seq<string>, keys: set<string>)
    ensures forall k :: k in WithoutAll(order, keys) <==> k in order && k !in keys
  {
  }

  lemma {:induction false} SameWithout(order: seq<string>, keys: set<string>, key: string)
    requires key !in order
    ensures WithoutAll(order, keys + {key}) == WithoutAll(order, keys)
  {
    if order != [] {
      SameWithout(order[1..], keys, key);
    }
  }

  // ---------------------------------------------------------------------------------------------
  // The cache object
  // ---------------------------------------------------------------------------------------------

  class MultiLayerCache {
    const config: Config
    var l1: map<string, Entry>
    var order: seq<string>
    var l2: map<string, Entry>
    ghost var uses: seq<string>

    constructor (config: Config)
      ensures this.config == config && View() == Layers(map[], [], map[], [])
    {
      this.config := config;
      l1, order, l2, uses := map[], [], map[], [];
    }

    ghost function View(): Layers
      reads this
    {
      Layers(l1, order, l2, uses)
    }

    method GetFromL1(key: string, now: real) returns (value: Value)
      modifies this
      ensures View() == GetL1(old(View()), key, now).0 && value == GetL1(old(View()), key, now).1
    {
      if key !in l1 {
        return Null;
      }
      var entry := l1[key];
      if now > entry.expiresAt {
        RemoveFromL1(key);
        return Null;
      }
      order := Without(order, key) + [key];
      uses := uses + [key];
      return entry.value;
    }

    method SetToL1(key: string, value: Value, ttl: Option<int>, now: real)
      modifies this
      ensures View() == SetL1(old(View()), config, key, value, ttl, now)
    {
      if |l1| >= config.l1MaxSize && order != [] {
        var oldest := order[0];
        order := order[1..];
        l1 := l1 - {oldest};
      }
      l1 := l1[key := Entry(value, now + Effective(ttl, config.l1Ttl) as real)];
      order := Without(order, key) + [key];
      uses := uses + [key];
    }

    method RemoveFromL1(key: string)
      modifies this`l1, this`order
      ensures View() == DropL1(old(View()), key)
    {
      l1 := l1 - {key};
      order := Without(order, key);
    }

    method GetFromL2(key: string, now: real) returns (value: Value)
      ensures value == GetL2(View(), config, key, now)
    {
      var k := config.prefix + key;
      if k !in l2 || now > l2[k].expiresAt {
        return Null;
      }
      return l2[k].value;
    }

    method SetToL2(key: string, value: Value, ttl: int, now: real)
      modifies this`l2
      ensures View() == SetL2(old(View()), config, key, value, ttl, now)
    {
      if ttl > 0 {
        l2 := l2[config.prefix + key := Entry(value, now + ttl as real)];
      }
    }

    method Lookup(key: string, now: real) returns (value: Value)
      modifies this
      ensures View() == Get(old(View()), config, key, now).0 && value == Get(old(View()), config, key, now).1
    {
      if config.enableL1 {
        value := GetFromL1(key, now);
        if value != Null {
          return;
        }
      }
      if config.enableL2 {
        value := GetFromL2(key, now);
        if value != Null {
          if config.enableL1 {
            SetToL1(key, value, None, now);
          }
          return;
        }
      }
      return Null;
    }

    method Store(key: string, value: Value, ttl: Option<int>, now: real)
      modifies this
      ensures View() == Set(old(View()), config, key, value, ttl, now)
    {
      var t := Effective(ttl, config.defaultTtl);
      if config.enableL1 {
        SetToL1(key, value, Some(t), now);
      }
      if config.enableL2 {
        SetToL2(key, value, t, now);
      }
    }

    method RemoveAllFromL1(keys: set<string>)
      requires Distinct(order)
      modifies this`l1, this`order
      ensures l1 == old(l1) - keys && order == WithoutAll(old(order), keys)
    {
      WithoutNone(order);
      ghost var done: set<string> := {};
      var left := keys;
      while left != {}
        invariant done + left == keys
        invariant l1 == old(l1) - done && order == WithoutAll(old(order), done)
        decreases |left|
      {
        var key :| key in left;
        WithoutOneMore(old(order), done, key);
        RemoveFromL1(key);
        left, done := left - {key}, done + {key};
      }
    }

    method InvalidatePattern(pattern: string) returns (removed: nat)
      requires Distinct(order)
      modifies this
      ensures View() == Invalidate(old(View()), config, pattern).0
      ensures removed == Invalidate(old(View()), config, pattern).1
    {
      removed := 0;
      WithoutNone(order);
      if config.enableL1 {
        var keys := set k | k in l1 && Matches(k, pattern);
        RemoveAllFromL1(keys);
        removed := |keys|;
      }
      if config.enableL2 {
        var keys := set k | k in l2 && Glob(k, config.prefix + pattern);
        l2 := l2 - keys;
        removed := removed + |keys|;
      }
      assert l1 - {} == l1 && l2 - {} == l2;
    }
  }

  // ---------------------------------------------------------------------------------------------
  // The first layer is a least-recently-used list
  // ---------------------------------------------------------------------------------------------

  /** When `key` was last used, counted from 1; 0 if never. */
  function LastUse(uses: seq<string>, key: string): nat {
    if uses == [] then 0
    else if uses[|uses| - 1] == key then |uses|
    else LastUse(uses[..|uses| - 1], key)
  }

  /** Every key of the list was used before all keys after it. */
  ghost predicate Recency(order: seq<string>, uses: seq<string>) {
    order != [] ==>
      && (forall k :: k in order[1..] ==> LastUse(uses, order[0]) < LastUse(uses, k))
      && Recency(order[1..], uses)
  }

  /** The list orders exactly the keys of the layer by their last use, and the layer is not too large. */
  ghost predicate Lru(c: Layers, h: Config) {
    && Recency(c.order, c.uses)
    && (forall k :: k in c.order <==> k in c.l1)
    && |c.l1| <= Limit(h)
  }

  /** A limit below one still leaves room for the entry just set. */
  function Limit(h: Config): int {
    if h.l1MaxSize > 1 then h.l1MaxSize else 1
  }

  lemma LastUseIsPast(uses: seq<string>, key: string)
    ensures LastUse(uses, key) <= |uses|
  {
  }

  lemma {:induction false} RecencyMeansDistinct(order: seq<string>, uses: seq<string>)
    requires Recency(order, uses)
    ensures Distinct(order)
  {
    if order != [] {
      RecencyMeansDistinct(order[1..], uses);
      forall i, j | 0 <= i < j < |order| ensures order[i] != order[j] {
        assert order[j] == order[1..][j - 1] && order[j] in order[1..];
        if i > 0 {
          assert order[i] == order[1..][i - 1];
        }
      }
    }
  }

  lemma {:induction false} RecencyOfSome(order: seq<string>, uses: seq<string>, keys: set<string>)
    requires Recency(order, uses)
    ensures Recency(WithoutAll(order, keys), uses)
    ensures forall k :: k in WithoutAll(order, keys) <==> k in order && k !in keys
  {
    KeysOfWithout(order, keys);
    if order != [] {
      RecencyOfSome(order[1..], uses, keys);
      if order[0] !in keys {
        var rest := WithoutAll(order[1..], keys);
        assert WithoutAll(order, keys)[1..] == rest;
        assert forall k :: k in rest ==> k in order[1..];
      }
    }
  }

  /** A use of `key` makes it the last of the list. */
  lemma {:induction false} RecencyAfterUse(order: seq<string>, uses: seq<string>, key: string)
    requires Recency(order, uses) && key !in order
    ensures Recency(order + [key], uses + [key])
  {
    assert LastUse(uses + [key], key) == |uses| + 1;
    if order != [] {
      RecencyAfterUse(order[1..], uses, key);
      assert (order + [key])[1..] == order[1..] + [key];
      forall k | k in order ensures LastUse(uses + [key], k) == LastUse(uses, k) <= |uses| {
        assert (uses + [key])[..|uses|] == uses;
        LastUseIsPast(uses, k);
      }
    } else {
      assert (order + [key])[1..] == [];
    }
  }

  lemma UseKeepsRecency(c: Layers, key: string)
    requires Recency(c.order, c.uses)
    ensures Recency(Use(c, key).order, Use(c, key).uses)
    ensures forall k :: k in Use(c, key).order <==> k in c.order || k == key
  {
    RecencyMeansDistinct(c.order, c.uses);
    WithoutKey(c.order, key);
    RecencyOfSome(c.order, c.uses, {key});
    RecencyAfterUse(Without(c.order, key), c.uses, key);
  }

  lemma OneKeyLess(m: map<string, Entry>, key: string)
    requires key in m
    ensures |m - {key}| == |m| - 1
  {
    assert (m - {key}).Keys == m.Keys - {key};
  }

  lemma OneKeyMore(m: map<string, Entry>, key: string, e: Entry)
    ensures |m[key := e]| <= |m| + 1 && (key in m ==> |m[key := e]| == |m|)
  {
    assert m[key := e].Keys == m.Keys + {key};
  }

  lemma EvictKeepsLru(c: Layers, h: Config)
    requires Lru(c, h)
    ensures Lru(Evict(c, h), h) && |Evict(c, h).l1| < Limit(h)
  {
    if |c.l1| >= h.l1MaxSize && c.order != [] {
      var victim := c.order[0];
      assert victim in c.order && c.order == [victim] + c.order[1..];
      OneKeyLess(c.l1, victim);
      RecencyMeansDistinct(c.order, c.uses);
      assert forall k :: k in c.order[1..] ==> k != victim;
    } else if c.order == [] {
      assert c.l1 == map[];
    }
  }

  lemma SetL1KeepsLru(c: Layers, h: Config, key: string, value: Value, ttl: Option<int>, now: real)
    requires Lru(c, h)
    ensures Lru(SetL1(c, h, key, value, ttl, now), h)
  {
    EvictKeepsLru(c, h);
    var roomy := Evict(c, h);
    var e := Entry(value, now + Effective(ttl, h.l1Ttl) as real);
    OneKeyMore(roomy.l1, key, e);
    UseKeepsRecency(roomy.(l1 := roomy.l1[key := e]), key);
  }

  lemma DropKeepsLru(c: Layers, h: Config, keys: set<string>, l2: map<string, Entry>)
    requires Lru(c, h)
    ensures Lru(c.(l1 := c.l1 - keys, order := WithoutAll(c.order, keys), l2 := l2), h)
  {
    RecencyOfSome(c.order, c.uses, keys);
    Smaller(c.l1, keys);
  }

  lemma Smaller(m: map<string, Entry>, keys: set<string>)
    ensures |m - keys| <= |m|
  {
    SubsetIsSmaller((m - keys).Keys, m.Keys);
  }

  lemma SubsetIsSmaller(a: set<string>, b: set<string>)
    requires a <= b
    ensures |a| <= |b|
  {
    assert b == a + (b - a);
  }

  /** When the first layer is full, the entry that goes is the one used least recently. */
  lemma VictimIsLeastRecentlyUsed(c: Layers, h: Config, victim: string, k: string)
    requires Lru(c, h) && victim in c.l1 && victim !in Evict(c, h).l1 && k in c.l1
    ensures |c.l1| >= h.l1MaxSize
    ensures k in Evict(c, h).l1 <==> k != victim
    ensures LastUse(c.uses, victim) <= LastUse(c.uses, k)
  {
    assert k in c.order && c.order == [victim] + c.order[1..];
  }

  // ---------------------------------------------------------------------------------------------
  // Both layers agree with a simple map
  // ---------------------------------------------------------------------------------------------

  /** What was last set for a key, when, and for how long. */
  datatype Wrote = Wrote(value: Value, at: real, ttl: int)

  datatype Op =
    | DoGet(key: string, now: real)
    | DoSet(key: string, value: Value, ttl: Option<int>, now: real)
    | DoInvalidate(pattern: string)

  function Step(c: Layers, h: Config, op: Op): Layers {
    match op
    case DoGet(key, now) => Get(c, h, key, now).0
    case DoSet(key, value, ttl, now) => Set(c, h, key, value, ttl, now)
    case DoInvalidate(pattern) => Invalidate(c, h, pattern).0
  }

  /** The simple map: the last value set since a matching invalidation. */
  function Simple(m: map<string, Wrote>, h: Config, op: Op): map<string, Wrote> {
    match op
    case DoGet(_, _) => m
    case DoSet(key, value, ttl, now) => m[key := Wrote(value, now, Effective(ttl, h.defaultTtl))]
    case DoInvalidate(pattern) => map k | k in m && !Matches(k, pattern) :: m[k]
  }

  function After(h: Config, ops: seq<Op>): (Layers, map<string, Wrote>) {
    if ops == [] then (Layers(map[], [], map[], []), map[])
    else
      var (c, m) := After(h, ops[..|ops| - 1]);
      (Step(c, h, ops[|ops| - 1]), Simple(m, h, ops[|ops| - 1]))
  }

  /** How long after a set its value may still be found in the first layer. */
  function Slack(h: Config): real {
    if h.l1Ttl > 0 then h.l1Ttl as real else 0.0
  }

  ghost predicate AgreesL1(l1: map<string, Entry>, m: map<string, Wrote>, h: Config) {
    forall k :: k in l1 ==>
      k in m && l1[k].value == m[k].value && l1[k].expiresAt <= m[k].at + m[k].ttl as real + Slack(h)
  }

  ghost predicate AgreesL2(l2: map<string, Entry>, m: map<string, Wrote>, h: Config) {
    forall k :: h.prefix + k in l2 ==>
      && k in m && l2[h.prefix + k].value == m[k].value
      && l2[h.prefix + k].expiresAt <= m[k].at + m[k].ttl as real
  }

  /** The layers that are consulted hold nothing but current values. */
  ghost predicate Agrees(c: Layers, m: map<string, Wrote>, h: Config) {
    (h.enableL1 ==> AgreesL1(c.l1, m, h)) && (h.enableL2 ==> AgreesL2(c.l2, m, h))
  }

  /** The shared store accepts the set. */
  predicate Writable(h: Config, op: Op) {
    op.DoSet? ==> Effective(op.ttl, h.defaultTtl) > 0
  }

  lemma PrefixIsInjective(prefix: string, a: string, b: string)
    ensures prefix + a == prefix + b <==> a == b
  {
    assert (prefix + a)[|prefix|..] == a && (prefix + b)[|prefix|..] == b;
  }

  lemma SetL1Agrees(c: Layers, m: map<string, Wrote>, h: Config, key: string, ttl: Option<int>, now: real, wrote: Wrote)
    requires AgreesL1(c.l1, m, h)
    requires now + Effective(ttl, h.l1Ttl) as real <= wrote.at + wrote.ttl as real + Slack(h)
    ensures AgreesL1(SetL1(c, h, key, wrote.value, ttl, now).l1, m[key := wrote], h)
  {
  }

  lemma SetL2Agrees(c: Layers, m: map<string, Wrote>, h: Config, key: string, wrote: Wrote)
    requires AgreesL2(c.l2, m, h) && wrote.ttl > 0
    ensures AgreesL2(SetL2(c, h, key, wrote.value, wrote.ttl, wrote.at).l2, m[key := wrote], h)
  {
    forall k: string ensures h.prefix + k == h.prefix + key <==> k == key {
      PrefixIsInjective(h.prefix, k, key);
    }
  }

  lemma SetKeepsAgreement(c: Layers, m: map<string, Wrote>, h: Config, op: Op)
    requires Agrees(c, m, h) && op.DoSet? && Writable(h, op)
    ensures Agrees(Step(c, h, op), Simple(m, h, op), h)
  {
    var t := Effective(op.ttl, h.defaultTtl);
    var wrote := Wrote(op.value, op.now, t);
    var c1 := if h.enableL1 then SetL1(c, h, op.key, op.value, Some(t), op.now) else c;
    if h.enableL1 {
      SetL1Agrees(c, m, h, op.key, Some(t), op.now, wrote);
    }
    if h.enableL2 {
      SetL2Agrees(c1, m, h, op.key, wrote);
    }
  }

  /** What the shared layer still returns is current, and lives no longer than it was set for. */
  lemma FoundInL2(c: Layers, m: map<string, Wrote>, h: Config, key: string, now: real)
    requires AgreesL2(c.l2, m, h) && GetL2(c, h, key, now) != Null
    ensures key in m && GetL2(c, h, key, now) == m[key].value && now <= m[key].at + m[key].ttl as real
  {
  }

  lemma GetKeepsAgreement(c: Layers, m: map<string, Wrote>, h: Config, key: string, now: real)
    requires Agrees(c, m, h)
    ensures Agrees(Get(c, h, key, now).0, m, h)
  {
    var c1 := if h.enableL1 then GetL1(c, key, now).0 else c;
    assert Agrees(c1, m, h);
    if h.enableL1 && h.enableL2 && GetL2(c1, h, key, now) != Null {
      FoundInL2(c1, m, h, key, now);
      SetL1Agrees(c1, m, h, key, None, now, m[key]);
      assert m[key := m[key]] == m;
    }
  }

  lemma InvalidateKeepsAgreement(c: Layers, m: map<string, Wrote>, h: Config, pattern: string)
    requires Agrees(c, m, h) && '*' !in h.prefix
    ensures Agrees(Invalidate(c, h, pattern).0, Simple(m, h, DoInvalidate(pattern)), h)
  {
    forall k: string ensures Glob(h.prefix + k, h.prefix + pattern) <==> Matches(k, pattern) {
      PrefixedMatch(h.prefix, k, pattern);
    }
  }

  lemma GetL1KeepsLru(c: Layers, h: Config, key: string, now: real)
    requires Lru(c, h)
    ensures Lru(GetL1(c, key, now).0, h)
  {
    UseKeepsRecency(c, key);
    RecencyMeansDistinct(c.order, c.uses);
    WithoutKey(c.order, key);
    DropKeepsLru(c, h, {key}, c.l2);
  }

  lemma GetKeepsLru(c: Layers, h: Config, key: string, now: real)
    requires Lru(c, h)
    ensures Lru(Get(c, h, key, now).0, h)
  {
    GetL1KeepsLru(c, h, key, now);
    var c1 := if h.enableL1 then GetL1(c, key, now).0 else c;
    SetL1KeepsLru(c1, h, key, GetL2(c1, h, key, now), None, now);
  }

  lemma SetKeepsLru(c: Layers, h: Config, key: string, value: Value, ttl: Option<int>, now: real)
    requires Lru(c, h)
    ensures Lru(Set(c, h, key, value, ttl, now), h)
  {
    SetL1KeepsLru(c, h, key, value, Some(Effective(ttl, h.defaultTtl)), now);
  }

  lemma StepKeepsLru(c: Layers, h: Config, op: Op)
    requires Lru(c, h)
    ensures Lru(Step(c, h, op), h)
  {
    match op
    case DoGet(key, now) => GetKeepsLru(c, h, key, now);
    case DoSet(key, value, ttl, now) => SetKeepsLru(c, h, key, value, ttl, now);
    case DoInvalidate(pattern) =>
      DropKeepsLru(c, h, if h.enableL1 then Selected(c, pattern) else {}, Invalidate(c, h, pattern).0.l2);
  }

  /** Every state of every run: the list stays the recency order of exactly the keys of the first layer. */
  lemma {:induction false} RunKeepsLru(h: Config, ops: seq<Op>)
    ensures Lru(After(h, ops).0, h) && Distinct(After(h, ops).0.order)
  {
    if ops != [] {
      RunKeepsLru(h, ops[..|ops| - 1]);
      StepKeepsLru(After(h, ops[..|ops| - 1]).0, h, ops[|ops| - 1]);
      RecencyMeansDistinct(After(h, ops).0.order, After(h, ops).0.uses);
    }
  }

  lemma {:induction false} RunKeepsAgreement(h: Config, ops: seq<Op>)
    requires '*' !in h.prefix && forall op :: op in ops ==> Writable(h, op)
    ensures Agrees(After(h, ops).0, After(h, ops).1, h)
  {
    if ops != [] {
      RunKeepsAgreement(h, ops[..|ops| - 1]);
      var (c, m) := After(h, ops[..|ops| - 1]);
      match ops[|ops| - 1]
      case DoGet(key, now) => GetKeepsAgreement(c, m, h, key, now);
      case DoSet(_, _, _, _) => SetKeepsAgreement(c, m, h, ops[|ops| - 1]);
      case DoInvalidate(pattern) => InvalidateKeepsAgreement(c, m, h, pattern);
    }
  }

  /** Whatever was set, read and invalidated before, a read that finds something finds the last value set for
      the key since a matching invalidation, and not later than its time to live plus that of the first layer. */
  lemma {:induction false} ReadsAreCurrent(h: Config, ops: seq<Op>, key: string, now: real)
    requires '*' !in h.prefix && forall op :: op in ops ==> Writable(h, op)
    ensures var (c, m) := After(h, ops);
            var found := Get(c, h, key, now).1;
            found != Null ==>
              && key in m && found == m[key].value
              && now <= m[key].at + m[key].ttl as real + Slack(h)
  {
    RunKeepsAgreement(h, ops);
  }

  /** The other half: while an enabled shared layer keeps it, a value can be read back. */
  lemma SetIsReadBack(c: Layers, h: Config, key: string, value: Value, ttl: Option<int>, now: real, later: real)
    requires h.enableL2 && value != Null && Effective(ttl, h.defaultTtl) > 0
    requires now <= later <= now + Effective(ttl, h.defaultTtl) as real
    ensures Get(Set(c, h, key, value, ttl, now), h, key, later).1 == value
  {
  }

  /** The shared store refuses the write, and what it holds under the key lives longer than the new entry of the first
      layer. */
  predicate OldValueOutlives(c: Layers, h: Config, key: string, value: Value, ttl: Option<int>, now: real) {
    var t := Effective(ttl, h.defaultTtl);
    var l1Until := now + Effective(Some(t), h.l1Ttl) as real;
    var k := h.prefix + key;
    && h.enableL2 && t <= 0 && k in c.l2 && c.l2[k].value !in {value, Null}
    && c.l2[k].expiresAt >= now
    && (h.enableL1 && value != Null ==> c.l2[k].expiresAt > l1Until)
  }

  lemma OldValueIsFound(c: Layers, h: Config, key: string, value: Value, ttl: Option<int>, now: real)
    requires OldValueOutlives(c, h, key, value, ttl, now)
    ensures var older := c.l2[h.prefix + key];
            Get(Set(c, h, key, value, ttl, now), h, key, older.expiresAt).1 == older.value
  {
  }

  lemma NoOtherValueIsFound(c: Layers, h: Config, key: string, value: Value, ttl: Option<int>, now: real, later: real)
    requires later >= now && Get(Set(c, h, key, value, ttl, now), h, key, later).1 !in {value, Null}
    ensures OldValueOutlives(c, h, key, value, ttl, now)
  {
  }

  /** A set replaces what readers find, at any later time, exactly when no older value outlives it. */
  lemma SetReplacesExactlyWhen(c: Layers, h: Config, key: string, value: Value, ttl: Option<int>, now: real)
    ensures (forall later ::
               later >= now ==> Get(Set(c, h, key, value, ttl, now), h, key, later).1 in {value, Null}) <==>
            !OldValueOutlives(c, h, key, value, ttl, now)
  {
    if OldValueOutlives(c, h, key, value, ttl, now) {
      OldValueIsFound(c, h, key, value, ttl, now);
    }
    forall later | later >= now && Get(Set(c, h, key, value, ttl, now), h, key, later).1 !in {value, Null}
      ensures OldValueOutlives(c, h, key, value, ttl, now)
    {
      NoOtherValueIsFound(c, h, key, value, ttl, now, later);
    }
  }

  /** With a time to live that is not positive the store keeps the old value, and it is read again. */
  lemma RefusedSetIsForgotten(h: Config, key: string)
    requires h == Config(60, 1024, true, true, "poker:cache:", 300)
    ensures var c := Set(Layers(map[], [], map[], []), h, key, Val("old"), Some(300), 0.0);
            Get(Set(c, h, key, Val("new"), Some(-1), 1.0), h, key, 2.0).1 == Val("old")
  {
  }

  /** The other end of a run: one operation more is one step more, of both layers and of what was written. */
  lemma OneStepMore(h: Config, ops: seq<Op>, op: Op)
    ensures After(h, ops + [op]) == (Step(After(h, ops).0, h, op), Simple(After(h, ops).1, h, op))
  {
    assert (ops + [op])[..|ops|] == ops;
  }

  lemma SetL1Writes(c: Layers, h: Config, key: string, value: Value, ttl: Option<int>, now: real)
    ensures var c' := SetL1(c, h, key, value, ttl, now);
            && key in c'.l1 && c'.l1[key] == Entry(value, now + Effective(ttl, h.l1Ttl) as real) && c'.l2 == c.l2
            && forall k :: k in c'.l1 && k != key ==> k in c.l1 && c'.l1[k] == c.l1[k]
  {
    EvictRemoves(c, h);
    var roomy := Evict(c, h);
    var entry := Entry(value, now + Effective(ttl, h.l1Ttl) as real);
    assert SetL1(c, h, key, value, ttl, now).l1 == roomy.l1[key := entry];
  }

  lemma EvictRemoves(c: Layers, h: Config)
    ensures var c' := Evict(c, h);
            c'.l2 == c.l2 && forall k :: k in c'.l1 ==> k in c.l1 && c'.l1[k] == c.l1[k]
  {
  }

  /** A set writes the value to the first layer if that is enabled: for its time to live, or for the default one when
      that is absent or nothing. */
  lemma SetReachesTheFirstLayer(c: Layers, h: Config, key: string, value: Value, ttl: Option<int>, now: real)
    ensures var c' := Set(c, h, key, value, ttl, now);
            var t := if ttl.Some? && ttl.value != 0 then ttl.value else h.defaultTtl;
            && (h.enableL1 ==>
                  && key in c'.l1
                  && c'.l1[key] == Entry(value, now + (if t != 0 then t else h.l1Ttl) as real)
                  && forall k :: k in c'.l1 && k != key ==> k in c.l1 && c'.l1[k] == c.l1[k])
            && (!h.enableL1 ==> c'.l1 == c.l1 && c'.order == c.order)
  {
    var t := Effective(ttl, h.defaultTtl);
    SetL1Writes(c, h, key, value, Some(t), now);
    assert Set(c, h, key, value, ttl, now).l1 == if h.enableL1 then SetL1(c, h, key, value, Some(t), now).l1 else c.l1;
  }

  /** And to the shared layer if that is enabled, which refuses a time to live that is not positive. */
  lemma SetReachesTheSharedLayer(c: Layers, h: Config, key: string, value: Value, ttl: Option<int>, now: real)
    ensures var t := if ttl.Some? && ttl.value != 0 then ttl.value else h.defaultTtl;
            Set(c, h, key, value, ttl, now).l2 ==
              if h.enableL2 && t > 0 then c.l2[h.prefix + key := Entry(value, now + t as real)] else c.l2
  {
    SetL1Writes(c, h, key, value, Some(Effective(ttl, h.defaultTtl)), now);
  }

  lemma GetL1Changes(c: Layers, key: string, now: real)
    ensures var (c', found) := GetL1(c, key, now);
            && c'.l2 == c.l2
            && found == (if key in c.l1 && now <= c.l1[key].expiresAt then c.l1[key].value else Null)
            && (found != Null ==> c'.l1 == c.l1)
            && forall k :: k in c'.l1 ==> k in c.l1 && c'.l1[k] == c.l1[k]
  {
  }

  /** A read changes nothing in the shared layer. What it finds there it leaves in the first layer, if that is enabled,
      for the first layer's own time to live; otherwise it writes nothing. */
  lemma GetRefillsTheFirstLayer(c: Layers, h: Config, key: string, now: real)
    ensures var (c', found) := Get(c, h, key, now);
            var hit := h.enableL1 && key in c.l1 && now <= c.l1[key].expiresAt && c.l1[key].value != Null;
            && c'.l2 == c.l2
            && (found != Null && h.enableL1 && !hit ==>
                  key in c'.l1 && c'.l1[key] == Entry(found, now + h.l1Ttl as real))
            && (hit ==> found == c.l1[key].value && c'.l1 == c.l1)
            && (!h.enableL1 ==> c'.l1 == c.l1)
            && forall k :: k in c'.l1 && k != key ==> k in c.l1 && c'.l1[k] == c.l1[k]
  {
    if h.enableL1 {
      GetL1Changes(c, key, now);
      var c1 := GetL1(c, key, now).0;
      SetL1Writes(c1, h, key, Get(c, h, key, now).1, None, now);
    }
  }

  /** An invalidation takes exactly the matching keys out of the enabled layers, leaves all other entries as they are,
      and reports how many entries it took. */
  lemma InvalidateIsExact(c: Layers, h: Config, pattern: string, key: string)
    requires '*' !in h.prefix
    ensures var (c', n) := Invalidate(c, h, pattern);
            && (key in c'.l1 <==> key in c.l1 && !(h.enableL1 && Matches(key, pattern)))
            && (key in c'.l1 ==> c'.l1[key] == c.l1[key])
            && (h.prefix + key in c'.l2 <==> h.prefix + key in c.l2 && !(h.enableL2 && Matches(key, pattern)))
            && (h.prefix + key in c'.l2 ==> c'.l2[h.prefix + key] == c.l2[h.prefix + key])
            && n == |c.l1| - |c'.l1| + |c.l2| - |c'.l2|
  {
    PrefixedMatch(h.prefix, key, pattern);
    var c' := Invalidate(c, h, pattern).0;
    var dropped := if h.enableL1 then Selected(c, pattern) else {};
    var dropped2 := if h.enableL2 then SelectedL2(c, h, pattern) else {};
    SizeWithout(c.l1, dropped);
    SizeWithout(c.l2, dropped2);
  }

  lemma SizeWithout(m: map<string, Entry>, keys: set<string>)
    requires keys <= m.Keys
    ensures |m - keys| == |m| - |keys|
  {
    assert (m - keys).Keys == m.Keys - keys;
    assert |m.Keys| == |m.Keys - keys| + |keys|;
  }
}
