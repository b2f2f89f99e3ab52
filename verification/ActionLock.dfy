/** The token lock that guards one player's action (pokerapp/lock_manager.py, `_InMemoryActionLockBackend`,
    `acquire_action_lock`, `release_action_lock`). Times are in seconds. */
module ActionLock {
  import opened Basics

  type Key = string
  type Token = nat

  datatype Entry = Entry(token: Token, expiry: real)

  type Store = map<Key, Entry>

  /** `_purge_expired` */
  function Purged(values: Store, now: real): Store {
    map k | k in values && values[k].expiry > now :: values[k]
  }

  /** `set(key, token, nx=True, ex=ex)`, the reply saying whether the key was free. */
  function SetNx(values: Store, now: real, key: Key, token: Token, ex: int): (Store, bool) {
    var live := Purged(values, now);
    if key in live then (live, false) else (live[key := Entry(token, now + ex as real)], true)
  }

  /** The release script: deletes the key only if it still holds `token`. */
  function DeleteIfToken(values: Store, now: real, key: Key, token: Token): (Store, bool) {
    var live := Purged(values, now);
    if key in live && live[key].token == token then (live - {key}, true) else (live, false)
  }

  /** `ttl_seconds` of `acquire_action_lock`: never less than a second. */
  function TtlSeconds(ttl: int): int {
    if ttl <= 0 then 1 else ttl
  }

  /** `_InMemoryActionLockBackend`; `now` is the reading of the clock during the call. */
  class Backend {
    var values: Store

    constructor ()
      ensures values == map[]
    {
      values := map[];
    }

    method PurgeExpired(now: real)
      modifies this
      ensures values == Purged(old(values), now)
    {
      values := map k | k in values && values[k].expiry > now :: values[k];
    }

    /** `set`; without an expiry the source raises ValueError before it touches anything. */
    method Set(key: Key, token: Token, nx: bool, ex: Option<int>, now: real) returns (stored: Option<bool>)
      modifies this
      ensures stored == None <==> ex == None
      ensures ex == None ==> values == old(values)
      ensures ex.Some? && nx ==> (values, stored.value) == SetNx(old(values), now, key, token, ex.value)
      ensures ex.Some? && !nx ==>
                stored.value && values == Purged(old(values), now)[key := Entry(token, now + ex.value as real)]
    {
      if ex == None {
        return None;
      }
      PurgeExpired(now);
      if nx && key in values {
        return Some(false);
      }
      values := values[key := Entry(token, now + ex.value as real)];
      return Some(true);
    }

    method Eval(key: Key, expectedToken: Token, now: real) returns (removed: int)
      modifies this
      ensures removed == if DeleteIfToken(old(values), now, key, expectedToken).1 then 1 else 0
      ensures values == DeleteIfToken(old(values), now, key, expectedToken).0
    {
      PurgeExpired(now);
      if key !in values {
        return 0;
      }
      if values[key].token != expectedToken {
        return 0;
      }
      values := map k | k in values && k != key :: values[k];
      return 1;
    }
  }

  /** `acquire_action_lock`: store and answer. A connection error is answered like a lock that is taken, whether
      or not the store has seen the request. */
  function Acquired(values: Store, now: real, key: Key, token: Token, ttl: int, fault: Fault): (Store, bool) {
    var (stored, ok) := SetNx(values, now, key, token, TtlSeconds(ttl));
    (if fault == Lost then values else stored, ok && fault == Fine)
  }

  /** `release_action_lock`: store and answer. */
  function Released(values: Store, now: real, key: Key, token: Token, fault: Fault): (Store, bool) {
    var (left, ok) := DeleteIfToken(values, now, key, token);
    (if fault == Lost then values else left, ok && fault == Fine)
  }

  /** `acquire_action_lock` with `token` fresh from uuid4. */
  method AcquireActionLock(backend: Backend, key: Key, ttl: int, token: Token, now: real, fault: Fault)
    returns (r: Option<Token>)
    modifies backend
    ensures backend.values == Acquired(old(backend.values), now, key, token, ttl, fault).0
    ensures r == if Acquired(old(backend.values), now, key, token, ttl, fault).1 then Some(token) else None
  {
    var seconds := if ttl <= 0 then 1 else ttl;
    if fault == Lost {
      return None;
    }
    var acquired := backend.Set(key, token, true, Some(seconds), now);
    if fault == Late {
      return None;
    }
    r := if acquired.value then Some(token) else None;
  }

  /** `release_action_lock` */
  method ReleaseActionLock(backend: Backend, key: Key, token: Token, now: real, fault: Fault) returns (released: bool)
    modifies backend
    ensures backend.values == Released(old(backend.values), now, key, token, fault).0
    ensures released == Released(old(backend.values), now, key, token, fault).1
  {
    if fault == Lost {
      return false;
    }
    var result := backend.Eval(key, token, now);
    released := result == 1 && fault == Fine;
  }

  // ---------------------------------------------------------------------------------------------
  // Histories
  // ---------------------------------------------------------------------------------------------

  datatype Op =
    | Acquire(key: Key, token: Token, ttl: int, now: real, fault: Fault)
    | Release(key: Key, token: Token, now: real, fault: Fault)

  /** What the store has granted, whether or not the caller was told, until a release has its effect. */
  datatype Grant = Grant(key: Key, token: Token, expiry: real, released: bool)

  datatype World = World(values: Store, clock: real, grants: seq<Grant>)

  predicate Live(g: Grant, now: real) {
    !g.released && now < g.expiry
  }

  predicate Fresh(w: World, token: Token) {
    forall i :: 0 <= i < |w.grants| ==> w.grants[i].token != token
  }

  /** The clock does not go back and uuid4 never repeats a token that was granted. */
  predicate Allowed(w: World, op: Op) {
    w.clock <= op.now && (op.Acquire? ==> Fresh(w, op.token))
  }

  function MarkReleased(grants: seq<Grant>, token: Token): (r: seq<Grant>)
    ensures |r| == |grants|
    ensures forall i :: 0 <= i < |r| ==>
              r[i] == if grants[i].token == token then grants[i].(released := true) else grants[i]
  {
    if grants == [] then []
    else
      var first := if grants[0].token == token then grants[0].(released := true) else grants[0];
      [first] + MarkReleased(grants[1..], token)
  }

  function Do(w: World, op: Op): World {
    match op
    case Acquire(key, token, ttl, now, fault) =>
      var ok := fault != Lost && SetNx(w.values, now, key, token, TtlSeconds(ttl)).1;
      var grant := Grant(key, token, now + TtlSeconds(ttl) as real, false);
      World(Acquired(w.values, now, key, token, ttl, fault).0, now, if ok then w.grants + [grant] else w.grants)
    case Release(key, token, now, fault) =>
      var ok := fault != Lost && DeleteIfToken(w.values, now, key, token).1;
      World(Released(w.values, now, key, token, fault).0, now, if ok then MarkReleased(w.grants, token) else w.grants)
  }

  ghost predicate Run(worlds: seq<World>, ops: seq<Op>) {
    && |worlds| == |ops| + 1
    && worlds[0].values == map[] && worlds[0].grants == []
    && forall i :: 0 <= i < |ops| ==> Allowed(worlds[i], ops[i]) && worlds[i + 1] == Do(worlds[i], ops[i])
  }

  predicate Stored(values: Store, now: real, key: Key, token: Token) {
    key in values && values[key].token == token && values[key].expiry > now
  }

  /** The token was granted for the key and is live. */
  ghost predicate Owned(w: World, key: Key, token: Token, now: real) {
    exists i :: 0 <= i < |w.grants| && w.grants[i].key == key && w.grants[i].token == token && Live(w.grants[i], now)
  }

  ghost predicate TokensDiffer(w: World) {
    forall i, j :: 0 <= i < j < |w.grants| ==> w.grants[i].token != w.grants[j].token
  }

  /** A live grant is what the store holds. */
  ghost predicate LiveStored(w: World) {
    forall i :: 0 <= i < |w.grants| && Live(w.grants[i], w.clock) ==>
      w.grants[i].key in w.values && w.values[w.grants[i].key] == Entry(w.grants[i].token, w.grants[i].expiry)
  }

  /** The store holds nothing but unreleased grants. */
  ghost predicate AllBacked(w: World) {
    forall k :: k in w.values ==> Backed(w, k)
  }

  ghost predicate Backed(w: World, key: Key)
    requires key in w.values
  {
    exists i :: 0 <= i < |w.grants| && w.grants[i] == Grant(key, w.values[key].token, w.values[key].expiry, false)
  }

  ghost predicate Inv(w: World) {
    TokensDiffer(w) && LiveStored(w) && AllBacked(w)
  }

  lemma AcquireKeepsInv(w: World, op: Op)
    requires Inv(w) && Allowed(w, op) && op.Acquire?
    ensures Inv(Do(w, op))
  {
    var w' := Do(w, op);
    forall k | k in w'.values ensures Backed(w', k) {
      if k in w.values && w'.values[k] == w.values[k] {
        assert Backed(w, k);
        var i :| 0 <= i < |w.grants| && w.grants[i] == Grant(k, w.values[k].token, w.values[k].expiry, false);
        assert w'.grants[i] == w.grants[i];
      } else {
        assert w'.grants[|w.grants|].key == k;
      }
    }
  }

  lemma ReleaseKeepsLiveStored(w: World, op: Op)
    requires Inv(w) && Allowed(w, op) && op.Release?
    ensures LiveStored(Do(w, op))
  {
    var w' := Do(w, op);
    forall i | 0 <= i < |w'.grants| && Live(w'.grants[i], w'.clock)
      ensures w'.grants[i].key in w'.values
      ensures w'.values[w'.grants[i].key] == Entry(w'.grants[i].token, w'.grants[i].expiry)
    {
      assert w'.grants[i] == w.grants[i] && Live(w.grants[i], w.clock);
    }
  }

  lemma TokensNameKeys(w: World)
    requires TokensDiffer(w) && AllBacked(w)
    ensures forall k, l :: k in w.values && l in w.values && w.values[k].token == w.values[l].token ==> k == l
  {
    forall k, l | k in w.values && l in w.values && w.values[k].token == w.values[l].token
      ensures k == l
    {
      assert Backed(w, k) && Backed(w, l);
      var i :| 0 <= i < |w.grants| && w.grants[i] == Grant(k, w.values[k].token, w.values[k].expiry, false);
      var j :| 0 <= j < |w.grants| && w.grants[j] == Grant(l, w.values[l].token, w.values[l].expiry, false);
    }
  }

  lemma ReleaseKeepsBacked(w: World, op: Op)
    requires Inv(w) && Allowed(w, op) && op.Release?
    ensures AllBacked(Do(w, op))
  {
    var w' := Do(w, op);
    TokensNameKeys(w);
    forall k | k in w'.values ensures Backed(w', k) {
      assert k in w.values && w'.values[k] == w.values[k] && Backed(w, k);
      assert op.fault != Lost && DeleteIfToken(w.values, op.now, op.key, op.token).1 ==> w.values[k].token != op.token;
      var i :| 0 <= i < |w.grants| && w.grants[i] == Grant(k, w.values[k].token, w.values[k].expiry, false);
      assert w'.grants[i] == w.grants[i];
    }
  }

  lemma {:induction false} RunKeepsInv(worlds: seq<World>, ops: seq<Op>)
    requires Run(worlds, ops)
    ensures forall i :: 0 <= i < |worlds| ==> Inv(worlds[i])
  {
    for n := 0 to |ops|
      invariant forall i :: 0 <= i <= n ==> Inv(worlds[i])
    {
      if ops[n].Acquire? {
        AcquireKeepsInv(worlds[n], ops[n]);
      } else {
        ReleaseKeepsLiveStored(worlds[n], ops[n]);
        ReleaseKeepsBacked(worlds[n], ops[n]);
      }
    }
  }

  /** At every moment of every run a grant is live exactly when the store still shows its token under its
      key: nobody else's acquire or release ever took it away. */
  lemma LiveMeansStored(worlds: seq<World>, ops: seq<Op>, now: real, i: nat)
    requires Run(worlds, ops)
    requires var w := worlds[|ops|]; w.clock <= now && i < |w.grants|
    ensures var w := worlds[|ops|]; var g := w.grants[i];
            Live(g, now) <==> Stored(w.values, now, g.key, g.token)
  {
    RunKeepsInv(worlds, ops);
    var w := worlds[|ops|];
    if Stored(w.values, now, w.grants[i].key, w.grants[i].token) {
      assert Backed(w, w.grants[i].key);
    }
  }

  /** No key ever has two live tokens. */
  lemma OneLiveTokenPerKey(worlds: seq<World>, ops: seq<Op>, now: real, i: nat, j: nat)
    requires Run(worlds, ops)
    requires var w := worlds[|ops|]; w.clock <= now && i < |w.grants| && j < |w.grants|
    requires var w := worlds[|ops|]; Live(w.grants[i], now) && Live(w.grants[j], now)
    requires var w := worlds[|ops|]; w.grants[i].key == w.grants[j].key
    ensures i == j
  {
    RunKeepsInv(worlds, ops);
  }

  /** A caller gets the lock exactly when its call does not fail and no live token was granted for it. */
  lemma AcquireIsExact(worlds: seq<World>, ops: seq<Op>, key: Key, token: Token, ttl: int, now: real, fault: Fault)
    requires Run(worlds, ops) && worlds[|ops|].clock <= now
    ensures var w := worlds[|ops|];
            Acquired(w.values, now, key, token, ttl, fault).1 <==>
              && fault == Fine
              && forall i :: 0 <= i < |w.grants| && w.grants[i].key == key ==> !Live(w.grants[i], now)
  {
    RunKeepsInv(worlds, ops);
    var w := worlds[|ops|];
    if key in Purged(w.values, now) {
      assert Backed(w, key);
    }
  }

  /** A release answers yes exactly when its call does not fail and its token is live. */
  lemma ReleaseAnswersTheOwner(worlds: seq<World>, ops: seq<Op>, key: Key, token: Token, now: real, fault: Fault)
    requires Run(worlds, ops) && worlds[|ops|].clock <= now
    ensures var w := worlds[|ops|];
            Released(w.values, now, key, token, fault).1 <==> fault == Fine && Owned(w, key, token, now)
  {
    RunKeepsInv(worlds, ops);
    var w := worlds[|ops|];
    if DeleteIfToken(w.values, now, key, token).1 {
      assert Backed(w, key);
      var i :| 0 <= i < |w.grants| && w.grants[i] == Grant(key, w.values[key].token, w.values[key].expiry, false);
      assert w.grants[i].key == key && w.grants[i].token == token && Live(w.grants[i], now);
    }
  }

  /** A release that reaches the store ends the caller's own live grant and no other; in particular a holder
      whose lock expired cannot remove its successor's. */
  lemma ReleaseEndsOnlyItsOwn(worlds: seq<World>, ops: seq<Op>, key: Key, token: Token, now: real, fault: Fault, i: nat)
    requires Run(worlds, ops) && worlds[|ops|].clock <= now && i < |worlds[|ops|].grants|
    ensures var w := worlds[|ops|]; var w' := Do(w, Release(key, token, now, fault));
            var own := w.grants[i].key == key && w.grants[i].token == token;
            Live(w'.grants[i], now) <==> Live(w.grants[i], now) && !(own && fault != Lost)
  {
    RunKeepsInv(worlds, ops);
    ReleaseAnswersTheOwner(worlds, ops, key, token, now, Fine);
  }

  /** A release with this key and token reached the store among the operations from `i` on. */
  ghost predicate ReleasedSince(ops: seq<Op>, i: nat, key: Key, token: Token) {
    exists j :: i <= j < |ops| && Releases(ops[j], key, token)
  }

  predicate Releases(op: Op, key: Key, token: Token) {
    op.Release? && op.key == key && op.token == token && op.fault != Lost
  }

  /** A release that is carried out is one of the grant with its token. */
  lemma ReleaseFindsGrant(w: World, op: Op, g: nat)
    requires Inv(w) && op.Release? && g < |w.grants| && w.grants[g].token == op.token
    requires DeleteIfToken(w.values, op.now, op.key, op.token).1
    ensures w.grants[g].key == op.key
  {
    assert Backed(w, op.key);
    var stored := w.values[op.key];
    var i :| 0 <= i < |w.grants| && w.grants[i] == Grant(op.key, stored.token, stored.expiry, false);
    assert i == g;
  }

  lemma ReleaseKeepsGrant(w: World, op: Op, g: nat, now: real)
    requires Inv(w) && Allowed(w, op) && op.Release? && g < |w.grants| && op.now <= now
    ensures var w' := Do(w, op);
            && g < |w'.grants| && w'.grants[g] == w.grants[g].(released := w'.grants[g].released)
            && (Live(w'.grants[g], now) <==>
                  Live(w.grants[g], now) && !Releases(op, w.grants[g].key, w.grants[g].token))
  {
    if op.token == w.grants[g].token && Live(w.grants[g], now) {
      assert Live(w.grants[g], w.clock);
      if DeleteIfToken(w.values, op.now, op.key, op.token).1 {
        ReleaseFindsGrant(w, op, g);
      }
    }
  }

  lemma StepKeepsGrant(w: World, op: Op, g: nat, now: real)
    requires Inv(w) && Allowed(w, op) && g < |w.grants| && op.now <= now
    ensures var w' := Do(w, op);
            && g < |w'.grants| && w'.grants[g] == w.grants[g].(released := w'.grants[g].released)
            && (Live(w'.grants[g], now) <==>
                  Live(w.grants[g], now) && !Releases(op, w.grants[g].key, w.grants[g].token))
  {
    if op.Release? {
      ReleaseKeepsGrant(w, op, g, now);
    }
  }

  lemma {:induction false} GrantLivesOn(worlds: seq<World>, ops: seq<Op>, i: nat, g: nat, now: real)
    requires Run(worlds, ops) && i <= |ops| && g < |worlds[i].grants| && worlds[|ops|].clock <= now
    ensures g < |worlds[|ops|].grants|
    ensures var was, later := worlds[i].grants[g], worlds[|ops|].grants[g];
            && later.key == was.key && later.token == was.token && later.expiry == was.expiry
            && (Live(later, now) <==> Live(was, now) && !ReleasedSince(ops, i, was.key, was.token))
    decreases |ops| - i
  {
    if i < |ops| {
      RunKeepsInv(worlds, ops);
      ClockRises(worlds, ops, i + 1);
      StepKeepsGrant(worlds[i], ops[i], g, now);
      GrantLivesOn(worlds, ops, i + 1, g, now);
      var was := worlds[i].grants[g];
      assert ReleasedSince(ops, i, was.key, was.token) <==>
          Releases(ops[i], was.key, was.token) || ReleasedSince(ops, i + 1, was.key, was.token);
    }
  }

  lemma {:induction false} ClockRises(worlds: seq<World>, ops: seq<Op>, i: nat)
    requires Run(worlds, ops) && i <= |ops|
    ensures worlds[i].clock <= worlds[|ops|].clock
    decreases |ops| - i
  {
    if i < |ops| {
      ClockRises(worlds, ops, i + 1);
      assert Allowed(worlds[i], ops[i]) && worlds[i + 1] == Do(worlds[i], ops[i]);
    }
  }

  /** A lock that was granted is kept for its time to live, or a second if that is not positive, unless its holder
      releases it, whatever else is acquired and released meanwhile. */
  lemma GrantLastsItsTime(worlds: seq<World>, ops: seq<Op>, i: nat, now: real)
    requires Run(worlds, ops) && i < |ops| && ops[i].Acquire? && worlds[|ops|].clock <= now
    requires Acquired(worlds[i].values, ops[i].now, ops[i].key, ops[i].token, ops[i].ttl, ops[i].fault).1
    ensures var a := ops[i];
            Stored(worlds[|ops|].values, now, a.key, a.token) <==>
              && now < a.now + (if a.ttl > 0 then a.ttl as real else 1.0)
              && !ReleasedSince(ops, i + 1, a.key, a.token)
  {
    assert worlds[i + 1] == Do(worlds[i], ops[i]);
    var g := |worlds[i].grants|;
    GrantLivesOn(worlds, ops, i + 1, g, now);
    LiveMeansStored(worlds, ops, now, g);
  }
}
