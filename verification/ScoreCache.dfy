/** The LRU cache of scored transactions, with a time to live.

    An ordered dictionary is its keys from least to most recently touched,
    and what is stored under each. */
module ScoreCache {
  import opened Options
  import opened Windows

  /** A scored transaction. A hit sets `cached` on the shared object. */
  datatype Score = Score(transaction: string, finalScore: real, cached: bool)

  datatype Stored = Stored(stamp: real, score: Score)

  datatype Cache = Cache(order: seq<string>, store: map<string, Stored>, hits: nat, misses: nat)

  datatype Config = Config(maxEntries: int, ttl: real)

  datatype Op =
    | Get(key: string, now: real)
    | Put(key: string, score: Score, now: real)
    | Invalidate(key: string)
    | Clear

  const EMPTY := Cache([], map[], 0, 0)

  function Not(key: string): string -> bool { (k: string) => k != key }

  function Without(order: seq<string>, key: string): seq<string> { Keep(order, Not(key)) }

  function Drop(c: Cache, key: string): Cache {
    c.(order := Without(c.order, key), store := c.store - {key})
  }

  function Touch(c: Cache, key: string, stored: Stored): Cache {
    c.(order := Without(c.order, key) + [key], store := c.store[key := stored])
  }

  predicate Expired(cfg: Config, stored: Stored, now: real) { now - stored.stamp > cfg.ttl }

  predicate Hits(cfg: Config, c: Cache, key: string, now: real) {
    key in c.store && !Expired(cfg, c.store[key], now)
  }

  function Evict(cfg: Config, c: Cache): Cache {
    if |c.order| >= cfg.maxEntries && c.order != [] then Drop(c, c.order[0]) else c
  }

  function Step(cfg: Config, c: Cache, op: Op): Cache {
    match op
    case Get(key, now) =>
      if Hits(cfg, c, key, now) then
        Touch(c, key, c.store[key].(score := c.store[key].score.(cached := true))).(hits := c.hits + 1)
      else Drop(c, key).(misses := c.misses + 1)
    case Put(key, score, now) =>
      if key in c.store then Touch(c, key, Stored(now, score))
      else Touch(Evict(cfg, c), key, Stored(now, score))
    case Invalidate(key) => Drop(c, key)
    case Clear => EMPTY
  }

  function Run(cfg: Config, ops: seq<Op>): Cache {
    if ops == [] then EMPTY else Step(cfg, Run(cfg, ops[..|ops| - 1]), ops[|ops| - 1])
  }

  // ----- the plain history -----

  /** The key an operation touches: a put always, a get only when it hits. */
  function TouchedBy(cfg: Config, c: Cache, op: Op): Option<string> {
    match op
    case Put(key, _, _) => Some(key)
    case Get(key, now) => if Hits(cfg, c, key, now) then Some(key) else None
    case _ => None
  }

  /** The position of the last operation that touched `key`, or -1. */
  function LastTouch(cfg: Config, ops: seq<Op>, key: string): (t: int)
    ensures -1 <= t < |ops|
  {
    if ops == [] then -1
    else
      var n := |ops| - 1;
      if TouchedBy(cfg, Run(cfg, ops[..n]), ops[n]) == Some(key) then n else LastTouch(cfg, ops[..n], key)
  }

  /** The position of the last put of `key`, or -1. */
  function LastPut(ops: seq<Op>, key: string): (t: int)
    ensures -1 <= t < |ops|
    ensures t >= 0 ==> ops[t].Put? && ops[t].key == key
  {
    if ops == [] then -1
    else
      var n := |ops| - 1;
      if ops[n].Put? && ops[n].key == key then n else LastPut(ops[..n], key)
  }

  function GetsSinceClear(ops: seq<Op>): nat {
    if ops == [] || ops[|ops| - 1].Clear? then 0
    else GetsSinceClear(ops[..|ops| - 1]) + (if ops[|ops| - 1].Get? then 1 else 0)
  }

  function Rank(cfg: Config, ops: seq<Op>): string -> int { (k: string) => LastTouch(cfg, ops, k) }

  // ----- order -----

  ghost predicate Increasing(s: seq<string>, f: string -> int) {
    forall i, j :: 0 <= i < j < |s| ==> f(s[i]) < f(s[j])
  }

  lemma {:induction false} KeepIncreasing(s: seq<string>, p: string -> bool, f: string -> int)
    requires Increasing(s, f)
    ensures Increasing(Keep(s, p), f)
  {
    if s == [] {
    } else {
      var init, last := s[..|s| - 1], s[|s| - 1];
      var kept := Keep(init, p);
      KeepIncreasing(init, p, f);
      forall i | 0 <= i < |kept|
        ensures f(kept[i]) < f(last)
      {
        KeepMember(init, p, kept[i]);
        var j :| 0 <= j < |init| && init[j] == kept[i];
        assert s[j] == init[j];
      }
    }
  }

  /** The order lists exactly the stored keys, by last touch. */
  ghost predicate Ordered(c: Cache, f: string -> int) {
    && Increasing(c.order, f)
    && (forall k :: k in c.order <==> k in c.store)
    && (forall k :: k in c.store ==> f(k) >= 0)
  }

  lemma DropOrdered(c: Cache, key: string, f: string -> int)
    requires Ordered(c, f)
    ensures Ordered(Drop(c, key), f)
    ensures |Drop(c, key).order| <= |c.order|
    ensures key in c.store ==> |Drop(c, key).order| < |c.order|
  {
    KeepIncreasing(c.order, Not(key), f);
    forall k
      ensures k in Without(c.order, key) <==> k in c.order && k != key
    {
      KeepMember(c.order, Not(key), k);
    }
    if key in c.store && |Without(c.order, key)| == |c.order| {
      KeepFull(c.order, Not(key));
    }
  }

  lemma {:induction false} KeepFull<T>(s: seq<T>, p: T -> bool)
    requires |Keep(s, p)| == |s|
    ensures forall x :: x in s ==> p(x)
  {
    if s == [] {
    } else {
      assert s == s[..|s| - 1] + [s[|s| - 1]];
      KeepFull(s[..|s| - 1], p);
    }
  }

  lemma TouchOrdered(c: Cache, key: string, stored: Stored, f: string -> int, g: string -> int)
    requires Ordered(c, f)
    requires forall k :: k != key ==> f(k) == g(k)
    requires g(key) >= 0 && forall k :: k != key ==> f(k) < g(key)
    ensures Ordered(Touch(c, key, stored), g)
    ensures |Touch(c, key, stored).order| <= |c.order| + (if key in c.store then 0 else 1)
  {
    hide Keep;
    DropOrdered(c, key, f);
    var rest := Without(c.order, key);
    assert forall k :: k in rest <==> k in c.store - {key};
    IncreasingAppend(rest, key, f, g);
  }

  lemma IncreasingAppend(s: seq<string>, key: string, f: string -> int, g: string -> int)
    requires Increasing(s, f) && key !in s
    requires forall k :: k != key ==> f(k) == g(k)
    requires forall k :: k != key ==> f(k) < g(key)
    ensures Increasing(s + [key], g)
  {
    forall i, j | 0 <= i < j < |s + [key]|
      ensures g((s + [key])[i]) < g((s + [key])[j])
    {
      assert s[i] in s;
      if j < |s| {
        assert s[j] in s;
      }
    }
  }

  /** Every reachable cache is in order of last touch and within its bound. */
  lemma StepOrdered(cfg: Config, ops: seq<Op>)
    requires cfg.maxEntries >= 1 && ops != []
    requires Ordered(Run(cfg, ops[..|ops| - 1]), Rank(cfg, ops[..|ops| - 1]))
    requires |Run(cfg, ops[..|ops| - 1]).order| <= cfg.maxEntries
    ensures Ordered(Run(cfg, ops), Rank(cfg, ops)) && |Run(cfg, ops).order| <= cfg.maxEntries
  {
    hide Ordered, Keep;
    var init, op := ops[..|ops| - 1], ops[|ops| - 1];
    var c, f, g := Run(cfg, init), Rank(cfg, init), Rank(cfg, ops);
    match op {
      case Clear =>
        EmptyOrdered(g);
      case Invalidate(key) =>
        DropOrdered(c, key, f);
        SameRank(Drop(c, key), f, g);
      case Get(key, now) =>
        if Hits(cfg, c, key, now) {
          var stored := c.store[key].(score := c.store[key].score.(cached := true));
          TouchOrdered(c, key, stored, f, g);
          SameKeys(Touch(c, key, stored), Step(cfg, c, op), g);
        } else {
          DropOrdered(c, key, f);
          SameRank(Drop(c, key), f, g);
          SameKeys(Drop(c, key), Step(cfg, c, op), g);
        }
      case Put(key, score, now) =>
        if key in c.store {
          TouchOrdered(c, key, Stored(now, score), f, g);
        } else {
          EvictOrdered(cfg, c, f);
          TouchOrdered(Evict(cfg, c), key, Stored(now, score), f, g);
        }
    }
  }

  lemma EmptyOrdered(f: string -> int)
    ensures Ordered(EMPTY, f)
  {
  }

  lemma SameRank(c: Cache, f: string -> int, g: string -> int)
    requires Ordered(c, f) && forall k :: f(k) == g(k)
    ensures Ordered(c, g)
  {
  }

  lemma SameKeys(c: Cache, d: Cache, f: string -> int)
    requires Ordered(c, f) && c.order == d.order && c.store == d.store
    ensures Ordered(d, f)
  {
  }

  lemma EvictOrdered(cfg: Config, c: Cache, f: string -> int)
    requires Ordered(c, f) && cfg.maxEntries >= 1 && |c.order| <= cfg.maxEntries
    ensures Ordered(Evict(cfg, c), f) && |Evict(cfg, c).order| < cfg.maxEntries
  {
    if |c.order| >= cfg.maxEntries {
      assert c.order[0] in c.order;
      DropOrdered(c, c.order[0], f);
    }
  }

  lemma {:induction false} OrderIsLastTouch(cfg: Config, ops: seq<Op>)
    requires cfg.maxEntries >= 1
    ensures Ordered(Run(cfg, ops), Rank(cfg, ops)) && |Run(cfg, ops).order| <= cfg.maxEntries
  {
    if ops == [] {
    } else {
      OrderIsLastTouch(cfg, ops[..|ops| - 1]);
      StepOrdered(cfg, ops);
    }
  }

  // ----- contents -----

  function Payload(s: Score): Score { s.(cached := false) }

  /** What is stored under a key is what was last put there, with its time. */
  ghost predicate FromLastPut(c: Cache, ops: seq<Op>, key: string) {
    key in c.store ==>
      && LastPut(ops, key) >= 0
      && c.store[key].stamp == ops[LastPut(ops, key)].now
      && Payload(c.store[key].score) == Payload(ops[LastPut(ops, key)].score)
  }

  lemma {:induction false} ContentsAreLastPuts(cfg: Config, ops: seq<Op>, key: string)
    ensures FromLastPut(Run(cfg, ops), ops, key)
    ensures Run(cfg, ops).hits + Run(cfg, ops).misses == GetsSinceClear(ops)
  {
    if ops == [] {
    } else {
      ContentsAreLastPuts(cfg, ops[..|ops| - 1], key);
    }
  }

  /** A hit returns exactly the score last put under the key, flagged as
      cached, and that put is at most `ttl` old. */
  lemma {:induction false} HitReturnsLastPut(cfg: Config, ops: seq<Op>, key: string, now: real)
    requires Hits(cfg, Run(cfg, ops), key, now)
    ensures var p := LastPut(ops, key);
            && p >= 0 && now - ops[p].now <= cfg.ttl
            && Step(cfg, Run(cfg, ops), Get(key, now)).store[key].score == ops[p].score.(cached := true)
  {
    ContentsAreLastPuts(cfg, ops, key);
  }

  // ----- what is stored, from the plain history -----

  /** The operation ends what `put` stored under `key`: everything is cleared, the
      key is invalidated, or a get finds it more than `ttl` old. */
  predicate Ends(cfg: Config, put: Op, op: Op, key: string)
    requires put.Put?
  {
    op.Clear? || (op.Invalidate? && op.key == key) || (op.Get? && op.key == key && op.now - put.now > cfg.ttl)
  }

  /** Operation `i` puts a new key into a full cache, in which `key` is the one
      whose last touch is the oldest. */
  predicate Displaces(cfg: Config, ops: seq<Op>, i: nat, key: string)
    requires i < |ops|
  {
    var c := Run(cfg, ops[..i]);
    && ops[i].Put? && ops[i].key != key && ops[i].key !in c.store && |c.store| >= cfg.maxEntries
    && forall k :: k in c.store ==> LastTouch(cfg, ops[..i], key) <= LastTouch(cfg, ops[..i], k)
  }

  /** The last put of `key` is still in force. */
  ghost predicate InForce(cfg: Config, ops: seq<Op>, key: string) {
    var p := LastPut(ops, key);
    p >= 0 && forall i :: p < i < |ops| ==> !Ends(cfg, ops[p], ops[i], key) && !Displaces(cfg, ops, i, key)
  }

  lemma InForceStep(cfg: Config, ops: seq<Op>, op: Op, key: string)
    ensures op.Put? && op.key == key ==> InForce(cfg, ops + [op], key)
    ensures !(op.Put? && op.key == key) ==>
              var p := LastPut(ops, key);
              InForce(cfg, ops + [op], key) <==>
              InForce(cfg, ops, key) && !Ends(cfg, ops[p], op, key) && !Displaces(cfg, ops + [op], |ops|, key)
  {
    hide Run, LastTouch;
    var all := ops + [op];
    assert all[..|ops|] == ops && all[|ops|] == op;
    forall i | 0 <= i < |ops|
      ensures all[i] == ops[i] && Displaces(cfg, all, i, key) == Displaces(cfg, ops, i, key)
    {
      assert all[..i] == ops[..i];
    }
  }

  lemma OrderListsStore(c: Cache, f: string -> int)
    requires Ordered(c, f)
    ensures |c.order| == |c.store|
  {
    assert Distinct(c.order);
    DistinctCount(c.order, c.store.Keys);
    assert |c.store.Keys| == |c.store|;
  }

  lemma {:induction false} DistinctCount(s: seq<string>, all: set<string>)
    requires Distinct(s) && forall x :: x in s <==> x in all
    ensures |s| == |all|
  {
    if s == [] {
      assert all == {};
    } else {
      var init, last := s[..|s| - 1], s[|s| - 1];
      assert s == init + [last];
      forall x
        ensures x in init <==> x in all - {last}
      {
      }
      DistinctCount(init, all - {last});
    }
  }

  /** The front of the order is the key whose last touch is the oldest. */
  lemma FrontIsOldest(c: Cache, f: string -> int, key: string)
    requires Ordered(c, f) && key in c.store
    ensures c.order != []
    ensures c.order[0] == key <==> forall k :: k in c.store ==> f(key) <= f(k)
  {
    var j :| 0 <= j < |c.order| && c.order[j] == key;
    if j == 0 {
      forall k | k in c.store
        ensures f(key) <= f(k)
      {
        var i :| 0 <= i < |c.order| && c.order[i] == k;
      }
    } else {
      assert c.order[0] in c.store;
      assert f(c.order[0]) < f(c.order[j]);
    }
  }

  lemma DropStores(c: Cache, key: string, k: string)
    ensures k in Drop(c, key).store <==> k in c.store && k != key
  {
  }

  /** Making room takes exactly the oldest key of a full cache. */
  lemma EvictTakes(cfg: Config, c: Cache, f: string -> int, key: string)
    requires Ordered(c, f) && key in c.store
    ensures key !in Evict(cfg, c).store <==> |c.store| >= cfg.maxEntries && forall k :: k in c.store ==> f(key) <= f(k)
  {
    hide Keep;
    OrderListsStore(c, f);
    FrontIsOldest(c, f, key);
  }

  lemma EvictOnlyTakes(cfg: Config, c: Cache, key: string)
    ensures key in Evict(cfg, c).store ==> key in c.store
  {
  }

  /** What one operation leaves stored. */
  lemma StepStores(cfg: Config, c: Cache, op: Op, key: string)
    ensures key in Step(cfg, c, op).store <==>
            match op
            case Put(k, _, _) => k == key || key in (if k in c.store then c else Evict(cfg, c)).store
            case Get(k, now) => key in c.store && (k == key ==> now - c.store[key].stamp <= cfg.ttl)
            case Invalidate(k) => key in c.store && k != key
            case Clear => false
  {
    hide Keep, Evict;
  }

  /** A key is in the cache if and only if it has been put and since its last put
      nothing cleared it, invalidated it, found it expired, or displaced it as
      the least recently touched of a full cache. */
  lemma {:induction false} StoredIff(cfg: Config, ops: seq<Op>, key: string)
    requires cfg.maxEntries >= 1
    ensures key in Run(cfg, ops).store <==> InForce(cfg, ops, key)
  {
    hide InForce, Displaces, LastTouch, Keep, Ordered, Step, Evict;
    if ops == [] {
      NothingInForce(cfg, key);
    } else {
      var init, op := ops[..|ops| - 1], ops[|ops| - 1];
      var c := Run(cfg, init);
      assert ops == init + [op];
      StoredIff(cfg, init, key);
      InForceStep(cfg, init, op, key);
      ContentsAreLastPuts(cfg, init, key);
      OrderIsLastTouch(cfg, init);
      StepStores(cfg, c, op, key);
      if op.Put? && op.key != key {
        DisplacesIs(cfg, init, op, key);
        EvictOnlyTakes(cfg, c, key);
        if key in c.store {
          EvictTakes(cfg, c, Rank(cfg, init), key);
        }
      } else {
        NotDisplaced(cfg, init, op, key);
      }
    }
  }

  lemma NothingInForce(cfg: Config, key: string)
    ensures !InForce(cfg, [], key)
  {
  }

  lemma DisplacesIs(cfg: Config, init: seq<Op>, op: Op, key: string)
    requires op.Put? && op.key != key
    ensures var c, f := Run(cfg, init), Rank(cfg, init);
            Displaces(cfg, init + [op], |init|, key) <==>
            op.key !in c.store && |c.store| >= cfg.maxEntries && forall k :: k in c.store ==> f(key) <= f(k)
  {
    hide Run, LastTouch;
    assert (init + [op])[..|init|] == init;
  }

  lemma NotDisplaced(cfg: Config, init: seq<Op>, op: Op, key: string)
    requires !(op.Put? && op.key != key)
    ensures !Displaces(cfg, init + [op], |init|, key)
  {
    hide Run, LastTouch;
    assert (init + [op])[|init|] == op;
  }

  /** So a get hits if and only if the last put is in force and at most `ttl` old. */
  lemma {:induction false} HitsIff(cfg: Config, ops: seq<Op>, key: string, now: real)
    requires cfg.maxEntries >= 1
    ensures Hits(cfg, Run(cfg, ops), key, now) <==>
            InForce(cfg, ops, key) && now - ops[LastPut(ops, key)].now <= cfg.ttl
  {
    hide InForce, Run;
    StoredIff(cfg, ops, key);
    ContentsAreLastPuts(cfg, ops, key);
    if InForce(cfg, ops, key) {
      InForceHasPut(cfg, ops, key);
    }
  }

  lemma InForceHasPut(cfg: Config, ops: seq<Op>, key: string)
    requires InForce(cfg, ops, key)
    ensures LastPut(ops, key) >= 0
  {
  }

  /** In particular never after a clear or an invalidation of the key. */
  lemma {:induction false} ClearedMisses(cfg: Config, ops: seq<Op>, key: string, now: real, i: nat)
    requires cfg.maxEntries >= 1 && LastPut(ops, key) < i < |ops|
    requires ops[i].Clear? || ops[i] == Invalidate(key)
    ensures !Hits(cfg, Run(cfg, ops), key, now)
  {
    hide Run, Displaces;
    HitsIff(cfg, ops, key, now);
  }

  /** The gets since the last clear whose key was in force and fresh. */
  function HitsSinceClear(cfg: Config, ops: seq<Op>): nat {
    if ops == [] || ops[|ops| - 1].Clear? then 0
    else
      var init, op := ops[..|ops| - 1], ops[|ops| - 1];
      HitsSinceClear(cfg, init) + (if op.Get? && Hits(cfg, Run(cfg, init), op.key, op.now) then 1 else 0)
  }

  lemma {:induction false} HitsAreCounted(cfg: Config, ops: seq<Op>)
    ensures Run(cfg, ops).hits == HitsSinceClear(cfg, ops)
  {
    if ops == [] {
    } else {
      HitsAreCounted(cfg, ops[..|ops| - 1]);
    }
  }

  // ----- retention -----

  /** The operation takes `key` out for a reason other than lack of room. */
  predicate Removes(cfg: Config, c: Cache, op: Op, key: string) {
    match op
    case Get(k, now) => k == key && key in c.store && Expired(cfg, c.store[key], now)
    case Put(_, _, _) => false
    case Invalidate(k) => k == key
    case Clear => true
  }

  /** The other keys touched by the operations from position `t` on. */
  function OthersTouched(cfg: Config, ops: seq<Op>, t: nat, key: string): set<string>
    requires t <= |ops|
  {
    if t == |ops| then {}
    else
      var n := |ops| - 1;
      var touched := TouchedBy(cfg, Run(cfg, ops[..n]), ops[n]);
      OthersTouched(cfg, ops[..n], t, key) + (if touched.Some? && touched.value != key then {touched.value} else {})
  }

  /** Every key that ranks behind `key` has been touched since. */
  ghost predicate Sheltered(c: Cache, key: string, others: set<string>) {
    exists p :: 0 <= p < |c.order| && c.order[p] == key && forall j :: p < j < |c.order| ==> c.order[j] in others
  }

  lemma {:induction false} KeepSheltered(s: seq<string>, q: string -> bool, key: string, others: set<string>, p: nat)
      returns (p': nat)
    requires p < |s| && s[p] == key && q(key) && forall j :: p < j < |s| ==> s[j] in others
    ensures p' < |Keep(s, q)| && Keep(s, q)[p'] == key
    ensures forall j :: p' < j < |Keep(s, q)| ==> Keep(s, q)[j] in others
  {
    var init, last := s[..|s| - 1], s[|s| - 1];
    if p == |s| - 1 {
      p' := |Keep(init, q)|;
    } else {
      p' := KeepSheltered(init, q, key, others, p);
    }
  }

  lemma DropSheltered(c: Cache, other: string, key: string, others: set<string>)
    requires Sheltered(c, key, others) && other != key
    ensures Sheltered(Drop(c, other), key, others)
  {
    var p :| 0 <= p < |c.order| && c.order[p] == key && forall j :: p < j < |c.order| ==> c.order[j] in others;
    var p' := KeepSheltered(c.order, Not(other), key, others, p);
  }

  lemma TouchSheltered(c: Cache, other: string, stored: Stored, key: string, others: set<string>)
    requires Sheltered(c, key, others) && other != key
    ensures Sheltered(Touch(c, other, stored), key, others + {other})
  {
    var p :| 0 <= p < |c.order| && c.order[p] == key && forall j :: p < j < |c.order| ==> c.order[j] in others;
    var p' := KeepSheltered(c.order, Not(other), key, others, p);
    var all := Without(c.order, other) + [other];
    assert all[p'] == key;
  }

  lemma SelfTouched(c: Cache, key: string, stored: Stored, others: set<string>)
    ensures Sheltered(Touch(c, key, stored), key, others)
  {
    var all := Without(c.order, key) + [key];
    assert all[|all| - 1] == key;
  }

  /** A key at the front has been overtaken by all the others. */
  lemma FrontIsOvertaken(c: Cache, f: string -> int, key: string, newcomer: string, others: set<string>)
    requires Ordered(c, f) && Sheltered(c, key, others) && newcomer !in c.store
    requires c.order != [] && c.order[0] == key
    ensures |others + {newcomer}| >= |c.order|
  {
    var rest := c.order[1..];
    var p :| 0 <= p < |c.order| && c.order[p] == key && forall j :: p < j < |c.order| ==> c.order[j] in others;
    assert p == 0;
    forall k | k in rest
      ensures k in others - {newcomer}
    {
      var j :| 0 <= j < |rest| && rest[j] == k;
      assert c.order[j + 1] == k && k in c.order;
    }
    assert Distinct(c.order);
    DistinctFits(rest, others - {newcomer});
    assert others + {newcomer} == (others - {newcomer}) + {newcomer};
  }

  /** Making room for a new key never takes a key that fewer than
      `maxEntries` others have overtaken. */
  lemma EvictSheltered(cfg: Config, c: Cache, f: string -> int, key: string, newcomer: string, others: set<string>)
    requires Ordered(c, f) && Sheltered(c, key, others) && newcomer !in c.store
    requires |others + {newcomer}| < cfg.maxEntries
    ensures Sheltered(Evict(cfg, c), key, others)
  {
    hide Sheltered, Ordered;
    if |c.order| >= cfg.maxEntries && c.order != [] {
      if c.order[0] == key {
        FrontIsOvertaken(c, f, key, newcomer, others);
      } else {
        DropSheltered(c, c.order[0], key, others);
      }
    }
  }

  lemma StepSheltered(cfg: Config, c: Cache, f: string -> int, op: Op, key: string, others: set<string>)
    requires Ordered(c, f) && Sheltered(c, key, others) && !Removes(cfg, c, op, key)
    requires var t := TouchedBy(cfg, c, op);
             |others + (if t.Some? && t.value != key then {t.value} else {})| < cfg.maxEntries
    ensures var t := TouchedBy(cfg, c, op);
            Sheltered(Step(cfg, c, op), key, others + (if t.Some? && t.value != key then {t.value} else {}))
  {
    hide Sheltered, Ordered, Keep;
    assert key in c.store by { ShelteredIsStored(c, f, key, others); }
    match op {
      case Invalidate(k) =>
        DropSheltered(c, k, key, others);
        assert others + {} == others;
      case Get(k, now) =>
        if !Hits(cfg, c, k, now) {
          DropSheltered(c, k, key, others);
          SameShelter(Drop(c, k), Step(cfg, c, op), key, others);
          assert others + {} == others;
        } else {
          var stored := c.store[k].(score := c.store[k].score.(cached := true));
          if k == key {
            SelfTouched(c, k, stored, others);
            assert others + {} == others;
          } else {
            TouchSheltered(c, k, stored, key, others);
          }
          SameShelter(Touch(c, k, stored), Step(cfg, c, op), key, if k == key then others else others + {k});
        }
      case Put(k, score, now) =>
        if k == key {
          SelfTouched(c, k, Stored(now, score), others);
          assert others + {} == others;
        } else if k in c.store {
          TouchSheltered(c, k, Stored(now, score), key, others);
        } else {
          EvictSheltered(cfg, c, f, key, k, others);
          TouchSheltered(Evict(cfg, c), k, Stored(now, score), key, others);
        }
      case Clear =>
    }
  }

  lemma SameShelter(c: Cache, d: Cache, key: string, others: set<string>)
    requires Sheltered(c, key, others) && c.order == d.order
    ensures Sheltered(d, key, others)
  {
  }

  lemma ShelteredIsStored(c: Cache, f: string -> int, key: string, others: set<string>)
    requires Ordered(c, f) && Sheltered(c, key, others)
    ensures key in c.store
  {
  }

  /** LRU retention: once touched, a key stays until it is removed or expires,
      or until at least `maxEntries` distinct other keys have been touched
      since. */
  lemma {:induction false} RetainedUntilOvertaken(cfg: Config, ops: seq<Op>, t: nat, key: string)
    requires cfg.maxEntries >= 1 && t < |ops|
    requires TouchedBy(cfg, Run(cfg, ops[..t]), ops[t]) == Some(key)
    requires forall i :: t < i < |ops| ==> !Removes(cfg, Run(cfg, ops[..i]), ops[i], key)
    requires |OthersTouched(cfg, ops, t + 1, key)| < cfg.maxEntries
    ensures key in Run(cfg, ops).store && Sheltered(Run(cfg, ops), key, OthersTouched(cfg, ops, t + 1, key))
  {
    hide Run, OthersTouched, Sheltered, Ordered, Step, Removes;
    var n := |ops| - 1;
    var init, op := ops[..n], ops[n];
    var c := Run(cfg, init);
    Unroll(cfg, ops, t + 1, key);
    if t == n {
      TouchShelters(cfg, c, op, key);
    } else {
      forall i | t < i < n
        ensures !Removes(cfg, Run(cfg, init[..i]), init[i], key)
      {
        assert init[..i] == ops[..i];
      }
      assert init[..t] == ops[..t];
      var others := OthersTouched(cfg, init, t + 1, key);
      assert others <= OthersTouched(cfg, ops, t + 1, key);
      SubsetSize(others, OthersTouched(cfg, ops, t + 1, key));
      RetainedUntilOvertaken(cfg, init, t, key);
      OrderIsLastTouch(cfg, init);
      StepSheltered(cfg, c, Rank(cfg, init), op, key, others);
    }
    OrderIsLastTouch(cfg, ops);
    ShelteredIsStored(Run(cfg, ops), Rank(cfg, ops), key, OthersTouched(cfg, ops, t + 1, key));
  }

  lemma Unroll(cfg: Config, ops: seq<Op>, t: nat, key: string)
    requires ops != [] && t <= |ops|
    ensures var n := |ops| - 1;
            var touched := TouchedBy(cfg, Run(cfg, ops[..n]), ops[n]);
            && Run(cfg, ops) == Step(cfg, Run(cfg, ops[..n]), ops[n])
            && OthersTouched(cfg, ops, t, key) ==
               if t == |ops| then {}
               else OthersTouched(cfg, ops[..n], t, key)
                    + (if touched.Some? && touched.value != key then {touched.value} else {})
  {
  }

  lemma TouchShelters(cfg: Config, c: Cache, op: Op, key: string)
    requires TouchedBy(cfg, c, op) == Some(key)
    ensures Sheltered(Step(cfg, c, op), key, {})
  {
    match op
    case Get(k, now) =>
      var stored := c.store[k].(score := c.store[k].score.(cached := true));
      SelfTouched(c, k, stored, {});
      SameShelter(Touch(c, k, stored), Step(cfg, c, op), key, {});
    case Put(k, score, now) =>
      SelfTouched(if k in c.store then c else Evict(cfg, c), k, Stored(now, score), {});
  }

  lemma SubsetSize(a: set<string>, b: set<string>)
    requires a <= b
    ensures |a| <= |b|
  {
    assert b == a + (b - a);
  }

  // ----- the cache itself -----

  class LruCache {
    const cfg: Config
    var order: seq<string>
    var store: map<string, Stored>
    var hits: nat
    var misses: nat
    ghost var log: seq<Op>

    ghost predicate Valid()
      reads this
    {
      cfg.maxEntries >= 1 && Cache(order, store, hits, misses) == Run(cfg, log)
    }

    constructor (config: Config)
      requires config.maxEntries >= 1
      ensures Valid() && cfg == config && log == []
    {
      cfg, order, store, hits, misses, log := config, [], map[], 0, 0, [];
    }

    ghost method Note(op: Op)
      requires cfg.maxEntries >= 1
      requires Cache(order, store, hits, misses) == Step(cfg, Run(cfg, log), op)
      modifies this`log
      ensures Valid() && log == old(log) + [op]
    {
      log := log + [op];
      assert log[..|log| - 1] == old(log);
    }

    /** Looks a key up. The answer is what the plain history says: the score
        last put under the key, if it is still held and not expired. */
    method Lookup(key: string, now: real) returns (r: Option<Score>)
      requires Valid()
      modifies this
      ensures Valid() && log == old(log) + [Get(key, now)]
      ensures r.Some? <==> key in old(store) && now - old(store)[key].stamp <= cfg.ttl
      ensures r.Some? ==>
                var p := LastPut(old(log), key);
                p >= 0 && now - old(log)[p].now <= cfg.ttl && r.value == old(log)[p].score.(cached := true)
    {
      hide Run, Keep, LastPut;
      ContentsAreLastPuts(cfg, log, key);
      OrderIsLastTouch(cfg, log);
      if key !in store {
        KeepAll(order, Not(key));
        assert store - {key} == store;
        misses := misses + 1;
        Note(Get(key, now));
        return None;
      }
      order := RemoveKey(order, key);
      if now - store[key].stamp > cfg.ttl {
        store := store - {key};
        misses := misses + 1;
        Note(Get(key, now));
        return None;
      }
      order := order + [key];
      hits := hits + 1;
      var score := store[key].score.(cached := true);
      store := store[key := store[key].(score := score)];
      Note(Get(key, now));
      return Some(score);
    }

    /** Stores a score as most recent, dropping the least recent when full. */
    method Insert(key: string, score: Score, now: real)
      requires Valid()
      modifies this
      ensures Valid() && log == old(log) + [Put(key, score, now)]
    {
      hide Run, Keep;
      OrderIsLastTouch(cfg, log);
      if key in store {
        order := RemoveKey(order, key);
      } else {
        if |order| >= cfg.maxEntries {
          var oldest := order[0];
          order := RemoveKey(order, oldest);
          store := store - {oldest};
          KeepMember(old(order), Not(oldest), key);
        }
        KeepAll(order, Not(key));
      }
      order := order + [key];
      store := store[key := Stored(now, score)];
      Note(Put(key, score, now));
    }

    method Discard(key: string)
      requires Valid()
      modifies this
      ensures Valid() && log == old(log) + [Invalidate(key)]
    {
      hide Run;
      order := RemoveKey(order, key);
      store := store - {key};
      Note(Invalidate(key));
    }

    method ClearAll()
      requires Valid()
      modifies this
      ensures Valid() && log == old(log) + [Clear]
    {
      hide Run;
      order, store, hits, misses := [], map[], 0, 0;
      Note(Clear);
    }
  }

  /** Unlinks a key from the order of an ordered dictionary. */
  method RemoveKey(order: seq<string>, key: string) returns (r: seq<string>)
    ensures r == Without(order, key)
  {
    r := [];
    for i := 0 to |order|
      invariant r == Without(order[..i], key)
    {
      assert order[..i + 1] == order[..i] + [order[i]];
      KeepAppend(order[..i], order[i], Not(key));
      if order[i] != key {
        r := r + [order[i]];
      }
    }
    assert order[..|order|] == order;
  }
}
