/** Customer velocity profiles: a deque of recent transactions, pruned only
    from its front, and the metrics computed over it. */
module Velocity {
  import opened Options
  import opened Windows

  const MINUTE_1: real := 60.0
  const MINUTE_5: real := 300.0
  const HOUR_1: real := 3600.0
  const HOUR_24: real := 86400.0

  datatype Record = Record(time: real, amount: real, merchant: string)

  datatype Metrics = Metrics(
    count1min: nat, count5min: nat, count1hour: nat, count24hour: nat,
    sum1min: real, sum5min: real, sum1hour: real, sum24hour: real,
    merchants1hour: nat, merchants24hour: nat, avg1hour: real, max1hour: real)

  // ----- metrics, as a recount of a list of transactions -----

  function InWindow(now: real, w: real): Record -> bool { (r: Record) => now - r.time <= w }

  function Within(rs: seq<Record>, now: real, w: real): seq<Record> { Keep(rs, InWindow(now, w)) }

  function Total(rs: seq<Record>): real {
    if rs == [] then 0.0 else Total(rs[..|rs| - 1]) + rs[|rs| - 1].amount
  }

  function Merchants(rs: seq<Record>): set<string> {
    set r | r in rs && r.merchant != "" :: r.merchant
  }

  function Greatest(rs: seq<Record>): (m: real)
    requires rs != []
    ensures exists r :: r in rs && r.amount == m
    ensures forall r :: r in rs ==> r.amount <= m
  {
    var last := rs[|rs| - 1];
    assert rs == rs[..|rs| - 1] + [last];
    if |rs| == 1 then last.amount
    else
      var m := Greatest(rs[..|rs| - 1]);
      if last.amount > m then last.amount else m
  }

  /** The metrics of the windows' contents. */
  function Measure(m1: seq<Record>, m5: seq<Record>, h1: seq<Record>, h24: seq<Record>): Metrics {
    Metrics(|m1|, |m5|, |h1|, |h24|, Total(m1), Total(m5), Total(h1), Total(h24),
            |Merchants(h1)|, |Merchants(h24)|,
            if h1 == [] then 0.0 else Total(h1) / |h1| as real,
            if h1 == [] then 0.0 else Greatest(h1))
  }

  function Recount(rs: seq<Record>, now: real): Metrics {
    Measure(Within(rs, now, MINUTE_1), Within(rs, now, MINUTE_5), Within(rs, now, HOUR_1), Within(rs, now, HOUR_24))
  }

  // ----- one profile -----

  /** Pops records older than `cut` from the front; one that is recent enough
      shelters everything behind it. */
  function DropOld(rs: seq<Record>, cut: real): seq<Record> {
    if rs != [] && rs[0].time < cut then DropOld(rs[1..], cut) else rs
  }

  datatype Op = Add(record: Record) | Look(now: real)

  function Time(op: Op): real {
    match op
    case Add(r) => r.time
    case Look(now) => now
  }

  /** What is in the deque when `op` prunes it. */
  function Fed(rs: seq<Record>, op: Op): seq<Record> { if op.Add? then rs + [op.record] else rs }

  function Step(maxWindow: real, rs: seq<Record>, op: Op): seq<Record> {
    DropOld(Fed(rs, op), Time(op) - maxWindow)
  }

  /** The deque after a run of additions and evaluations. */
  function Run(maxWindow: real, ops: seq<Op>): seq<Record> {
    if ops == [] then [] else Step(maxWindow, Run(maxWindow, ops[..|ops| - 1]), ops[|ops| - 1])
  }

  /** Every transaction ever added. */
  function Added(ops: seq<Op>): seq<Record> {
    if ops == [] then []
    else Added(ops[..|ops| - 1]) + (if ops[|ops| - 1].Add? then [ops[|ops| - 1].record] else [])
  }

  /** What `DropOld` pops. */
  function Popped(rs: seq<Record>, cut: real): seq<Record> {
    if rs != [] && rs[0].time < cut then [rs[0]] + Popped(rs[1..], cut) else []
  }

  /** Every transaction a run has popped from the deque, in order. */
  function Lost(maxWindow: real, ops: seq<Op>): seq<Record> {
    if ops == [] then []
    else
      var init, op := ops[..|ops| - 1], ops[|ops| - 1];
      Lost(maxWindow, init) + Popped(Fed(Run(maxWindow, init), op), Time(op) - maxWindow)
  }

  lemma {:induction false} PopsAreOld(rs: seq<Record>, cut: real)
    ensures rs == Popped(rs, cut) + DropOld(rs, cut)
    ensures forall r :: r in Popped(rs, cut) ==> r.time < cut
  {
    if rs != [] && rs[0].time < cut {
      PopsAreOld(rs[1..], cut);
    }
  }

  /** Nothing else disappears: the history is what was popped and the deque. */
  lemma {:induction false} LostAndKept(maxWindow: real, ops: seq<Op>)
    ensures Added(ops) == Lost(maxWindow, ops) + Run(maxWindow, ops)
  {
    hide DropOld, Popped;
    if ops == [] {
    } else {
      var init, op := ops[..|ops| - 1], ops[|ops| - 1];
      LostAndKept(maxWindow, init);
      var rs, more := Run(maxWindow, init), if op.Add? then [op.record] else [];
      PopsAreOld(Fed(rs, op), Time(op) - maxWindow);
      assert Fed(rs, op) == rs + more;
      Regroup(Lost(maxWindow, init), rs, more,
              Popped(Fed(rs, op), Time(op) - maxWindow), DropOld(Fed(rs, op), Time(op) - maxWindow));
    }
  }

  lemma Regroup<X>(a: seq<X>, b: seq<X>, c: seq<X>, d: seq<X>, e: seq<X>)
    requires b + c == d + e
    ensures (a + b) + c == (a + d) + e
  {
    assert (a + b) + c == a + (b + c);
  }

  /** What the deque has lost lies before every window that ends at or after
      the latest instant seen. */
  lemma {:induction false} LostIsOld(maxWindow: real, ops: seq<Op>, now: real)
    requires forall i :: 0 <= i < |ops| ==> Time(ops[i]) <= now
    ensures forall r :: r in Lost(maxWindow, ops) ==> r.time < now - maxWindow
  {
    hide DropOld, Popped, Run;
    if ops == [] {
    } else {
      var init, op := ops[..|ops| - 1], ops[|ops| - 1];
      LostIsOld(maxWindow, init, now);
      PopsAreOld(Fed(Run(maxWindow, init), op), Time(op) - maxWindow);
    }
  }

  /** A window misses exactly the lost records it still covers. */
  lemma WindowMisses(maxWindow: real, ops: seq<Op>, now: real, w: real)
    ensures Within(Added(ops), now, w) == Within(Lost(maxWindow, ops), now, w) + Within(Run(maxWindow, ops), now, w)
  {
    hide Run, Added, Lost, Keep;
    LostAndKept(maxWindow, ops);
    KeepConcat(Lost(maxWindow, ops), Run(maxWindow, ops), InWindow(now, w));
  }

  lemma LostOutside(maxWindow: real, ops: seq<Op>, now: real, w: real)
    requires forall r :: r in Lost(maxWindow, ops) ==> now - r.time > w
    ensures Within(Run(maxWindow, ops), now, w) == Within(Added(ops), now, w)
  {
    hide Run, Added, Lost, Keep;
    WindowMisses(maxWindow, ops, now, w);
    KeepNone(Lost(maxWindow, ops), InWindow(now, w));
  }

  /** At any instant whatever, the pruned deque gives every metric of a recount
      over all transactions ever added if and only if nothing it has lost is
      still inside the 24-hour window. */
  lemma {:induction false} MetricsAreExactIff(maxWindow: real, ops: seq<Op>, now: real)
    ensures Recount(Run(maxWindow, ops), now) == Recount(Added(ops), now)
            <==> forall r :: r in Lost(maxWindow, ops) ==> now - r.time > HOUR_24
  {
    hide Run, Added, Lost, Within, Measure;
    if forall r :: r in Lost(maxWindow, ops) ==> now - r.time > HOUR_24 {
      LostOutside(maxWindow, ops, now, MINUTE_1);
      LostOutside(maxWindow, ops, now, MINUTE_5);
      LostOutside(maxWindow, ops, now, HOUR_1);
      LostOutside(maxWindow, ops, now, HOUR_24);
    } else {
      var r :| r in Lost(maxWindow, ops) && now - r.time <= HOUR_24;
      MissedCount(maxWindow, ops, now, r);
    }
  }

  /** A lost record inside the window makes the 24-hour count fall short. */
  lemma MissedCount(maxWindow: real, ops: seq<Op>, now: real, r: Record)
    requires r in Lost(maxWindow, ops) && now - r.time <= HOUR_24
    ensures Recount(Run(maxWindow, ops), now).count24hour < Recount(Added(ops), now).count24hour
  {
    hide Run, Added, Lost, Keep;
    WindowMisses(maxWindow, ops, now, HOUR_24);
    KeepMember(Lost(maxWindow, ops), InWindow(now, HOUR_24), r);
  }

  /** In particular at the latest instant seen, in whatever order the
      timestamps came. */
  lemma {:induction false} MetricsAreExact(maxWindow: real, ops: seq<Op>, now: real)
    requires maxWindow >= HOUR_24
    requires forall i :: 0 <= i < |ops| ==> Time(ops[i]) <= now
    ensures Recount(Run(maxWindow, ops), now) == Recount(Added(ops), now)
  {
    hide Run, Added, Lost, Recount;
    LostIsOld(maxWindow, ops, now);
    MetricsAreExactIff(maxWindow, ops, now);
  }

  /** Evaluated at an earlier instant it need not: a late arrival can have
      pushed out what that window still covers. */
  lemma LateEvaluationDiffers()
    ensures var ops := [Add(Record(1.0, 5.0, "m")), Add(Record(100000.0, 5.0, "m"))];
            Recount(Run(HOUR_24, ops), 50.0) != Recount(Added(ops), 50.0)
  {
    var a, b := Record(1.0, 5.0, "m"), Record(100000.0, 5.0, "m");
    var ops := [Add(a), Add(b)];
    assert ops[..1] == [Add(a)];
    assert [Add(a)][..0] == [];
    assert Run(HOUR_24, [Add(a)]) == [a];
    assert [a, b][1..] == [b];
    assert DropOld([a] + [b], 100000.0 - HOUR_24) == [b];
    assert Run(HOUR_24, ops) == [b];
    assert Added([Add(a)]) == [a];
    assert Added(ops) == [a, b];
    KeepAll([a, b], InWindow(50.0, MINUTE_1));
    assert Recount([a, b], 50.0).count1min == 2;
    assert Recount([b], 50.0).count1min <= 1;
  }

  // ----- what each metric is -----

  /** Sums are sums: nothing for no records, and each record adds its amount. */
  lemma TotalAdds(rs: seq<Record>, r: Record)
    ensures Total([]) == 0.0 && Total(rs + [r]) == Total(rs) + r.amount
  {
    assert (rs + [r])[..|rs + [r]| - 1] == rs;
  }

  lemma MerchantsWithin(rs: seq<Record>, now: real, w: real)
    ensures Merchants(Within(rs, now, w)) == set r | r in rs && now - r.time <= w && r.merchant != "" :: r.merchant
  {
    hide Keep;
    forall r
      ensures r in Within(rs, now, w) <==> r in rs && now - r.time <= w
    {
      KeepMember(rs, InWindow(now, w), r);
    }
  }

  lemma SameWindow(rs: seq<Record>, now: real, w: real, p: Record -> bool)
    requires forall r :: p(r) <==> now - r.time <= w
    ensures Within(rs, now, w) == Keep(rs, p)
  {
    KeepSame(rs, InWindow(now, w), p);
  }

  /** The counts and sums of the windows of 60, 300, 3600 and 86400 seconds. */
  lemma CountsAndSums(rs: seq<Record>, now: real)
    ensures var m := Recount(rs, now);
            var in60 := Keep(rs, (r: Record) => now - r.time <= 60.0);
            var in300 := Keep(rs, (r: Record) => now - r.time <= 300.0);
            var in3600 := Keep(rs, (r: Record) => now - r.time <= 3600.0);
            var in86400 := Keep(rs, (r: Record) => now - r.time <= 86400.0);
            && m.count1min == |in60| && m.count5min == |in300|
            && m.count1hour == |in3600| && m.count24hour == |in86400|
            && m.sum1min == Total(in60) && m.sum5min == Total(in300)
            && m.sum1hour == Total(in3600) && m.sum24hour == Total(in86400)
  {
    hide Keep, Total;
    SameWindow(rs, now, MINUTE_1, (r: Record) => now - r.time <= 60.0);
    SameWindow(rs, now, MINUTE_5, (r: Record) => now - r.time <= 300.0);
    SameWindow(rs, now, HOUR_1, (r: Record) => now - r.time <= 3600.0);
    SameWindow(rs, now, HOUR_24, (r: Record) => now - r.time <= 86400.0);
  }

  /** The distinct merchants of the last hour and day, and the average and the
      maximum of the last hour. */
  lemma MerchantsAverageMaximum(rs: seq<Record>, now: real)
    ensures var m := Recount(rs, now);
            && m.merchants1hour == |set r | r in rs && now - r.time <= 3600.0 && r.merchant != "" :: r.merchant|
            && m.merchants24hour == |set r | r in rs && now - r.time <= 86400.0 && r.merchant != "" :: r.merchant|
            && m.avg1hour * m.count1hour as real == m.sum1hour
            && (m.count1hour == 0 ==> m.avg1hour == 0.0 && m.max1hour == 0.0)
            && (m.count1hour > 0 ==> exists r :: r in rs && now - r.time <= 3600.0 && r.amount == m.max1hour)
            && forall r :: r in rs && now - r.time <= 3600.0 ==> r.amount <= m.max1hour && m.count1hour > 0
  {
    hide Keep, Total;
    MerchantsWithin(rs, now, HOUR_1);
    MerchantsWithin(rs, now, HOUR_24);
    forall r
      ensures r in Within(rs, now, HOUR_1) <==> r in rs && now - r.time <= 3600.0
    {
      KeepMember(rs, InWindow(now, HOUR_1), r);
    }
    TotalOfNone();
  }

  lemma TotalOfNone()
    ensures Total([]) == 0.0
  {
  }

  /** At the latest instant seen every metric is the one of all transactions ever
      added, field by field. */
  lemma {:induction false} MetricsMean(maxWindow: real, ops: seq<Op>, now: real)
    requires maxWindow >= 86400.0
    requires forall i :: 0 <= i < |ops| ==> Time(ops[i]) <= now
    ensures var m, all := Recount(Run(maxWindow, ops), now), Added(ops);
            && m.count1min == |Keep(all, (r: Record) => now - r.time <= 60.0)|
            && m.count5min == |Keep(all, (r: Record) => now - r.time <= 300.0)|
            && m.count1hour == |Keep(all, (r: Record) => now - r.time <= 3600.0)|
            && m.count24hour == |Keep(all, (r: Record) => now - r.time <= 86400.0)|
            && m.sum1min == Total(Keep(all, (r: Record) => now - r.time <= 60.0))
            && m.sum5min == Total(Keep(all, (r: Record) => now - r.time <= 300.0))
            && m.sum1hour == Total(Keep(all, (r: Record) => now - r.time <= 3600.0))
            && m.sum24hour == Total(Keep(all, (r: Record) => now - r.time <= 86400.0))
            && m.merchants1hour == |set r | r in all && now - r.time <= 3600.0 && r.merchant != "" :: r.merchant|
            && m.merchants24hour == |set r | r in all && now - r.time <= 86400.0 && r.merchant != "" :: r.merchant|
            && m.avg1hour * m.count1hour as real == m.sum1hour
            && (m.count1hour == 0 ==> m.avg1hour == 0.0 && m.max1hour == 0.0)
            && (m.count1hour > 0 ==> exists r :: r in all && now - r.time <= 3600.0 && r.amount == m.max1hour)
            && forall r :: r in all && now - r.time <= 3600.0 ==> r.amount <= m.max1hour
  {
    hide Run, Added, Recount, Keep, Total;
    MetricsAreExact(maxWindow, ops, now);
    CountsAndSums(Added(ops), now);
    MerchantsAverageMaximum(Added(ops), now);
  }

  /** Pruning pops exactly the old records in front: what is left starts with
      one recent enough. */
  lemma {:induction false} FrontIsRecent(rs: seq<Record>, cut: real)
    ensures DropOld(rs, cut) == [] || DropOld(rs, cut)[0].time >= cut
  {
    if rs == [] {
    } else if rs[0].time < cut {
      FrontIsRecent(rs[1..], cut);
    }
  }

  /** So after every addition or evaluation the deque starts inside the window. */
  lemma RunStartsInWindow(maxWindow: real, ops: seq<Op>)
    requires ops != [] && Run(maxWindow, ops) != []
    ensures Run(maxWindow, ops)[0].time >= Time(ops[|ops| - 1]) - maxWindow
  {
    hide DropOld;
    FrontIsRecent(Fed(Run(maxWindow, ops[..|ops| - 1]), ops[|ops| - 1]), Time(ops[|ops| - 1]) - maxWindow);
  }

  // ----- the calculator -----

  /** The parts of a transaction that parse, with the clock readings that stand
      in for a timestamp of zero. */
  datatype Parsed = Parsed(amount: real, merchant: string, timestamp: real, addClock: real, lookClock: real)

  datatype Transaction = Transaction(customer: string, parsed: Option<Parsed>)

  datatype Result = MissingCustomer | Malformed | NoRoom | Measured(metrics: Metrics)

  datatype Calculator = Calculator(order: seq<string>, profiles: map<string, seq<Record>>)

  const EMPTY := Calculator([], map[])

  /** Zero counts as no timestamp. */
  function Effective(timestamp: real, clock: real): real { if timestamp != 0.0 then timestamp else clock }

  function AddTime(p: Parsed): real { Effective(p.timestamp, p.addClock) }
  function LookTime(p: Parsed): real { Effective(p.timestamp, p.lookClock) }

  function Feed(rs: seq<Record>, p: Parsed): seq<Record> {
    Step(HOUR_24, Step(HOUR_24, rs, Add(Record(AddTime(p), p.amount, p.merchant))), Look(LookTime(p)))
  }

  /** Makes room by dropping the profile inserted first, then inserts an empty one. */
  function Admit(max: int, st: Calculator, customer: string): Calculator
    requires |st.order| < max || st.order != []
  {
    if customer in st.profiles then st
    else
      var kept := if |st.order| >= max then Calculator(st.order[1..], st.profiles - {st.order[0]}) else st;
      Calculator(kept.order + [customer], kept.profiles[customer := []])
  }

  predicate HasRoom(max: int, st: Calculator, customer: string) {
    customer in st.profiles || |st.order| < max || st.order != []
  }

  function Evaluate(max: int, st: Calculator, t: Transaction): (Calculator, Result) {
    if t.customer == "" then (st, MissingCustomer)
    else if t.parsed.None? then (st, Malformed)
    else if !HasRoom(max, st, t.customer) then (st, NoRoom)
    else
      var admitted := if t.customer in st.profiles then st else Admit(max, st, t.customer);
      var rs := if t.customer in admitted.profiles then admitted.profiles[t.customer] else [];
      var fed := Feed(rs, t.parsed.value);
      (admitted.(profiles := admitted.profiles[t.customer := fed]), Measured(Recount(fed, LookTime(t.parsed.value))))
  }

  function Batch(max: int, st0: Calculator, ts: seq<Transaction>): (Calculator, seq<Result>) {
    if ts == [] then (st0, [])
    else
      var (st, results) := Batch(max, st0, ts[..|ts| - 1]);
      var (st', result) := Evaluate(max, st, ts[|ts| - 1]);
      (st', results + [result])
  }

  // ----- capacity and isolation -----

  /** The order lists each key once. */
  ghost predicate Lists(order: seq<string>, keys: set<string>) {
    Distinct(order) && forall c :: c in order <==> c in keys
  }

  ghost predicate WellFormed(st: Calculator) { Lists(st.order, st.profiles.Keys) }

  lemma ListsTail(order: seq<string>, keys: set<string>)
    requires Lists(order, keys) && order != []
    ensures Lists(order[1..], keys - {order[0]})
  {
    forall c
      ensures c in order[1..] <==> c in keys - {order[0]}
    {
      if c in order[1..] {
        var i :| 0 <= i < |order[1..]| && order[1..][i] == c;
        assert order[i + 1] == c && c in order;
      }
    }
  }

  lemma ListsAppend(order: seq<string>, keys: set<string>, c: string)
    requires Lists(order, keys) && c !in keys
    ensures Lists(order + [c], keys + {c})
  {
  }

  lemma EvaluateKeeps(max: int, st: Calculator, t: Transaction)
    requires WellFormed(st) && |st.order| <= max
    ensures WellFormed(Evaluate(max, st, t).0) && |Evaluate(max, st, t).0.order| <= max
  {
    hide Feed, Recount;
    if st.order != [] {
      ListsTail(st.order, st.profiles.Keys);
    }
  }

  /** The calculator never tracks more than `max` customers. */
  lemma {:induction false} ProfilesBounded(max: nat, st0: Calculator, ts: seq<Transaction>)
    requires WellFormed(st0) && |st0.order| <= max
    ensures WellFormed(Batch(max, st0, ts).0) && |Batch(max, st0, ts).0.order| <= max
  {
    if ts == [] {
    } else {
      ProfilesBounded(max, st0, ts[..|ts| - 1]);
      EvaluateKeeps(max, Batch(max, st0, ts[..|ts| - 1]).0, ts[|ts| - 1]);
    }
  }

  /** The customers that a batch creates profiles for. */
  function Customers(ts: seq<Transaction>): set<string> {
    set t | t in ts && t.customer != "" && t.parsed.Some? :: t.customer
  }

  function Of(customer: string): Transaction -> bool { (t: Transaction) => t.customer == customer }

  function Own(ts: seq<Transaction>, customer: string): seq<Transaction> { Keep(ts, Of(customer)) }

  /** The results of one customer's transactions, out of those of a batch. */
  function OwnResults(ts: seq<Transaction>, results: seq<Result>, customer: string): seq<Result>
    requires |results| == |ts|
  {
    if ts == [] then []
    else
      var n := |ts| - 1;
      OwnResults(ts[..n], results[..n], customer) + (if ts[n].customer == customer then [results[n]] else [])
  }

  lemma {:induction false} BatchLength(max: int, st0: Calculator, ts: seq<Transaction>)
    ensures |Batch(max, st0, ts).1| == |ts|
  {
    if ts == [] {
    } else {
      BatchLength(max, st0, ts[..|ts| - 1]);
    }
  }

  function ProfileOf(st: Calculator, customer: string): Option<seq<Record>> {
    if customer in st.profiles then Some(st.profiles[customer]) else None
  }

  /** The customers tracked already and those of the batch. */
  function Tracked(st0: Calculator, ts: seq<Transaction>): set<string> { st0.profiles.Keys + Customers(ts) }

  /** With room for every customer nothing is evicted. */
  lemma {:induction false} NoEviction(max: nat, st0: Calculator, ts: seq<Transaction>)
    requires WellFormed(st0) && |Tracked(st0, ts)| <= max
    ensures WellFormed(Batch(max, st0, ts).0)
    ensures forall c :: c in Batch(max, st0, ts).0.order ==> c in Tracked(st0, ts)
    ensures ts != [] ==>
              var t, st := ts[|ts| - 1], Batch(max, st0, ts[..|ts| - 1]).0;
              t.customer != "" && t.parsed.Some? ==> t.customer in st.profiles || |st.order| < max
  {
    hide Evaluate, Tracked;
    if ts == [] {
      InitiallyTracked(st0);
    } else {
      var init, t := ts[..|ts| - 1], ts[|ts| - 1];
      var st := Batch(max, st0, init).0;
      TrackedGrow(st0, init, t);
      assert ts == init + [t];
      NoEviction(max, st0, init);
      if t.customer != "" && t.parsed.Some? && t.customer !in st.profiles {
        DistinctFits(st.order, Tracked(st0, ts) - {t.customer});
      }
      EvaluateOrder(max, st, t);
    }
  }

  lemma InitiallyTracked(st0: Calculator)
    requires WellFormed(st0)
    ensures forall c :: c in st0.order ==> c in Tracked(st0, [])
  {
  }

  lemma TrackedGrow(st0: Calculator, ts: seq<Transaction>, t: Transaction)
    ensures Tracked(st0, ts + [t])
            == Tracked(st0, ts) + (if t.customer != "" && t.parsed.Some? then {t.customer} else {})
    ensures |Tracked(st0, ts)| <= |Tracked(st0, ts + [t])|
  {
    var more := Tracked(st0, ts + [t]) - Tracked(st0, ts);
    assert Tracked(st0, ts + [t]) == Tracked(st0, ts) + more;
  }

  lemma EvaluateOrder(max: int, st: Calculator, t: Transaction)
    requires WellFormed(st)
    requires t.customer != "" && t.parsed.Some? ==> t.customer in st.profiles || |st.order| < max
    ensures WellFormed(Evaluate(max, st, t).0)
    ensures forall c :: c in Evaluate(max, st, t).0.order ==>
              c in st.order || (c == t.customer && t.customer != "" && t.parsed.Some?)
  {
    hide Feed, Recount;
  }

  /** Without eviction an evaluation depends on, and changes, one profile only. */
  lemma EvaluateIsLocal(max: nat, st: Calculator, solo: Calculator, t: Transaction, customer: string)
    requires t.customer != "" && t.parsed.Some? ==> t.customer in st.profiles || |st.order| < max
    requires t.customer == customer && customer != "" && t.parsed.Some? ==>
               customer in solo.profiles || |solo.order| < max
    requires ProfileOf(st, customer) == ProfileOf(solo, customer)
    ensures t.customer != customer ==> ProfileOf(Evaluate(max, st, t).0, customer) == ProfileOf(st, customer)
    ensures t.customer == customer ==>
              && ProfileOf(Evaluate(max, st, t).0, customer) == ProfileOf(Evaluate(max, solo, t).0, customer)
              && Evaluate(max, st, t).1 == Evaluate(max, solo, t).1
  {
    hide Feed, Recount;
  }

  /** Isolation: in an interleaved batch with room for all its customers beside
      those already tracked, each customer gets exactly the results of its own
      transactions alone. */
  lemma {:induction false} BatchIsolatesCustomers(max: nat, st0: Calculator, ts: seq<Transaction>, customer: string)
    requires WellFormed(st0) && |Tracked(st0, ts)| <= max
    ensures |Batch(max, st0, ts).1| == |ts|
    ensures OwnResults(ts, Batch(max, st0, ts).1, customer) == Batch(max, st0, Own(ts, customer)).1
    ensures ProfileOf(Batch(max, st0, ts).0, customer) == ProfileOf(Batch(max, st0, Own(ts, customer)).0, customer)
  {
    hide Batch, Evaluate, Keep, OwnResults, Tracked;
    BatchLength(max, st0, ts);
    if ts == [] {
      EmptyBatch(max, st0, customer);
    } else {
      var init, t := ts[..|ts| - 1], ts[|ts| - 1];
      var own := Own(init, customer);
      var st, solo := Batch(max, st0, init).0, Batch(max, st0, own).0;
      assert ts == init + [t];
      TrackedGrow(st0, init, t);
      BatchIsolatesCustomers(max, st0, init, customer);
      NoEviction(max, st0, ts);
      KeepAppend(init, t, Of(customer));
      if t.customer == customer {
        OwnCustomers(st0, init, t, customer);
        NoEviction(max, st0, own + [t]);
        assert (own + [t])[..|own + [t]| - 1] == own;
      }
      assert Own(ts, customer) == if t.customer == customer then own + [t] else own;
      EvaluateIsLocal(max, st, solo, t, customer);
      BatchStep(max, st0, init, t);
      BatchStep(max, st0, own, t);
      OwnResultsStep(init, t, Batch(max, st0, init).1, Evaluate(max, st, t).1, customer);
    }
  }

  lemma EmptyBatch(max: int, st0: Calculator, customer: string)
    ensures Batch(max, st0, []) == (st0, []) && Own([], customer) == [] && OwnResults([], [], customer) == []
  {
  }

  lemma OwnResultsStep(init: seq<Transaction>, t: Transaction, results: seq<Result>, result: Result, customer: string)
    requires |results| == |init|
    ensures OwnResults(init + [t], results + [result], customer) ==
            OwnResults(init, results, customer) + (if t.customer == customer then [result] else [])
  {
    assert (init + [t])[..|init|] == init && (results + [result])[..|init|] == results;
  }

  lemma BatchStep(max: int, st0: Calculator, init: seq<Transaction>, t: Transaction)
    ensures var (st, results) := Batch(max, st0, init);
            Batch(max, st0, init + [t]) == (Evaluate(max, st, t).0, results + [Evaluate(max, st, t).1])
  {
    assert (init + [t])[..|init + [t]| - 1] == init;
  }

  lemma OwnCustomers(st0: Calculator, init: seq<Transaction>, t: Transaction, customer: string)
    requires t.customer == customer
    ensures |Tracked(st0, Own(init, customer) + [t])| <= |Tracked(st0, init + [t])|
  {
    hide Keep;
    var a, b := Tracked(st0, Own(init, customer) + [t]), Tracked(st0, init + [t]);
    forall c | c in a
      ensures c in b
    {
      if c !in st0.profiles.Keys {
        var x :| x in Own(init, customer) + [t] && x.customer == c && x.customer != "" && x.parsed.Some?;
        KeepMember(init, Of(customer), x);
        assert x in init + [t];
      }
    }
    assert b == a + (b - a);
  }

  /** What a transaction does to its customer's profile. */
  function OpsFor(t: Transaction): seq<Op> {
    if t.parsed.None? then []
    else [Add(Record(AddTime(t.parsed.value), t.parsed.value.amount, t.parsed.value.merchant)),
          Look(LookTime(t.parsed.value))]
  }

  /** The profile operations of one customer's transactions. */
  function OpsOf(ts: seq<Transaction>): seq<Op> {
    if ts == [] then [] else OpsOf(ts[..|ts| - 1]) + OpsFor(ts[|ts| - 1])
  }

  lemma FeedIsTwoSteps(ops: seq<Op>, p: Parsed)
    ensures Run(HOUR_24, ops + [Add(Record(AddTime(p), p.amount, p.merchant)), Look(LookTime(p))])
            == Feed(Run(HOUR_24, ops), p)
  {
    var add, look := Add(Record(AddTime(p), p.amount, p.merchant)), Look(LookTime(p));
    var all := ops + [add, look];
    assert all[..|all| - 1] == ops + [add];
    assert (ops + [add])[..|ops + [add]| - 1] == ops;
  }

  /** Alone, a customer's profile is the run of its own operations. */
  lemma {:induction false} SoloProfile(max: nat, ts: seq<Transaction>, customer: string)
    requires max >= 1 && customer != "" && forall t :: t in ts ==> t.customer == customer
    ensures ProfileOf(Batch(max, EMPTY, ts).0, customer)
            == if OpsOf(ts) == [] then None else Some(Run(HOUR_24, OpsOf(ts)))
  {
    hide Feed, Recount, Tracked, Run;
    if ts == [] {
    } else {
      var init, t := ts[..|ts| - 1], ts[|ts| - 1];
      SoloProfile(max, init, customer);
      OneCustomer(ts, customer);
      NoEviction(max, EMPTY, ts);
      if t.parsed.Some? {
        FeedIsTwoSteps(OpsOf(init), t.parsed.value);
        assert OpsOf(init) == [] ==> Run(HOUR_24, OpsOf(init)) == [] by { EmptyRun(); }
      } else {
        assert OpsOf(ts) == OpsOf(init);
      }
    }
  }

  lemma EmptyRun()
    ensures Run(HOUR_24, []) == []
  {
  }

  lemma OneCustomer(ts: seq<Transaction>, customer: string)
    requires forall t :: t in ts ==> t.customer == customer
    ensures |Tracked(EMPTY, ts)| <= 1
  {
    assert Tracked(EMPTY, ts) == Customers(ts);
    assert Customers(ts) <= {customer};
    assert {customer} == Customers(ts) + ({customer} - Customers(ts));
  }

  /** Everything together: in an interleaved batch with room for all its
      customers, a transaction that carries its customer's latest timestamp
      is measured against all of that customer's transactions so far and no
      one else's. */
  lemma {:induction false} BatchMetricsAreExact(max: nat, ts: seq<Transaction>)
    requires |Tracked(EMPTY, ts)| <= max && ts != []
    requires ts[|ts| - 1].customer != "" && ts[|ts| - 1].parsed.Some?
    requires var t := ts[|ts| - 1];
             var ops := OpsOf(Own(ts, t.customer));
             forall i :: 0 <= i < |ops| ==> Time(ops[i]) <= LookTime(t.parsed.value)
    ensures var t := ts[|ts| - 1];
            && |Batch(max, EMPTY, ts).1| == |ts|
            && Batch(max, EMPTY, ts).1[|ts| - 1]
               == Measured(Recount(Added(OpsOf(Own(ts, t.customer))), LookTime(t.parsed.value)))
  {
    hide Tracked, Recount, Keep, Run, Added, OpsOf, Batch, Feed;
    var init, t := ts[..|ts| - 1], ts[|ts| - 1];
    var own := Own(ts, t.customer);
    assert ts == init + [t];
    BatchLength(max, EMPTY, ts);
    BatchIsolatesCustomers(max, EMPTY, ts, t.customer);
    forall x | x in own
      ensures x.customer == t.customer
    {
      KeepMember(ts, Of(t.customer), x);
    }
    BatchStep(max, EMPTY, init, t);
    TrackedGrow(EMPTY, init, t);
    DistinctFits([t.customer], Tracked(EMPTY, ts));
    NoEviction(max, EMPTY, ts);
    SoloProfile(max, own, t.customer);
    MetricsAreExact(HOUR_24, OpsOf(own), LookTime(t.parsed.value));
  }

  // ----- any number of customers -----

  /** The evaluation that gives a customer a new profile. */
  predicate Creates(max: int, st: Calculator, t: Transaction, customer: string) {
    t.customer == customer && customer !in st.profiles && customer in Evaluate(max, st, t).0.profiles
  }

  /** The position of the transaction that last gave the customer a new profile. */
  function Inserted(max: int, ts: seq<Transaction>, customer: string): (k: nat)
    ensures k <= |ts|
  {
    if ts == [] then 0
    else
      var init := ts[..|ts| - 1];
      if Creates(max, Batch(max, EMPTY, init).0, ts[|ts| - 1], customer) then |init| else Inserted(max, init, customer)
  }

  /** The operations on the customer's present profile. */
  function OpsSince(max: int, ts: seq<Transaction>, customer: string): seq<Op> {
    OpsOf(Own(ts[Inserted(max, ts, customer)..], customer))
  }

  function NewOps(t: Transaction, customer: string): seq<Op> {
    if t.customer == customer then OpsFor(t) else []
  }

  lemma OwnOpsStep(from: seq<Transaction>, t: Transaction, customer: string)
    ensures OpsOf(Own(from + [t], customer)) == OpsOf(Own(from, customer)) + NewOps(t, customer)
    ensures OpsOf(Own([], customer)) == []
  {
    hide Keep;
    KeepAppend(from, t, Of(customer));
    KeepNone<Transaction>([], Of(customer));
    var own := Own(from, customer);
    assert (own + [t])[..|own + [t]| - 1] == own;
    assert OpsOf(own) + [] == OpsOf(own);
    assert Own(from + [t], customer) == if t.customer == customer then own + [t] else own;
  }

  lemma OpsSinceStep(max: int, init: seq<Transaction>, t: Transaction, customer: string)
    ensures OpsSince(max, init + [t], customer) ==
            (if Creates(max, Batch(max, EMPTY, init).0, t, customer) then [] else OpsSince(max, init, customer))
            + NewOps(t, customer)
  {
    hide Own, Evaluate, Batch, OpsOf, NewOps, Creates;
    var ts := init + [t];
    assert ts[..|ts| - 1] == init;
    var from := if Creates(max, Batch(max, EMPTY, init).0, t, customer) then []
                else init[Inserted(max, init, customer)..];
    assert ts[Inserted(max, ts, customer)..] == from + [t];
    OwnOpsStep(from, t, customer);
  }

  /** One evaluation changes or creates the profile of its own customer only. */
  lemma EvaluateProfile(max: int, st: Calculator, t: Transaction, customer: string)
    requires customer != "" && customer in Evaluate(max, st, t).0.profiles
    ensures customer in st.profiles || Creates(max, st, t, customer)
    ensures Evaluate(max, st, t).0.profiles[customer] ==
            var rs := if customer in st.profiles then st.profiles[customer] else [];
            if t.customer == customer && t.parsed.Some? then Feed(rs, t.parsed.value) else rs
  {
    hide Feed, Recount;
  }

  /** However many customers come and go, a profile is the run of its own
      customer's operations since it was last created. */
  lemma {:induction false} ProfileSinceInsertion(max: int, ts: seq<Transaction>, customer: string)
    requires customer != "" && customer in Batch(max, EMPTY, ts).0.profiles
    ensures Batch(max, EMPTY, ts).0.profiles[customer] == Run(HOUR_24, OpsSince(max, ts, customer))
  {
    hide Evaluate, Feed, OpsSince, Run;
    if ts == [] {
    } else {
      var init, t := ts[..|ts| - 1], ts[|ts| - 1];
      var st := Batch(max, EMPTY, init).0;
      assert ts == init + [t];
      EvaluateProfile(max, st, t, customer);
      if customer in st.profiles {
        ProfileSinceInsertion(max, init, customer);
      }
      OpsSinceStep(max, init, t, customer);
      EmptyRun();
      var ops := if customer in st.profiles then OpsSince(max, init, customer) else [];
      assert ops + [] == ops;
      if t.customer == customer && t.parsed.Some? {
        FeedIsTwoSteps(ops, t.parsed.value);
      }
    }
  }

  /** For every limit on profiles, a measured transaction gets the recount over
      its customer's transactions since the present profile was created, if
      and only if that profile has lost nothing of the last 24 hours. */
  lemma {:induction false} MetricsSinceInsertion(max: int, ts: seq<Transaction>)
    requires max >= 1 && ts != [] && ts[|ts| - 1].customer != "" && ts[|ts| - 1].parsed.Some?
    ensures |Batch(max, EMPTY, ts).1| == |ts|
    ensures var t := ts[|ts| - 1];
            var ops, now := OpsSince(max, ts, t.customer), LookTime(t.parsed.value);
            Batch(max, EMPTY, ts).1[|ts| - 1] == Measured(Recount(Added(ops), now))
            <==> forall r :: r in Lost(HOUR_24, ops) ==> now - r.time > HOUR_24
  {
    hide OpsSince, Run, Added, Lost, Recount, Feed, Batch;
    var init, t := ts[..|ts| - 1], ts[|ts| - 1];
    assert ts == init + [t];
    BatchLength(max, EMPTY, ts);
    BatchStep(max, EMPTY, init, t);
    ProfileSinceInsertion(max, ts, t.customer);
    MetricsAreExactIff(HOUR_24, OpsSince(max, ts, t.customer), LookTime(t.parsed.value));
  }

  /** The order in which profiles are evicted is the order of their creation. */
  lemma {:induction false} OrderIsInsertion(max: nat, ts: seq<Transaction>)
    ensures var order := Batch(max, EMPTY, ts).0.order;
            && (forall c :: c in order ==> Inserted(max, ts, c) < |ts|)
            && forall i, j :: 0 <= i < j < |order| ==> Inserted(max, ts, order[i]) < Inserted(max, ts, order[j])
  {
    hide Evaluate, Creates;
    if ts == [] {
    } else {
      var init, t := ts[..|ts| - 1], ts[|ts| - 1];
      var st := Batch(max, EMPTY, init).0;
      OrderIsInsertion(max, init);
      ProfilesBounded(max, EMPTY, init);
      OrderStep(max, st, t);
    }
  }

  /** An evaluation may drop the first in order and append a created profile. */
  lemma OrderStep(max: int, st: Calculator, t: Transaction)
    requires WellFormed(st)
    ensures var order := Evaluate(max, st, t).0.order;
            if Creates(max, st, t, t.customer)
            then order == st.order + [t.customer] || (st.order != [] && order == st.order[1..] + [t.customer])
            else order == st.order
    ensures forall c :: c in st.order || c != t.customer ==> !Creates(max, st, t, c)
  {
    hide Feed, Recount;
  }

  /** Using a profile does not protect it: with room for two, the third
      customer displaces the one that was measured last. */
  lemma EvictionIsNotByUse(a: Transaction, b: Transaction, c: Transaction)
    requires a.parsed.Some? && b.parsed.Some? && c.parsed.Some?
    requires a.customer != b.customer && b.customer != c.customer && c.customer != a.customer
    requires a.customer != "" && b.customer != "" && c.customer != ""
    ensures Batch(2, EMPTY, [a, b, a]).0.order == [a.customer, b.customer]
    ensures Batch(2, EMPTY, [a, b, a, c]).0.order == [b.customer, c.customer]
  {
    hide Evaluate, Batch;
    EmptyBatch(2, EMPTY, "");
    EvaluateTracks([], a);
    EvaluateTracks([a], b);
    EvaluateTracks([a, b], a);
    EvaluateTracks([a, b, a], c);
    assert [] + [a] == [a] && [a] + [b] == [a, b] && [a, b] + [a] == [a, b, a] && [a, b, a] + [c] == [a, b, a, c];
  }

  /** Whom a calculator with room for two tracks after one more transaction. */
  lemma EvaluateTracks(init: seq<Transaction>, t: Transaction)
    requires t.customer != "" && t.parsed.Some?
    ensures var order, order' := Batch(2, EMPTY, init).0.order, Batch(2, EMPTY, init + [t]).0.order;
            order' == if t.customer in order then order
                      else if |order| < 2 then order + [t.customer]
                      else order[1..] + [t.customer]
  {
    hide Feed, Recount, Batch;
    BatchStep(2, EMPTY, init, t);
    ProfilesBounded(2, EMPTY, init);
  }

  /** Each result of a batch is that of its transaction after the ones before it. */
  lemma {:induction false} BatchResultAt(max: int, st0: Calculator, ts: seq<Transaction>, i: nat)
    requires i < |ts|
    ensures |Batch(max, st0, ts).1| == |ts|
    ensures Batch(max, st0, ts).1[i] == Evaluate(max, Batch(max, st0, ts[..i]).0, ts[i]).1
  {
    hide Evaluate;
    var init := ts[..|ts| - 1];
    BatchLength(max, st0, ts);
    BatchLength(max, st0, init);
    if i == |ts| - 1 {
    } else {
      BatchResultAt(max, st0, init, i);
      assert init[..i] == ts[..i];
    }
  }

  // ----- what one evaluation does -----

  /** Without a customer, without parsable fields, or without any room, an
      evaluation only reports the error. Otherwise the customer's profile, a new
      one if there is none, is fed the transaction and measured, at its own
      timestamp unless that is zero; a new one takes the place of the oldest
      when the calculator is full. No other profile changes. */
  lemma EvaluationMeans(max: int, st: Calculator, t: Transaction, ops: seq<Op>)
    requires WellFormed(st)
    requires (if t.customer in st.profiles then st.profiles[t.customer] else []) == Run(86400.0, ops)
    ensures var (after, result) := Evaluate(max, st, t);
            if t.customer == "" then after == st && result == MissingCustomer
            else if t.parsed.None? then after == st && result == Malformed
            else if t.customer !in st.profiles && |st.order| >= max && st.order == []
            then after == st && result == NoRoom
            else
              var p := t.parsed.value;
              var addedAt := if p.timestamp != 0.0 then p.timestamp else p.addClock;
              var measuredAt := if p.timestamp != 0.0 then p.timestamp else p.lookClock;
              var profile := Run(86400.0, ops + [Add(Record(addedAt, p.amount, p.merchant)), Look(measuredAt)]);
              && result == Measured(Recount(profile, measuredAt))
              && after.order == (if t.customer in st.profiles then st.order
                                 else (if |st.order| >= max then st.order[1..] else st.order) + [t.customer])
              && t.customer in after.profiles && after.profiles[t.customer] == profile
              && forall c :: c != t.customer ==>
                   && (c in after.profiles <==>
                       c in st.profiles && (t.customer in st.profiles || |st.order| < max || c != st.order[0]))
                   && (c in after.profiles ==> after.profiles[c] == st.profiles[c])
  {
    hide Recount, Run, Feed;
    if t.parsed.Some? {
      FeedIsTwoSteps(ops, t.parsed.value);
    }
  }

  // ----- the profile and the calculator themselves -----

  class Profile {
    const maxWindow: real
    var records: seq<Record>
    ghost var log: seq<Op>

    ghost predicate Valid()
      reads this
    {
      records == Run(maxWindow, log)
    }

    constructor (window: real)
      ensures Valid() && maxWindow == window && log == [] && records == []
    {
      maxWindow, records, log := window, [], [];
    }

    method EvictExpired(now: real)
      modifies this`records
      ensures records == DropOld(old(records), now - maxWindow)
    {
      var cutoff := now - maxWindow;
      while records != [] && records[0].time < cutoff
        invariant DropOld(records, cutoff) == DropOld(old(records), cutoff)
        decreases |records|
      {
        records := records[1..];
      }
    }

    method AddTransaction(amount: real, merchant: string, timestamp: real, clock: real)
      requires Valid()
      modifies this
      ensures Valid() && log == old(log) + [Add(Record(Effective(timestamp, clock), amount, merchant))]
      ensures records == Step(maxWindow, old(records), Add(Record(Effective(timestamp, clock), amount, merchant)))
    {
      var ts := Effective(timestamp, clock);
      records := records + [Record(ts, amount, merchant)];
      EvictExpired(ts);
      log := log + [Add(Record(ts, amount, merchant))];
      assert log[..|log| - 1] == old(log);
    }

    /** Sorts the records into the four windows and measures them. At the
        latest instant seen that is a recount of everything ever added. */
    method ComputeMetrics(currentTime: real, clock: real) returns (m: Metrics)
      requires Valid()
      modifies this
      ensures Valid() && log == old(log) + [Look(Effective(currentTime, clock))]
      ensures records == Step(maxWindow, old(records), Look(Effective(currentTime, clock)))
      ensures m == Recount(records, Effective(currentTime, clock))
      ensures maxWindow >= HOUR_24
              && (forall i :: 0 <= i < |old(log)| ==> Time(old(log)[i]) <= Effective(currentTime, clock))
              ==> m == Recount(Added(log), Effective(currentTime, clock))
    {
      hide Recount, Keep;
      var now := Effective(currentTime, clock);
      EvictExpired(now);
      log := log + [Look(now)];
      assert log[..|log| - 1] == old(log);
      m := SortIntoWindows(records, now);
      if maxWindow >= HOUR_24 && forall i :: 0 <= i < |old(log)| ==> Time(old(log)[i]) <= now {
        MetricsAreExact(maxWindow, log, now);
      }
    }
  }

  method SortIntoWindows(records: seq<Record>, now: real) returns (m: Metrics)
    ensures m == Recount(records, now)
  {
    hide Keep, Measure;
    var m1, m5, h1, h24 := [], [], [], [];
    EmptyWindows(now);
    for i := 0 to |records|
      invariant m1 == Within(records[..i], now, MINUTE_1)
      invariant m5 == Within(records[..i], now, MINUTE_5)
      invariant h1 == Within(records[..i], now, HOUR_1)
      invariant h24 == Within(records[..i], now, HOUR_24)
    {
      var record := records[i];
      assert records[..i + 1] == records[..i] + [record];
      KeepAppend(records[..i], record, InWindow(now, MINUTE_1));
      KeepAppend(records[..i], record, InWindow(now, MINUTE_5));
      KeepAppend(records[..i], record, InWindow(now, HOUR_1));
      KeepAppend(records[..i], record, InWindow(now, HOUR_24));
      var age := now - record.time;
      if age <= MINUTE_1 { m1 := m1 + [record]; }
      if age <= MINUTE_5 { m5 := m5 + [record]; }
      if age <= HOUR_1 { h1 := h1 + [record]; }
      if age <= HOUR_24 { h24 := h24 + [record]; }
    }
    assert records[..|records|] == records;
    m := Measure(m1, m5, h1, h24);
  }

  lemma EmptyWindows(now: real)
    ensures forall w :: Within([], now, w) == []
  {
  }

  class VelocityCalculator {
    const maxProfiles: int
    var order: seq<string>
    var profiles: map<string, Profile>

    ghost predicate Valid()
      reads this, profiles.Values
    {
      && (forall c :: c in profiles ==> profiles[c].Valid() && profiles[c].maxWindow == HOUR_24)
      && (forall c, d :: c in profiles && d in profiles && c != d ==> profiles[c] != profiles[d])
      && Lists(order, profiles.Keys)
    }

    ghost function Abstract(): Calculator
      reads this, profiles.Values
    {
      Calculator(order, map c | c in profiles :: profiles[c].records)
    }

    constructor (max: int)
      ensures Valid() && maxProfiles == max && Abstract() == EMPTY && profiles == map[]
    {
      maxProfiles, order, profiles := max, [], map[];
    }

    method EvictOldest()
      requires Valid() && order != []
      modifies this
      ensures Valid() && profiles == old(profiles) - {old(order)[0]}
      ensures Abstract() == Calculator(old(order)[1..], old(Abstract()).profiles - {old(order)[0]})
    {
      hide Run, Lists;
      var oldest := order[0];
      ListsTail(order, profiles.Keys);
      order := order[1..];
      profiles := profiles - {oldest};
      assert profiles.Keys == old(profiles).Keys - {oldest};
    }

    method InsertProfile(customer: string) returns (p: Profile)
      requires Valid() && customer !in profiles
      modifies this
      ensures Valid() && profiles == old(profiles)[customer := p] && fresh(p)
      ensures Abstract() == Calculator(old(order) + [customer], old(Abstract()).profiles[customer := []])
    {
      hide Run, Lists;
      ListsAppend(order, profiles.Keys, customer);
      p := new Profile(HOUR_24);
      order := order + [customer];
      profiles := profiles[customer := p];
      assert profiles.Keys == old(profiles).Keys + {customer};
    }

    /** Finds or creates the profile, evicting the one inserted first when full. */
    method GetOrCreateProfile(customer: string) returns (p: Profile)
      requires Valid() && HasRoom(maxProfiles, Abstract(), customer)
      modifies this
      ensures Valid() && customer in profiles && profiles[customer] == p
      ensures Abstract() == if customer in old(profiles) then old(Abstract())
                            else Admit(maxProfiles, old(Abstract()), customer)
      ensures forall c :: c in profiles && c != customer ==> c in old(profiles) && profiles[c] == old(profiles)[c]
      ensures fresh(p) || p in old(profiles).Values
    {
      hide Run, Lists;
      if customer in profiles {
        return profiles[customer];
      }
      if |order| >= maxProfiles {
        EvictOldest();
      }
      p := InsertProfile(customer);
    }

    /** Adds the transaction to its profile and measures it. */
    method FeedProfile(customer: string, x: Parsed) returns (m: Metrics)
      requires Valid() && customer in profiles
      modifies profiles[customer]
      ensures Valid()
      ensures var fed := Feed(old(profiles[customer].records), x);
              && Abstract() == old(Abstract()).(profiles := old(Abstract()).profiles[customer := fed])
              && m == Recount(fed, LookTime(x))
    {
      hide Recount, Run, Lists, Step;
      var profile := profiles[customer];
      profile.AddTransaction(x.amount, x.merchant, x.timestamp, x.addClock);
      m := profile.ComputeMetrics(x.timestamp, x.lookClock);
      assert profile.records == Feed(old(profiles[customer].records), x);
      assert Abstract().profiles == old(Abstract()).profiles[customer := profile.records];
    }

    method EvaluateOne(t: Transaction) returns (r: Result)
      requires Valid()
      modifies this, profiles.Values
      ensures Valid() && forall p :: p in profiles.Values ==> fresh(p) || p in old(profiles).Values
      ensures (Abstract(), r) == Evaluate(maxProfiles, old(Abstract()), t)
    {
      hide Recount, Run, Lists, Step, Feed, Admit;
      if t.customer == "" {
        return MissingCustomer;
      }
      if t.parsed.None? {
        return Malformed;
      }
      if !(t.customer in profiles || |order| < maxProfiles || order != []) {
        return NoRoom;
      }
      var profile := GetOrCreateProfile(t.customer);
      var m := FeedProfile(t.customer, t.parsed.value);
      return Measured(m);
    }

    /** A batch evaluated one by one. */
    method EvaluateBatch(ts: seq<Transaction>) returns (results: seq<Result>)
      requires Valid()
      modifies this, profiles.Values
      ensures Valid() && (Abstract(), results) == Batch(maxProfiles, old(Abstract()), ts)
    {
      hide Recount, Run, Lists, Step, Feed, Admit, Evaluate;
      results := [];
      for i := 0 to |ts|
        invariant Valid() && forall p :: p in profiles.Values ==> fresh(p) || p in old(profiles).Values
        invariant (Abstract(), results) == Batch(maxProfiles, old(Abstract()), ts[..i])
      {
        var r := EvaluateOne(ts[i]);
        results := results + [r];
        BatchStep(maxProfiles, old(Abstract()), ts[..i], ts[i]);
        assert ts[..i + 1] == ts[..i] + [ts[i]];
      }
      assert ts[..|ts|] == ts;
    }
  }
}
