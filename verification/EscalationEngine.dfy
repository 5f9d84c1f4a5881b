/** The escalation engine: records, the alert index and the active alerts, as
    one state machine over start, acknowledge, resolve and timeout check.

    Records are never deleted and their ids are fresh, so a record's id is its
    position in the list of records. */
module EscalationEngine {
  import opened Options
  import opened EscalationPolicy
  import opened EscalationRecord
  import A = AlertLifecycle

  datatype Alert = Alert(id: string, severity: A.Severity)

  datatype State = State(records: seq<Record>, byAlert: map<string, nat>, alerts: map<string, Alert>)

  datatype Op =
    | Start(alert: Alert, policyId: string, now: real)
    | Acknowledge(alertId: string, who: string)
    | Resolve(alertId: string)
    | CheckTimeouts(now: real)

  const INIT := State([], map[], map[])

  function FindPolicy(policies: seq<Policy>, id: string): Option<Policy> {
    if policies == [] then None
    else if policies[0].id == id then Some(policies[0])
    else FindPolicy(policies[1..], id)
  }

  function AutoSelect(policies: seq<Policy>, severity: A.Severity): Option<Policy> {
    if policies == [] then None
    else if policies[0].enabled && severity in policies[0].severities then Some(policies[0])
    else AutoSelect(policies[1..], severity)
  }

  /** An explicit policy id overrides the severity, even of a disabled policy. */
  function Select(policies: seq<Policy>, alert: Alert, policyId: string): Option<Policy> {
    if policyId != "" then FindPolicy(policies, policyId) else AutoSelect(policies, alert.severity)
  }

  /** The second locked region of `start_escalation`: enter the new record. */
  function Enter(st: State, alert: Alert, policy: Policy, now: real): State
    requires policy.levels != []
  {
    State(st.records + [Opened(alert.id, policy, now)], st.byAlert[alert.id := |st.records|],
          st.alerts[alert.id := alert])
  }

  function PollBy(policies: seq<Policy>, r: Record, now: real): Record {
    match FindPolicy(policies, r.policy)
    case None => r
    case Some(policy) => Poll(policy.levels, r, now)
  }

  predicate Upgrades(policies: seq<Policy>, r: Record, now: real) {
    Due(r, now) && var p := FindPolicy(policies, r.policy); p.Some? && CanRaise(p.value.levels, r)
  }

  function Acknowledging(r: Record, who: string): Record {
    r.(status := Acknowledged, nextAt := None, trail := r.trail + [Acked(who, r.level)])
  }

  function Closing(r: Record): Record {
    r.(status := Resolved, nextAt := None, trail := r.trail + [Closed])
  }

  /** The record an alert is mapped to. */
  predicate Mapped(st: State, alertId: string) {
    alertId in st.byAlert && st.byAlert[alertId] < |st.records|
  }

  function Step(policies: seq<Policy>, st: State, op: Op): State {
    match op
    case Start(alert, policyId, now) =>
      var policy := Select(policies, alert, policyId);
      if policy.None? || policy.value.levels == [] || alert.id in st.byAlert then st
      else Enter(st, alert, policy.value, now)
    case Acknowledge(a, who) =>
      if !Mapped(st, a) then st
      else st.(records := st.records[st.byAlert[a] := Acknowledging(st.records[st.byAlert[a]], who)])
    case Resolve(a) =>
      if !Mapped(st, a) then st
      else State(st.records[st.byAlert[a] := Closing(st.records[st.byAlert[a]])], st.byAlert - {a}, st.alerts - {a})
    case CheckTimeouts(now) =>
      st.(records := seq(|st.records|, i requires 0 <= i < |st.records| => PollBy(policies, st.records[i], now)))
  }

  function RunFrom(policies: seq<Policy>, st: State, ops: seq<Op>): State {
    if ops == [] then st else Step(policies, RunFrom(policies, st, ops[..|ops| - 1]), ops[|ops| - 1])
  }

  // ----- what every reachable state keeps -----

  /** The index holds exactly the unresolved records, one per alert; the active
      alerts are its keys; and exactly the records still escalating have a
      deadline. */
  ghost predicate Inv(st: State) {
    && (forall a :: a in st.byAlert ==>
          && st.byAlert[a] < |st.records|
          && st.records[st.byAlert[a]].alert == a
          && st.records[st.byAlert[a]].status != Resolved)
    && (forall i :: 0 <= i < |st.records| && st.records[i].status != Resolved ==>
          && st.records[i].alert in st.byAlert
          && st.byAlert[st.records[i].alert] == i)
    && st.byAlert.Keys == st.alerts.Keys
    && (forall i :: 0 <= i < |st.records| ==> (st.records[i].nextAt.Some? <==> Active(st.records[i])))
  }

  lemma PollKeeps(policies: seq<Policy>, r: Record, now: real)
    ensures var p := PollBy(policies, r, now);
            && p.alert == r.alert && p.policy == r.policy
            && (p.status == Resolved <==> r.status == Resolved)
            && ((r.nextAt.Some? <==> Active(r)) ==> (p.nextAt.Some? <==> Active(p)))
            && (!Active(r) ==> p == r)
  {
  }

  lemma CheckKeepsInv(policies: seq<Policy>, st: State, now: real)
    requires Inv(st)
    ensures Inv(Step(policies, st, CheckTimeouts(now)))
  {
    hide PollBy;
    var after := Step(policies, st, CheckTimeouts(now));
    forall i | 0 <= i < |st.records|
      ensures after.records[i].alert == st.records[i].alert
      ensures after.records[i].status == Resolved <==> st.records[i].status == Resolved
      ensures after.records[i].nextAt.Some? <==> Active(after.records[i])
    {
      PollKeeps(policies, st.records[i], now);
    }
  }

  lemma StartKeepsInv(policies: seq<Policy>, st: State, alert: Alert, policyId: string, now: real)
    requires Inv(st)
    ensures Inv(Step(policies, st, Start(alert, policyId, now)))
  {
  }

  lemma AcknowledgeKeepsInv(policies: seq<Policy>, st: State, alertId: string, who: string)
    requires Inv(st)
    ensures Inv(Step(policies, st, Acknowledge(alertId, who)))
  {
  }

  lemma ResolveKeepsInv(policies: seq<Policy>, st: State, alertId: string)
    requires Inv(st)
    ensures Inv(Step(policies, st, Resolve(alertId)))
  {
  }

  lemma StepKeepsInv(policies: seq<Policy>, st: State, op: Op)
    requires Inv(st)
    ensures Inv(Step(policies, st, op))
  {
    hide Inv, Step;
    match op
    case Start(alert, policyId, now) => StartKeepsInv(policies, st, alert, policyId, now);
    case Acknowledge(a, who) => AcknowledgeKeepsInv(policies, st, a, who);
    case Resolve(a) => ResolveKeepsInv(policies, st, a);
    case CheckTimeouts(now) => CheckKeepsInv(policies, st, now);
  }

  lemma {:induction false} ReachableInv(policies: seq<Policy>, ops: seq<Op>)
    ensures Inv(RunFrom(policies, INIT, ops))
  {
    if ops == [] {
    } else {
      ReachableInv(policies, ops[..|ops| - 1]);
      StepKeepsInv(policies, RunFrom(policies, INIT, ops[..|ops| - 1]), ops[|ops| - 1]);
    }
  }

  lemma {:induction false} RunKeepsInv(policies: seq<Policy>, st: State, ops: seq<Op>)
    requires Inv(st)
    ensures Inv(RunFrom(policies, st, ops)) && |RunFrom(policies, st, ops).records| >= |st.records|
  {
    if ops == [] {
    } else {
      RunKeepsInv(policies, st, ops[..|ops| - 1]);
      StepKeepsInv(policies, RunFrom(policies, st, ops[..|ops| - 1]), ops[|ops| - 1]);
    }
  }

  /** A resolved record never changes again, whatever happens. */
  lemma {:induction false} ResolvedForever(policies: seq<Policy>, st: State, ops: seq<Op>, id: nat)
    requires Inv(st) && id < |st.records| && st.records[id].status == Resolved
    ensures id < |RunFrom(policies, st, ops).records| && RunFrom(policies, st, ops).records[id] == st.records[id]
  {
    if ops == [] {
    } else {
      ResolvedForever(policies, st, ops[..|ops| - 1], id);
      RunKeepsInv(policies, st, ops[..|ops| - 1]);
      PollKeeps(policies, st.records[id], if ops[|ops| - 1].CheckTimeouts? then ops[|ops| - 1].now else 0.0);
    }
  }

  // ----- one record inside a run of the whole engine -----

  /** The operation does not touch the alert's escalation by hand. */
  predicate Leaves(op: Op, alertId: string) {
    match op
    case Acknowledge(a, _) => a != alertId
    case Resolve(a) => a != alertId
    case _ => true
  }

  function CheckTimes(ops: seq<Op>): seq<real> {
    if ops == [] then []
    else
      var last := ops[|ops| - 1];
      CheckTimes(ops[..|ops| - 1]) + (if last.CheckTimeouts? then [last.now] else [])
  }

  predicate UniqueIds(policies: seq<Policy>) {
    forall i, j :: 0 <= i < j < |policies| ==> policies[i].id != policies[j].id
  }

  lemma {:induction false} SelectedIsFound(policies: seq<Policy>, alert: Alert, policyId: string)
    requires UniqueIds(policies) && Select(policies, alert, policyId).Some?
    ensures var p := Select(policies, alert, policyId).value; FindPolicy(policies, p.id) == Some(p) && p in policies
  {
    if policyId == "" && !(policies[0].enabled && alert.severity in policies[0].severities) {
      SelectedIsFound(policies[1..], alert, policyId);
      var p := Select(policies, alert, policyId).value;
      var j :| 0 <= j < |policies[1..]| && policies[1..][j] == p;
      assert policies[j + 1] == p;
    } else if policyId != "" && policies[0].id != policyId {
      SelectedIsFound(policies[1..], alert, policyId);
    }
  }

  lemma PollsAppend(levels: seq<LevelConfig>, r: Record, times: seq<real>, now: real)
    ensures Polls(levels, r, times + [now]) == Poll(levels, Polls(levels, r, times), now)
  {
    assert (times + [now])[..|times + [now]| - 1] == times;
  }

  /** An untouched record sees nothing of the rest of the engine: a run acts on
      it exactly as its timeout checks alone. */
  lemma {:induction false} RecordIsIsolated(policies: seq<Policy>, st: State, ops: seq<Op>, id: nat, policy: Policy)
    requires Inv(st) && id < |st.records|
    requires FindPolicy(policies, st.records[id].policy) == Some(policy)
    requires forall i :: 0 <= i < |ops| ==> Leaves(ops[i], st.records[id].alert)
    ensures id < |RunFrom(policies, st, ops).records|
    ensures var r := RunFrom(policies, st, ops).records[id];
            && r == Polls(policy.levels, st.records[id], CheckTimes(ops))
            && r.alert == st.records[id].alert && r.policy == st.records[id].policy
  {
    if ops == [] {
    } else {
      var init, op := ops[..|ops| - 1], ops[|ops| - 1];
      var before := RunFrom(policies, st, init);
      RecordIsIsolated(policies, st, init, id, policy);
      RunKeepsInv(policies, st, init);
      assert Leaves(op, st.records[id].alert);
      UntouchedStep(policies, before, op, id);
      if op.CheckTimeouts? {
        PollsAppend(policy.levels, st.records[id], CheckTimes(init), op.now);
        PollKeeps(policies, before.records[id], op.now);
      } else {
        assert CheckTimes(ops) == CheckTimes(init);
      }
    }
  }

  lemma UntouchedStep(policies: seq<Policy>, st: State, op: Op, id: nat)
    requires Inv(st) && id < |st.records| && Leaves(op, st.records[id].alert)
    ensures id < |Step(policies, st, op).records|
    ensures Step(policies, st, op).records[id] ==
            if op.CheckTimeouts? then PollBy(policies, st.records[id], op.now) else st.records[id]
  {
    hide PollBy;
  }

  /** The policy a start picks, when it can open a record. */
  ghost predicate Opens(policies: seq<Policy>, alert: Alert, policyId: string, policy: Policy) {
    UniqueIds(policies) && policy.levels != [] && Select(policies, alert, policyId) == Some(policy)
  }

  /** The record of an alert, at any later point of a run that leaves it alone. */
  lemma RecordOf(policies: seq<Policy>, before: seq<Op>, alert: Alert, policyId: string, start: real, ops: seq<Op>,
                 policy: Policy)
    requires Opens(policies, alert, policyId, policy)
    requires alert.id !in RunFrom(policies, INIT, before).byAlert
    requires forall i :: 0 <= i < |ops| ==> Leaves(ops[i], alert.id)
    ensures var st := Step(policies, RunFrom(policies, INIT, before), Start(alert, policyId, start));
            var final := RunFrom(policies, st, ops);
            var r := Polls(policy.levels, Opened(alert.id, policy, start), CheckTimes(ops));
            r.status != Resolved ==>
              Mapped(final, alert.id) && final.records[final.byAlert[alert.id]] == r
  {
    hide Polls, CheckTimes, RunFrom;
    var reached := RunFrom(policies, INIT, before);
    var st := Step(policies, reached, Start(alert, policyId, start));
    ReachableInv(policies, before);
    StepKeepsInv(policies, reached, Start(alert, policyId, start));
    SelectedIsFound(policies, alert, policyId);
    RecordIsIsolated(policies, st, ops, |reached.records|, policy);
    RunKeepsInv(policies, st, ops);
  }

  /** Bounded liveness of the whole engine: an alert that starts escalating and
      is neither acknowledged nor resolved is TIMED_OUT within the sum of its
      level timeouts and one check period per level, in any run whose checks
      come at least every `period`, and stays so. */
  lemma {:induction false} EscalationTimesOut(policies: seq<Policy>, before: seq<Op>, alert: Alert, policyId: string,
                                              start: real, ops: seq<Op>, period: real, policy: Policy) returns (i: nat)
    requires Opens(policies, alert, policyId, policy)
    requires alert.id !in RunFrom(policies, INIT, before).byAlert
    requires forall i :: 0 <= i < |ops| ==> Leaves(ops[i], alert.id)
    requires DistinctFrom(policy.levels, policy.levels[0].level)
    requires NonnegativeFrom(policy.levels, policy.levels[0].level)
    requires period >= 0.0 && Periodic(CheckTimes(ops), start, period)
    requires var levels, from := policy.levels, policy.levels[0].level;
             Last(CheckTimes(ops), start) > start + SumFrom(levels, from) + Periods(CountFrom(levels, from) - 1, period)
    ensures var levels, from := policy.levels, policy.levels[0].level;
            && i < |CheckTimes(ops)|
            && CheckTimes(ops)[i] <= start + SumFrom(levels, from) + Periods(CountFrom(levels, from), period)
    ensures var st := Step(policies, RunFrom(policies, INIT, before), Start(alert, policyId, start));
            forall k :: 0 <= k <= |ops| && |CheckTimes(ops[..k])| > i ==>
              var final := RunFrom(policies, st, ops[..k]);
              Mapped(final, alert.id) && final.records[final.byAlert[alert.id]].status == TimedOut
  {
    hide Periods, SumFrom, CountFrom, Step, RunFrom, Polls, CheckTimes, Select, Opened;
    i := TimesOutInTime(alert.id, policy, start, period, CheckTimes(ops));
    var st := Step(policies, RunFrom(policies, INIT, before), Start(alert, policyId, start));
    forall k | 0 <= k <= |ops| && |CheckTimes(ops[..k])| > i
      ensures var final := RunFrom(policies, st, ops[..k]);
              Mapped(final, alert.id) && final.records[final.byAlert[alert.id]].status == TimedOut
    {
      RecordOf(policies, before, alert, policyId, start, ops[..k], policy);
      CheckTimesPrefix(ops, k);
      TimedOutStays(policy.levels, Opened(alert.id, policy, start), CheckTimes(ops), i + 1, |CheckTimes(ops[..k])|);
      assert CheckTimes(ops)[..|CheckTimes(ops[..k])|] == CheckTimes(ops[..k]);
    }
  }

  lemma {:induction false} CheckTimesPrefix(ops: seq<Op>, k: nat)
    requires k <= |ops|
    ensures CheckTimes(ops[..k]) <= CheckTimes(ops)
    decreases |ops|
  {
    if k == |ops| {
      assert ops[..k] == ops;
    } else {
      CheckTimesPrefix(ops[..|ops| - 1], k);
      assert ops[..|ops| - 1][..k] == ops[..k];
    }
  }

  lemma {:induction false} TimedOutStays(levels: seq<LevelConfig>, r: Record, times: seq<real>, j: nat, k: nat)
    requires j <= k <= |times| && Polls(levels, r, times[..j]).status == TimedOut
    ensures Polls(levels, r, times[..k]).status == TimedOut
  {
    if j < k {
      TimedOutStays(levels, r, times, j, k - 1);
      assert times[..k] == times[..k - 1] + [times[k - 1]];
      PollsAppend(levels, r, times[..k - 1], times[k - 1]);
    }
  }

  // ----- what each operation does, in every run -----

  /** The first policy that answers a start: the one with the given id, or else
      the first enabled one that lists the alert's severity. */
  ghost predicate Answers(policies: seq<Policy>, alert: Alert, policyId: string, i: nat) {
    && i < |policies|
    && (if policyId != "" then policies[i].id == policyId
        else policies[i].enabled && alert.severity in policies[i].severities)
    && forall j :: 0 <= j < i ==>
         if policyId != "" then policies[j].id != policyId
         else !policies[j].enabled || alert.severity !in policies[j].severities
  }

  lemma {:induction false} SelectAnswers(policies: seq<Policy>, alert: Alert, policyId: string) returns (i: nat)
    ensures Select(policies, alert, policyId).Some? ==>
              Answers(policies, alert, policyId, i) && Select(policies, alert, policyId).value == policies[i]
    ensures Select(policies, alert, policyId).None? ==> forall k: nat :: !Answers(policies, alert, policyId, k)
  {
    i := 0;
    if policies == [] {
    } else if policyId != "" && policies[0].id == policyId {
    } else if policyId == "" && policies[0].enabled && alert.severity in policies[0].severities {
    } else {
      var rest := policies[1..];
      i := SelectAnswers(rest, alert, policyId);
      i := i + 1;
      if Select(policies, alert, policyId).None? {
        forall k: nat
          ensures !Answers(policies, alert, policyId, k)
        {
          if Answers(policies, alert, policyId, k) {
            AnswersTail(policies, alert, policyId, k);
          }
        }
      }
    }
  }

  lemma AnswersTail(policies: seq<Policy>, alert: Alert, policyId: string, k: nat)
    requires Answers(policies, alert, policyId, k) && k > 0
    ensures Answers(policies[1..], alert, policyId, k - 1)
  {
    forall j | 0 <= j < k - 1
      ensures policies[1..][j] == policies[j + 1]
    {
    }
  }

  /** A start of an unmapped alert opens one record, of the policy that answers:
      pending at the level listed first, due after that level's timeout. Without
      such a policy, with no levels in it, or for a mapped alert it does nothing. */
  lemma StartOpens(policies: seq<Policy>, st: State, alert: Alert, policyId: string, now: real, i: nat)
    ensures Answers(policies, alert, policyId, i) && policies[i].levels != [] && alert.id !in st.byAlert ==>
              var p, lc := policies[i], policies[i].levels[0];
              Step(policies, st, Start(alert, policyId, now)) ==
              State(st.records + [Record(alert.id, p.id, lc.level, Pending,
                                         Some(now + 60.0 * lc.timeoutMinutes as real), [Started(lc.level)])],
                    st.byAlert[alert.id := |st.records|], st.alerts[alert.id := alert])
    ensures alert.id in st.byAlert || (Answers(policies, alert, policyId, i) && policies[i].levels == []) ||
            (forall k: nat :: !Answers(policies, alert, policyId, k)) ==>
              Step(policies, st, Start(alert, policyId, now)) == st
  {
    var k := SelectAnswers(policies, alert, policyId);
    if Answers(policies, alert, policyId, i) && Answers(policies, alert, policyId, k) {
      assert i == k;
    }
  }

  /** Acknowledging stops the escalation: in a reachable state, the alert's record
      is acknowledged at the level it has, without a deadline, and no later run
      that leaves the alert alone moves it. */
  lemma {:induction false} AcknowledgedStays(policies: seq<Policy>, before: seq<Op>, alertId: string, who: string,
                                             ops: seq<Op>)
    requires alertId in RunFrom(policies, INIT, before).byAlert
    requires forall i :: 0 <= i < |ops| ==> Leaves(ops[i], alertId)
    ensures var st := RunFrom(policies, INIT, before);
            var id := st.byAlert[alertId];
            var acknowledged := Step(policies, st, Acknowledge(alertId, who));
            var final := RunFrom(policies, acknowledged, ops);
            && id < |st.records| && id < |final.records| && alertId in final.byAlert && final.byAlert[alertId] == id
            && final.records[id] == st.records[id].(status := Acknowledged, nextAt := None,
                                                    trail := st.records[id].trail + [Acked(who, st.records[id].level)])
            && acknowledged.byAlert == st.byAlert && acknowledged.alerts == st.alerts
            && |acknowledged.records| == |st.records|
            && forall j :: 0 <= j < |st.records| && j != id ==> acknowledged.records[j] == st.records[j]
  {
    hide RunFrom;
    var st := RunFrom(policies, INIT, before);
    var acknowledged := Step(policies, st, Acknowledge(alertId, who));
    ReachableInv(policies, before);
    StepKeepsInv(policies, st, Acknowledge(alertId, who));
    InactiveStays(policies, acknowledged, ops, st.byAlert[alertId]);
  }

  /** A record that is no longer escalating changes only by hand. */
  lemma {:induction false} InactiveStays(policies: seq<Policy>, st: State, ops: seq<Op>, id: nat)
    requires Inv(st) && id < |st.records| && !Active(st.records[id]) && st.records[id].status != Resolved
    requires forall i :: 0 <= i < |ops| ==> Leaves(ops[i], st.records[id].alert)
    ensures var final := RunFrom(policies, st, ops);
            && id < |final.records| && final.records[id] == st.records[id]
            && st.records[id].alert in final.byAlert && final.byAlert[st.records[id].alert] == id
  {
    if ops == [] {
    } else {
      var init, op := ops[..|ops| - 1], ops[|ops| - 1];
      InactiveStays(policies, st, init, id);
      RunKeepsInv(policies, st, init);
      RunKeepsInv(policies, st, ops);
      assert Leaves(op, st.records[id].alert);
      UntouchedStep(policies, RunFrom(policies, st, init), op, id);
      if op.CheckTimeouts? {
        PollKeeps(policies, st.records[id], op.now);
      }
    }
  }

  /** Resolving closes the alert's record for good and forgets the alert. */
  lemma {:induction false} ResolvedCloses(policies: seq<Policy>, before: seq<Op>, alertId: string, ops: seq<Op>)
    requires alertId in RunFrom(policies, INIT, before).byAlert
    ensures var st := RunFrom(policies, INIT, before);
            var id := st.byAlert[alertId];
            var resolved := Step(policies, st, Resolve(alertId));
            var final := RunFrom(policies, resolved, ops);
            && id < |st.records| && id < |final.records|
            && final.records[id] == st.records[id].(status := Resolved, nextAt := None,
                                                    trail := st.records[id].trail + [Closed])
            && resolved.byAlert == st.byAlert - {alertId} && resolved.alerts == st.alerts - {alertId}
            && |resolved.records| == |st.records|
            && forall j :: 0 <= j < |st.records| && j != id ==> resolved.records[j] == st.records[j]
  {
    hide RunFrom;
    var st := RunFrom(policies, INIT, before);
    ReachableInv(policies, before);
    StepKeepsInv(policies, st, Resolve(alertId));
    ResolvedForever(policies, Step(policies, st, Resolve(alertId)), ops, st.byAlert[alertId]);
  }

  /** A check leaves alone what is acknowledged, resolved, timed out, or not yet
      due. What is due moves to the least configured level above its own (or to
      its own again when that is configured twice), for that level's timeout,
      and times out when there is none. */
  lemma CheckMoves(policies: seq<Policy>, st: State, now: real, id: nat, p: nat)
    requires id < |st.records| && UniqueIds(policies)
    requires p < |policies| && policies[p].id == st.records[id].policy
    requires Count(policies[p].levels, st.records[id].level) > 0
    ensures var r, after := st.records[id], Step(policies, st, CheckTimeouts(now));
            && after.byAlert == st.byAlert && after.alerts == st.alerts && |after.records| == |st.records|
            && var levels, r' := policies[p].levels, after.records[id];
            if (r.status != Pending && r.status != Escalated) || r.nextAt.None? || now < r.nextAt.value then r' == r
            else if Count(levels, r.level) == 1 && forall lc :: lc in levels ==> lc.level <= r.level
            then r' == r.(status := TimedOut, nextAt := None, trail := r.trail + [MaxLevelReached(r.level)])
            else
              && (if Count(levels, r.level) == 1 then IsNext(levels, r.level, r'.level) else r'.level == r.level)
              && r'.status == Escalated
              && r'.trail == r.trail + [LevelUp(r'.level - 1, r'.level)]
              && r'.alert == r.alert && r'.policy == r.policy
              && exists i :: 0 <= i < |levels| && levels[i].level == r'.level
                             && (forall j :: 0 <= j < i ==> levels[j].level != r'.level)
                             && r'.nextAt == Some(now + 60.0 * levels[i].timeoutMinutes as real)
  {
    hide Poll, Count;
    FindsUnique(policies, p);
    PollMoves(policies[p].levels, st.records[id], now);
  }

  /** The same of one record and the levels of its policy. */
  lemma PollMoves(levels: seq<LevelConfig>, r: Record, now: real)
    requires Count(levels, r.level) > 0
    ensures var r' := Poll(levels, r, now);
            if (r.status != Pending && r.status != Escalated) || r.nextAt.None? || now < r.nextAt.value then r' == r
            else if Count(levels, r.level) == 1 && forall lc :: lc in levels ==> lc.level <= r.level
            then r' == r.(status := TimedOut, nextAt := None, trail := r.trail + [MaxLevelReached(r.level)])
            else
              && (if Count(levels, r.level) == 1 then IsNext(levels, r.level, r'.level) else r'.level == r.level)
              && r'.status == Escalated
              && r'.trail == r.trail + [LevelUp(r'.level - 1, r'.level)]
              && r'.alert == r.alert && r'.policy == r.policy
              && exists i :: 0 <= i < |levels| && levels[i].level == r'.level
                             && (forall j :: 0 <= j < i ==> levels[j].level != r'.level)
                             && r'.nextAt == Some(now + 60.0 * levels[i].timeoutMinutes as real)
  {
    hide Count, NextLevel, LevelConfigFor;
    NextLevelFinds(levels, r.level);
    var next := NextLevel(levels, r.level);
    if next.Some? {
      NextHasConfig(levels, r.level, next.value);
      var i := FirstConfig(levels, next.value);
      assert levels[i] in levels;
    } else {
      forall lc | lc in levels
        ensures lc.level <= r.level
      {
        CountZero(levels, lc.level);
      }
    }
  }

  lemma NextHasConfig(levels: seq<LevelConfig>, current: Level, next: Level)
    requires Count(levels, current) > 0
    requires if Count(levels, current) == 1 then IsNext(levels, current, next) else next == current
    ensures Count(levels, next) > 0
  {
  }

  /** A record whose policy is not configured is left alone too. */
  lemma CheckWithoutPolicy(policies: seq<Policy>, st: State, now: real, id: nat)
    requires id < |st.records| && forall p :: 0 <= p < |policies| ==> policies[p].id != st.records[id].policy
    ensures Step(policies, st, CheckTimeouts(now)).records[id] == st.records[id]
  {
    NotFound(policies, st.records[id].policy);
  }

  lemma {:induction false} NotFound(policies: seq<Policy>, id: string)
    requires forall p :: 0 <= p < |policies| ==> policies[p].id != id
    ensures FindPolicy(policies, id).None?
  {
    if policies == [] {
    } else {
      NotFound(policies[1..], id);
    }
  }

  lemma {:induction false} FindsUnique(policies: seq<Policy>, p: nat)
    requires UniqueIds(policies) && p < |policies|
    ensures FindPolicy(policies, policies[p].id) == Some(policies[p])
  {
    if p > 0 {
      FindsUnique(policies[1..], p - 1);
    }
  }

  lemma {:induction false} FirstConfig(levels: seq<LevelConfig>, level: Level) returns (i: nat)
    requires Count(levels, level) > 0
    ensures i < |levels| && levels[i].level == level && LevelConfigFor(levels, level) == Some(levels[i])
    ensures forall j :: 0 <= j < i ==> levels[j].level != level
  {
    if levels[0].level == level {
      i := 0;
    } else {
      i := FirstConfig(levels[1..], level);
      i := i + 1;
    }
  }

  /** What a check reports: exactly the records it raised, in order. */
  lemma {:induction false} UpgradedAre(policies: seq<Policy>, records: seq<Record>, now: real)
    ensures forall i: nat :: i in Upgraded(policies, records, now) <==>
              i < |records| && PollBy(policies, records[i], now) != records[i]
              && PollBy(policies, records[i], now).status == Escalated
    ensures forall i, j :: 0 <= i < j < |Upgraded(policies, records, now)| ==>
              Upgraded(policies, records, now)[i] < Upgraded(policies, records, now)[j]
  {
    if records == [] {
    } else {
      var init := Upgraded(policies, records[..|records| - 1], now);
      UpgradedAre(policies, records[..|records| - 1], now);
      forall i | 0 <= i < |init|
        ensures init[i] < |records| - 1
      {
        assert init[i] in init;
      }
    }
  }

  // ----- the two locked regions of a start -----

  /** Entering a record keeps the invariant exactly when the alert is still
      unmapped at that moment, not merely when it was at the earlier check. */
  lemma EnterKeepsInvIff(st: State, alert: Alert, policy: Policy, now: real)
    requires Inv(st) && policy.levels != []
    ensures Inv(Enter(st, alert, policy, now)) <==> alert.id !in st.byAlert
  {
    var after := Enter(st, alert, policy, now);
    var id := |st.records|;
    assert after.records[id].alert == alert.id;
    if alert.id in st.byAlert {
      var other := st.byAlert[alert.id];
      assert after.records[other] == st.records[other];
    }
  }

  /** Record `i` is an unresolved record of the alert. */
  predicate LiveRecord(st: State, i: nat, alertId: string) {
    i < |st.records| && st.records[i].alert == alertId && st.records[i].status != Resolved
  }

  /** Two overlapping starts of one alert, both past the check, leave two live
      records for it. */
  lemma OverlappingStartsBreak(st: State, alert: Alert, policy: Policy, t1: real, t2: real)
    requires Inv(st) && policy.levels != [] && alert.id !in st.byAlert
    ensures Inv(Enter(st, alert, policy, t1))
    ensures var both := Enter(Enter(st, alert, policy, t1), alert, policy, t2);
            && !Inv(both)
            && exists i, j :: 0 <= i < j < |both.records|
                              && LiveRecord(both, i, alert.id) && LiveRecord(both, j, alert.id)
  {
    var both := Enter(Enter(st, alert, policy, t1), alert, policy, t2);
    var n := |st.records|;
    assert LiveRecord(both, n, alert.id) && LiveRecord(both, n + 1, alert.id);
    EnterKeepsInvIff(st, alert, policy, t1);
    EnterKeepsInvIff(Enter(st, alert, policy, t1), alert, policy, t2);
  }

  // ----- the engine itself -----

  /** The ids a timeout check reports, in record order. */
  function Upgraded(policies: seq<Policy>, records: seq<Record>, now: real): seq<nat> {
    if records == [] then []
    else
      var n := |records| - 1;
      Upgraded(policies, records[..n], now) + (if Upgrades(policies, records[n], now) then [n] else [])
  }

  class Engine {
    const policies: seq<Policy>
    var activeEscalations: seq<Record>
    var escalationByAlert: map<string, nat>
    var activeAlerts: map<string, Alert>

    ghost function Abstract(): State
      reads this
    {
      State(activeEscalations, escalationByAlert, activeAlerts)
    }

    constructor (config: seq<Policy>)
      ensures policies == config && Abstract() == INIT && Inv(Abstract())
    {
      policies, activeEscalations, escalationByAlert, activeAlerts := config, [], map[], map[];
    }

    method StartEscalation(alert: Alert, policyId: string, now: real) returns (r: Option<Record>)
      requires Inv(Abstract())
      modifies this
      ensures Inv(Abstract()) && Abstract() == Step(policies, old(Abstract()), Start(alert, policyId, now))
      ensures r.None? <==> var p := Select(policies, alert, policyId); p.None? || p.value.levels == []
      ensures r.Some? ==> Mapped(Abstract(), alert.id) && r.value == activeEscalations[escalationByAlert[alert.id]]
    {
      StepKeepsInv(policies, Abstract(), Start(alert, policyId, now));
      var policy := Select(policies, alert, policyId);
      if policy.None? || policy.value.levels == [] {
        return None;
      }
      if alert.id in escalationByAlert {
        return Some(activeEscalations[escalationByAlert[alert.id]]);
      }
      var record := Opened(alert.id, policy.value, now);
      escalationByAlert := escalationByAlert[alert.id := |activeEscalations|];
      activeEscalations := activeEscalations + [record];
      activeAlerts := activeAlerts[alert.id := alert];
      return Some(record);
    }

    method AcknowledgeAlert(alertId: string, who: string) returns (r: Option<Record>)
      requires Inv(Abstract())
      modifies this
      ensures Inv(Abstract()) && Abstract() == Step(policies, old(Abstract()), Acknowledge(alertId, who))
      ensures r.Some? <==> alertId in escalationByAlert
      ensures r.Some? ==> Mapped(Abstract(), alertId) && r.value == activeEscalations[escalationByAlert[alertId]]
    {
      StepKeepsInv(policies, Abstract(), Acknowledge(alertId, who));
      if alertId !in escalationByAlert {
        return None;
      }
      var id := escalationByAlert[alertId];
      activeEscalations := activeEscalations[id := Acknowledging(activeEscalations[id], who)];
      return Some(activeEscalations[id]);
    }

    method ResolveAlert(alertId: string) returns (r: Option<Record>)
      requires Inv(Abstract())
      modifies this
      ensures Inv(Abstract()) && Abstract() == Step(policies, old(Abstract()), Resolve(alertId))
      ensures r.Some? <==> alertId in old(escalationByAlert)
      ensures r.Some? ==> r.value.alert == alertId && r.value.status == Resolved && r.value in activeEscalations
    {
      StepKeepsInv(policies, Abstract(), Resolve(alertId));
      if alertId !in escalationByAlert {
        return None;
      }
      var id := escalationByAlert[alertId];
      activeEscalations := activeEscalations[id := Closing(activeEscalations[id])];
      escalationByAlert := escalationByAlert - {alertId};
      activeAlerts := activeAlerts - {alertId};
      return Some(activeEscalations[id]);
    }

    /** The record-by-record loop has the effect of checking all at once. */
    method CheckAll(now: real) returns (escalated: seq<nat>)
      requires Inv(Abstract())
      modifies this
      ensures Inv(Abstract()) && Abstract() == Step(policies, old(Abstract()), CheckTimeouts(now))
      ensures escalated == Upgraded(policies, old(activeEscalations), now)
    {
      hide Inv;
      ghost var before := Abstract();
      StepKeepsInv(policies, before, CheckTimeouts(now));
      escalated := [];
      for i := 0 to |activeEscalations|
        invariant |activeEscalations| == |before.records|
        invariant escalationByAlert == before.byAlert && activeAlerts == before.alerts
        invariant forall j :: 0 <= j < i ==> activeEscalations[j] == PollBy(policies, before.records[j], now)
        invariant forall j :: i <= j < |before.records| ==> activeEscalations[j] == before.records[j]
        invariant escalated == Upgraded(policies, before.records[..i], now)
      {
        var r := activeEscalations[i];
        assert before.records[..i + 1][..i] == before.records[..i];
        var policy := FindPolicy(policies, r.policy);
        if Due(r, now) && policy.Some? {
          activeEscalations := activeEscalations[i := Raise(policy.value.levels, r, now)];
          if CanRaise(policy.value.levels, r) {
            escalated := escalated + [i];
          }
        }
      }
      assert before.records[..|before.records|] == before.records;
      assert activeEscalations == Step(policies, before, CheckTimeouts(now)).records;
    }
  }
}
