/** The alert throttle: per-account, per-rule and total rate limits over sliding
    windows, and the alert-storm latch. */
module ThrottleEngine {
  import opened Options
  import opened Windows

  const HOUR: real := 3600.0
  const MINUTE: real := 60.0
  const STORM_COOLDOWN: real := 300.0

  datatype Config = Config(perAccount: int, perRule: int, perMinute: int, stormThreshold: int)

  /** An accepted alert. */
  datatype Entry = Entry(time: real, account: string, rule: Option<string>)

  datatype Storm = Storm(active: bool, until: real)

  /** The pruned lists, the history they stand for since the last clear, and the
      storm latch. */
  datatype State = State(total: Ledger, accounts: map<string, Ledger>, rules: map<string, Ledger>,
                         log: seq<Entry>, storm: Storm)

  datatype Verdict = Accepted | StormActive | TotalRate | StormTriggered | AccountRate | RuleRate

  datatype Op =
    | Check(account: string, rule: Option<string>, now: real)
    | PollStorm(now: real)
    | ResetStorm
    | Clear

  const CALM := Storm(false, 0.0)
  const INIT := State(NO_ENTRIES, map[], map[], [], CALM)

  // ----- the engine as a machine, under any clock readings -----

  /** An absent or empty rule id is not limited. */
  predicate HasRule(rule: Option<string>) { rule.Some? && rule.value != "" }

  function LedgerOf(m: map<string, Ledger>, key: string): Ledger { if key in m then m[key] else NO_ENTRIES }

  function TotalAt(st: State, now: real): Ledger { Prune(st.total, now - MINUTE) }
  function AccountAt(st: State, account: string, now: real): Ledger {
    Prune(LedgerOf(st.accounts, account), now - HOUR)
  }
  function RuleAt(st: State, rule: string, now: real): Ledger { Prune(LedgerOf(st.rules, rule), now - HOUR) }

  function Decide(cfg: Config, st: State, account: string, rule: Option<string>, now: real): Verdict {
    if st.storm.active && now < st.storm.until then StormActive
    else if |TotalAt(st, now).held| >= cfg.perMinute then TotalRate
    else if |TotalAt(st, now).held| >= cfg.stormThreshold then StormTriggered
    else if |AccountAt(st, account, now).held| >= cfg.perAccount then AccountRate
    else if HasRule(rule) && |RuleAt(st, rule.value, now).held| >= cfg.perRule then RuleRate
    else Accepted
  }

  /** A check prunes the lists it gets to. */
  function AfterCheck(cfg: Config, st: State, account: string, rule: Option<string>, now: real): State {
    match Decide(cfg, st, account, rule, now)
    case StormActive => st
    case TotalRate => st.(total := TotalAt(st, now))
    case StormTriggered => st.(total := TotalAt(st, now), storm := Storm(true, now + STORM_COOLDOWN))
    case AccountRate => st.(total := TotalAt(st, now), accounts := st.accounts[account := AccountAt(st, account, now)])
    case RuleRate =>
      st.(total := TotalAt(st, now), accounts := st.accounts[account := AccountAt(st, account, now)],
          rules := if HasRule(rule) then st.rules[rule.value := RuleAt(st, rule.value, now)] else st.rules)
    case Accepted =>
      State(Push(TotalAt(st, now), now),
            st.accounts[account := Push(AccountAt(st, account, now), now)],
            if HasRule(rule) then st.rules[rule.value := Push(RuleAt(st, rule.value, now), now)] else st.rules,
            st.log + [Entry(now, account, rule)], st.storm)
  }

  function Step(cfg: Config, st: State, op: Op): State {
    match op
    case Check(account, rule, now) => AfterCheck(cfg, st, account, rule, now)
    case PollStorm(now) => st.(storm := st.storm.(active := st.storm.active && now < st.storm.until))
    case ResetStorm => st.(storm := CALM)
    case Clear => INIT
  }

  function Run(cfg: Config, ops: seq<Op>): State {
    if ops == [] then INIT else Step(cfg, Run(cfg, ops[..|ops| - 1]), ops[|ops| - 1])
  }

  // ----- the reference: verdicts recounted from the complete history -----

  function Anyone(): Entry -> bool { (e: Entry) => true }
  function OfAccount(account: string): Entry -> bool { (e: Entry) => e.account == account }
  function OfRule(rule: string): Entry -> bool { (e: Entry) => e.rule == Some(rule) && rule != "" }

  function Stamps(log: seq<Entry>): (ts: seq<real>)
    ensures |ts| == |log|
  {
    seq(|log|, i requires 0 <= i < |log| => log[i].time)
  }

  function Times(log: seq<Entry>, p: Entry -> bool): seq<real> {
    Stamps(Keep(log, p))
  }

  /** How many accepted alerts of a kind lie in the window of length `w` before `now`. */
  function Recent(log: seq<Entry>, p: Entry -> bool, w: real, now: real): nat {
    |Keep(Times(log, p), Later(now - w))|
  }

  function Recount(cfg: Config, st: State, account: string, rule: Option<string>, now: real): Verdict {
    if st.storm.active && now < st.storm.until then StormActive
    else if Recent(st.log, Anyone(), MINUTE, now) >= cfg.perMinute then TotalRate
    else if Recent(st.log, Anyone(), MINUTE, now) >= cfg.stormThreshold then StormTriggered
    else if Recent(st.log, OfAccount(account), HOUR, now) >= cfg.perAccount then AccountRate
    else if HasRule(rule) && Recent(st.log, OfRule(rule.value), HOUR, now) >= cfg.perRule then RuleRate
    else Accepted
  }

  // ----- what the lists hold -----

  /** Each list, with what was pruned from it, is its part of the history. */
  ghost predicate Covered(st: State) {
    && Covers(st.total, Times(st.log, Anyone()))
    && (forall a :: Covers(LedgerOf(st.accounts, a), Times(st.log, OfAccount(a))))
    && (forall r :: r != "" ==> Covers(LedgerOf(st.rules, r), Times(st.log, OfRule(r))))
  }

  lemma TimesAppend(log: seq<Entry>, e: Entry, p: Entry -> bool)
    ensures Times(log + [e], p) == Times(log, p) + (if p(e) then [e.time] else [])
  {
    KeepAppend(log, e, p);
  }

  lemma CoversGrow(l: Ledger, log: seq<Entry>, e: Entry, p: Entry -> bool)
    requires Covers(l, Times(log, p))
    ensures Covers(if p(e) then Push(l, e.time) else l, Times(log + [e], p))
  {
    hide Covers, Keep;
    TimesAppend(log, e, p);
    if p(e) {
      CoversPush(l, Times(log, p), e.time);
    } else {
      assert Times(log, p) + [] == Times(log, p);
    }
  }

  lemma PruningCovers(st: State, account: string, rule: string, now: real)
    requires Covered(st)
    ensures Covers(TotalAt(st, now), Times(st.log, Anyone()))
    ensures Covers(AccountAt(st, account, now), Times(st.log, OfAccount(account)))
    ensures rule != "" ==> Covers(RuleAt(st, rule, now), Times(st.log, OfRule(rule)))
  {
    hide Covers, Times;
    CoversPrune(st.total, Times(st.log, Anyone()), now - MINUTE);
    CoversPrune(LedgerOf(st.accounts, account), Times(st.log, OfAccount(account)), now - HOUR);
    if rule != "" {
      CoversPrune(LedgerOf(st.rules, rule), Times(st.log, OfRule(rule)), now - HOUR);
    }
  }

  lemma AcceptedCovers(st: State, account: string, rule: Option<string>, now: real)
    requires Covered(st)
    ensures var e := Entry(now, account, rule);
            Covered(State(Push(TotalAt(st, now), now),
                          st.accounts[account := Push(AccountAt(st, account, now), now)],
                          if HasRule(rule) then st.rules[rule.value := Push(RuleAt(st, rule.value, now), now)]
                          else st.rules,
                          st.log + [e], st.storm))
  {
    hide Covers, Times, Prune, Push;
    var e := Entry(now, account, rule);
    PruningCovers(st, account, if HasRule(rule) then rule.value else "", now);
    CoversGrow(TotalAt(st, now), st.log, e, Anyone());
    forall a
      ensures Covers(if a == account then Push(AccountAt(st, a, now), now) else LedgerOf(st.accounts, a),
                     Times(st.log + [e], OfAccount(a)))
    {
      CoversGrow(if a == account then AccountAt(st, a, now) else LedgerOf(st.accounts, a), st.log, e, OfAccount(a));
    }
    forall r | r != ""
      ensures Covers(if rule == Some(r) then Push(RuleAt(st, r, now), now) else LedgerOf(st.rules, r),
                     Times(st.log + [e], OfRule(r)))
    {
      CoversGrow(if rule == Some(r) then RuleAt(st, r, now) else LedgerOf(st.rules, r), st.log, e, OfRule(r));
    }
  }

  lemma StepCovered(cfg: Config, st: State, op: Op)
    requires Covered(st)
    ensures Covered(Step(cfg, st, op))
  {
    hide Covers, Times, Decide, TotalAt, AccountAt, RuleAt;
    match op {
      case Check(account, rule, now) =>
        PruningCovers(st, account, if HasRule(rule) then rule.value else "", now);
        AcceptedCovers(st, account, rule, now);
      case PollStorm(_) =>
      case ResetStorm =>
      case Clear =>
        InitCovered();
    }
  }

  lemma InitCovered()
    ensures Covered(INIT)
  {
  }

  lemma {:induction false} RunCovered(cfg: Config, ops: seq<Op>)
    ensures Covered(Run(cfg, ops))
  {
    hide Covered, Step;
    if ops == [] {
      InitCovered();
    } else {
      RunCovered(cfg, ops[..|ops| - 1]);
      StepCovered(cfg, Run(cfg, ops[..|ops| - 1]), ops[|ops| - 1]);
    }
  }

  /** In every run and at every reading, each pruned list counts as a recount of
      the whole history does if and only if nothing pruned from it is still
      inside its window. */
  lemma CountsAreExactIff(cfg: Config, ops: seq<Op>, account: string, rule: string, now: real)
    requires rule != ""
    ensures var st := Run(cfg, ops);
            && (|TotalAt(st, now).held| == Recent(st.log, Anyone(), MINUTE, now) <==> NoneGone(st.total, now - MINUTE))
            && (|AccountAt(st, account, now).held| == Recent(st.log, OfAccount(account), HOUR, now)
                <==> NoneGone(LedgerOf(st.accounts, account), now - HOUR))
            && (|RuleAt(st, rule, now).held| == Recent(st.log, OfRule(rule), HOUR, now)
                <==> NoneGone(LedgerOf(st.rules, rule), now - HOUR))
  {
    hide Run, Covers, Times, Prune, NoneGone, Keep;
    var st := Run(cfg, ops);
    RunCovered(cfg, ops);
    CountIff(st.total, Times(st.log, Anyone()), now - MINUTE);
    CountIff(LedgerOf(st.accounts, account), Times(st.log, OfAccount(account)), now - HOUR);
    CountIff(LedgerOf(st.rules, rule), Times(st.log, OfRule(rule)), now - HOUR);
  }

  /** Nothing pruned is inside a window that the check looks at. */
  predicate Intact(st: State, account: string, rule: Option<string>, now: real) {
    && NoneGone(st.total, now - MINUTE)
    && NoneGone(LedgerOf(st.accounts, account), now - HOUR)
    && (HasRule(rule) ==> NoneGone(LedgerOf(st.rules, rule.value), now - HOUR))
  }

  lemma IntactDecides(cfg: Config, st: State, account: string, rule: Option<string>, now: real)
    requires Covered(st) && Intact(st, account, rule, now)
    ensures Decide(cfg, st, account, rule, now) == Recount(cfg, st, account, rule, now)
  {
    hide Covers, Times, Prune, NoneGone, Keep;
    CountIff(st.total, Times(st.log, Anyone()), now - MINUTE);
    CountIff(LedgerOf(st.accounts, account), Times(st.log, OfAccount(account)), now - HOUR);
    if HasRule(rule) {
      CountIff(LedgerOf(st.rules, rule.value), Times(st.log, OfRule(rule.value)), now - HOUR);
    }
  }

  // ----- readings that do not run backwards -----

  predicate Ordered(ops: seq<Op>) {
    forall i, j :: 0 <= i < j < |ops| && ops[i].Check? && ops[j].Check? ==> ops[i].now <= ops[j].now
  }

  /** Nothing pruned is inside a window that ends at `clock` or later. */
  ghost predicate Settled(st: State, clock: real) {
    && NoneGone(st.total, clock - MINUTE)
    && (forall a :: NoneGone(LedgerOf(st.accounts, a), clock - HOUR))
    && (forall r :: NoneGone(LedgerOf(st.rules, r), clock - HOUR))
  }

  lemma SettledLater(st: State, clock: real, now: real)
    requires Settled(st, clock) && clock <= now
    ensures Settled(st, now)
  {
  }

  lemma CheckSettled(cfg: Config, st: State, account: string, rule: Option<string>, now: real)
    requires Settled(st, now)
    ensures Settled(AfterCheck(cfg, st, account, rule, now), now)
  {
    hide Prune, Push, Decide, NoneGone;
    PruneLoses(st.total, now - MINUTE, now - MINUTE);
    PushLoses(TotalAt(st, now), now, now - MINUTE);
    PruneLoses(LedgerOf(st.accounts, account), now - HOUR, now - HOUR);
    PushLoses(AccountAt(st, account, now), now, now - HOUR);
    if HasRule(rule) {
      PruneLoses(LedgerOf(st.rules, rule.value), now - HOUR, now - HOUR);
      PushLoses(RuleAt(st, rule.value, now), now, now - HOUR);
    }
    var after := AfterCheck(cfg, st, account, rule, now);
    forall a
      ensures NoneGone(LedgerOf(after.accounts, a), now - HOUR)
    {
      assert NoneGone(LedgerOf(st.accounts, a), now - HOUR);
    }
    forall r
      ensures NoneGone(LedgerOf(after.rules, r), now - HOUR)
    {
      assert NoneGone(LedgerOf(st.rules, r), now - HOUR);
    }
  }

  lemma {:induction false} RunSettled(cfg: Config, ops: seq<Op>, now: real)
    requires Ordered(ops) && forall i :: 0 <= i < |ops| && ops[i].Check? ==> ops[i].now <= now
    ensures Settled(Run(cfg, ops), now)
  {
    hide Settled, AfterCheck;
    if ops == [] {
      InitSettled(now);
    } else {
      var init, op := ops[..|ops| - 1], ops[|ops| - 1];
      var upto := if op.Check? then op.now else now;
      RunSettled(cfg, init, upto);
      StepSettled(cfg, Run(cfg, init), op, upto);
      SettledLater(Run(cfg, ops), upto, now);
    }
  }

  lemma InitSettled(now: real)
    ensures Settled(INIT, now)
  {
  }

  lemma StepSettled(cfg: Config, st: State, op: Op, now: real)
    requires Settled(st, now) && (op.Check? ==> op.now == now)
    ensures Settled(Step(cfg, st, op), now)
  {
    hide AfterCheck;
    match op {
      case Check(account, rule, _) => CheckSettled(cfg, st, account, rule, now);
      case PollStorm(_) =>
      case ResetStorm =>
      case Clear => InitSettled(now);
    }
  }

  lemma SettledDecides(cfg: Config, st: State, account: string, rule: Option<string>, clock: real, now: real)
    requires Covered(st) && Settled(st, clock) && clock <= now
    ensures Intact(st, account, rule, now)
    ensures Decide(cfg, st, account, rule, now) == Recount(cfg, st, account, rule, now)
  {
    hide Covered, Decide, Recount;
    SettledLater(st, clock, now);
    IntactDecides(cfg, st, account, rule, now);
  }

  /** While the readings do not run backwards, the pruned lists decide as a
      recount of the whole history would. */
  lemma VerdictIsRecount(cfg: Config, ops: seq<Op>, account: string, rule: Option<string>, now: real)
    requires Ordered(ops) && forall i :: 0 <= i < |ops| && ops[i].Check? ==> ops[i].now <= now
    ensures Intact(Run(cfg, ops), account, rule, now)
    ensures Decide(cfg, Run(cfg, ops), account, rule, now) == Recount(cfg, Run(cfg, ops), account, rule, now)
  {
    hide Run, Decide, Recount, Settled, Intact;
    RunCovered(cfg, ops);
    RunSettled(cfg, ops, now);
    SettledDecides(cfg, Run(cfg, ops), account, rule, now, now);
  }

  // ----- rate caps -----

  lemma MeteredStep(log: seq<Entry>, e: Entry, p: Entry -> bool, w: real, cap: int)
    requires Metered(Times(log, p), w, cap)
    requires p(e) ==> Recent(log, p, w, e.time) < cap
    ensures Metered(Times(log + [e], p), w, cap)
  {
    TimesAppend(log, e, p);
    if p(e) {
      MeteredAppend(Times(log, p), e.time, w, cap);
    } else {
      assert Times(log, p) + [] == Times(log, p);
    }
  }

  ghost predicate AllMetered(cfg: Config, log: seq<Entry>, account: string, rule: string) {
    && Metered(Times(log, Anyone()), MINUTE, cfg.perMinute)
    && Metered(Times(log, Anyone()), MINUTE, cfg.stormThreshold)
    && Metered(Times(log, OfAccount(account)), HOUR, cfg.perAccount)
    && Metered(Times(log, OfRule(rule)), HOUR, cfg.perRule)
  }

  lemma AcceptMetered(cfg: Config, st: State, prior: seq<Entry>, made: seq<Entry>, op: Op, account: string,
                      rule: string)
    requires Covered(st) && op.Check? && Intact(st, op.account, op.rule, op.now) && st.log == prior + made
    requires AllMetered(cfg, made, account, rule)
    requires Decide(cfg, st, op.account, op.rule, op.now).Accepted?
    ensures AllMetered(cfg, made + [Entry(op.now, op.account, op.rule)], account, rule)
  {
    hide Metered, Recent, Covered, Intact, Decide;
    IntactDecides(cfg, st, op.account, op.rule, op.now);
    var e := Entry(op.now, op.account, op.rule);
    RecentOfPart(prior, made, Anyone(), MINUTE, op.now);
    RecentOfPart(prior, made, OfAccount(account), HOUR, op.now);
    RecentOfPart(prior, made, OfRule(rule), HOUR, op.now);
    MeteredStep(made, e, Anyone(), MINUTE, cfg.perMinute);
    MeteredStep(made, e, Anyone(), MINUTE, cfg.stormThreshold);
    MeteredStep(made, e, OfAccount(account), HOUR, cfg.perAccount);
    MeteredStep(made, e, OfRule(rule), HOUR, cfg.perRule);
  }

  lemma RecentOfPart(prior: seq<Entry>, made: seq<Entry>, p: Entry -> bool, w: real, now: real)
    ensures Recent(made, p, w, now) <= Recent(prior + made, p, w, now)
  {
    hide Keep;
    TimesConcat(prior, made, p);
    KeepConcat(Times(prior, p), Times(made, p), Later(now - w));
  }

  lemma EmptyMetered(cfg: Config, account: string, rule: string)
    ensures AllMetered(cfg, [], account, rule)
  {
  }

  /** How many of the entries lie in the window of length `w` that ends at `t`. */
  function Load(log: seq<Entry>, p: Entry -> bool, w: real, t: real): nat {
    |Keep(Times(log, p), Within(t - w, t))|
  }

  ghost predicate Capped(log: seq<Entry>, p: Entry -> bool, w: real, cap: int, t: real) {
    var n := Load(log, p, w, t);
    n == 0 || n <= cap
  }

  lemma MeteredIsCapped(cfg: Config, log: seq<Entry>, account: string, rule: string, t: real)
    requires AllMetered(cfg, log, account, rule)
    ensures Capped(log, Anyone(), MINUTE, cfg.perMinute, t)
    ensures Capped(log, Anyone(), MINUTE, cfg.stormThreshold, t)
    ensures Capped(log, OfAccount(account), HOUR, cfg.perAccount, t)
    ensures Capped(log, OfRule(rule), HOUR, cfg.perRule, t)
  {
    hide Metered;
    MeteredCaps(Times(log, Anyone()), MINUTE, cfg.perMinute, t);
    MeteredCaps(Times(log, Anyone()), MINUTE, cfg.stormThreshold, t);
    MeteredCaps(Times(log, OfAccount(account)), HOUR, cfg.perAccount, t);
    MeteredCaps(Times(log, OfRule(rule)), HOUR, cfg.perRule, t);
  }

  /** The alerts that `ops` accepts after `before`, whatever is cleared later. */
  function Admitted(cfg: Config, before: seq<Op>, ops: seq<Op>): seq<Entry> {
    if ops == [] then []
    else
      var init, op := ops[..|ops| - 1], ops[|ops| - 1];
      Admitted(cfg, before, init) + Accepts(cfg, Run(cfg, before + init), op)
  }

  function Accepts(cfg: Config, st: State, op: Op): seq<Entry> {
    if op.Check? && Decide(cfg, st, op.account, op.rule, op.now).Accepted? then [Entry(op.now, op.account, op.rule)]
    else []
  }

  lemma AdmittedStep(cfg: Config, before: seq<Op>, ops: seq<Op>, op: Op)
    ensures Admitted(cfg, before, ops + [op]) == Admitted(cfg, before, ops) + Accepts(cfg, Run(cfg, before + ops), op)
    ensures Clears(ops + [op]) == Clears(ops) + (if op.Clear? then 1 else 0)
  {
    hide Accepts, Run;
    assert (ops + [op])[..|ops + [op]| - 1] == ops;
  }

  function Clears(ops: seq<Op>): nat {
    if ops == [] then 0 else Clears(ops[..|ops| - 1]) + (if ops[|ops| - 1].Clear? then 1 else 0)
  }

  /** Until the next clear the log grows by exactly what is accepted. */
  lemma {:induction false} LogGrows(cfg: Config, before: seq<Op>, ops: seq<Op>)
    requires Clears(ops) == 0
    ensures Run(cfg, before + ops).log == Run(cfg, before).log + Admitted(cfg, before, ops)
  {
    hide Step, Accepts;
    if ops == [] {
      assert before + ops == before;
    } else {
      var init, op := ops[..|ops| - 1], ops[|ops| - 1];
      LogGrows(cfg, before, init);
      assert (before + ops)[..|before + ops| - 1] == before + init;
      StepLog(cfg, Run(cfg, before + init), op);
      SeqAssociates(Run(cfg, before).log, Admitted(cfg, before, init), Accepts(cfg, Run(cfg, before + init), op));
    }
  }

  lemma SeqAssociates<X>(a: seq<X>, b: seq<X>, c: seq<X>)
    ensures (a + b) + c == a + (b + c)
  {
  }

  lemma StepLog(cfg: Config, st: State, op: Op)
    requires !op.Clear?
    ensures Step(cfg, st, op).log == st.log + Accepts(cfg, st, op)
  {
    hide Decide;
  }

  lemma {:induction false} AdmittedConcat(cfg: Config, before: seq<Op>, a: seq<Op>, b: seq<Op>)
    ensures Admitted(cfg, before, a + b) == Admitted(cfg, before, a) + Admitted(cfg, before + a, b)
    ensures Clears(a + b) == Clears(a) + Clears(b)
  {
    hide Accepts, Run;
    if b == [] {
      assert a + b == a;
    } else {
      var init, op := b[..|b| - 1], b[|b| - 1];
      AdmittedConcat(cfg, before, a, init);
      assert a + b == (a + init) + [op];
      AdmittedStep(cfg, before, a + init, op);
      assert (before + a) + init == before + (a + init);
    }
  }

  lemma {:induction false} TimesConcat(a: seq<Entry>, b: seq<Entry>, p: Entry -> bool)
    ensures Times(a + b, p) == Times(a, p) + Times(b, p)
  {
    KeepConcat(a, b, p);
  }

  lemma LoadConcat(a: seq<Entry>, b: seq<Entry>, p: Entry -> bool, w: real, t: real)
    ensures Load(a + b, p, w, t) == Load(a, p, w, t) + Load(b, p, w, t)
  {
    hide Keep;
    TimesConcat(a, b, p);
    KeepConcat(Times(a, p), Times(b, p), Within(t - w, t));
  }

  ghost predicate AllCapped(cfg: Config, log: seq<Entry>, account: string, rule: string, t: real) {
    && Capped(log, Anyone(), MINUTE, cfg.perMinute, t)
    && Capped(log, Anyone(), MINUTE, cfg.stormThreshold, t)
    && Capped(log, OfAccount(account), HOUR, cfg.perAccount, t)
    && Capped(log, OfRule(rule), HOUR, cfg.perRule, t)
  }

  /** No check of `ops`, after `before`, finds something pruned inside a window. */
  ghost predicate Unbroken(cfg: Config, before: seq<Op>, ops: seq<Op>) {
    forall i :: 0 <= i < |ops| && ops[i].Check? ==>
      Intact(Run(cfg, before + ops[..i]), ops[i].account, ops[i].rule, ops[i].now)
  }

  lemma UnbrokenPrefix(cfg: Config, before: seq<Op>, ops: seq<Op>, n: nat)
    requires n <= |ops| && Unbroken(cfg, before, ops)
    ensures Unbroken(cfg, before, ops[..n]) && Unbroken(cfg, before + ops[..n], ops[n..])
  {
    hide Intact, Run;
    var a, b := ops[..n], ops[n..];
    forall i | 0 <= i < |a| && a[i].Check?
      ensures Intact(Run(cfg, before + a[..i]), a[i].account, a[i].rule, a[i].now)
    {
      assert a[..i] == ops[..i] && a[i] == ops[i];
    }
    forall i | 0 <= i < |b| && b[i].Check?
      ensures Intact(Run(cfg, before + a + b[..i]), b[i].account, b[i].rule, b[i].now)
    {
      assert before + a + b[..i] == before + ops[..n + i] && b[i] == ops[n + i];
    }
  }

  /** Readings that do not run backwards never do. */
  lemma OrderedIsUnbroken(cfg: Config, before: seq<Op>, ops: seq<Op>)
    requires Ordered(before + ops)
    ensures Unbroken(cfg, before, ops)
  {
    hide Intact, Run;
    var all := before + ops;
    forall i | 0 <= i < |ops| && ops[i].Check?
      ensures Intact(Run(cfg, before + ops[..i]), ops[i].account, ops[i].rule, ops[i].now)
    {
      var earlier := before + ops[..i];
      assert all[|before| + i] == ops[i];
      assert earlier == all[..|before| + i];
      VerdictIsRecount(cfg, earlier, ops[i].account, ops[i].rule, ops[i].now);
    }
  }

  lemma {:induction false} AdmittedMetered(cfg: Config, before: seq<Op>, ops: seq<Op>, account: string, rule: string)
    requires Clears(ops) == 0 && Unbroken(cfg, before, ops)
    ensures AllMetered(cfg, Admitted(cfg, before, ops), account, rule)
  {
    hide AllMetered, Run, Intact, Decide, Covered;
    if ops == [] {
      EmptyMetered(cfg, account, rule);
    } else {
      var init, op := ops[..|ops| - 1], ops[|ops| - 1];
      var st, made := Run(cfg, before + init), Admitted(cfg, before, init);
      UnbrokenPrefix(cfg, before, ops, |init|);
      AdmittedMetered(cfg, before, init, account, rule);
      LogGrows(cfg, before, init);
      RunCovered(cfg, before + init);
      if Accepts(cfg, st, op) == [] {
        assert made + [] == made;
      } else {
        assert Intact(Run(cfg, before + ops[..|init|]), ops[|init|].account, ops[|init|].rule, ops[|init|].now);
        AcceptMetered(cfg, st, Run(cfg, before).log, made, op, account, rule);
      }
    }
  }

  /** After any run whatever, as long as nothing is cleared and no check finds
      something pruned inside its windows, in every window: at most `perMinute`
      alerts (and at most `stormThreshold`) in 60 s, at most `perAccount` of one
      account and `perRule` of one rule in 3600 s. */
  lemma EveryWindowCapped(cfg: Config, before: seq<Op>, ops: seq<Op>, account: string, rule: string, t: real)
    requires Clears(ops) == 0 && Unbroken(cfg, before, ops)
    ensures AllCapped(cfg, Admitted(cfg, before, ops), account, rule, t)
  {
    hide AllMetered, Admitted, Capped, Clears, Unbroken;
    AdmittedMetered(cfg, before, ops, account, rule);
    MeteredIsCapped(cfg, Admitted(cfg, before, ops), account, rule, t);
  }

  /** Each clear can let through as much again, and no more. */
  ghost predicate WithinShare(log: seq<Entry>, p: Entry -> bool, w: real, cap: int, t: real, clears: nat) {
    Load(log, p, w, t) <= (1 + clears) * (if cap > 0 then cap else 0)
  }

  lemma ShareAdds(a: seq<Entry>, b: seq<Entry>, p: Entry -> bool, w: real, cap: int, t: real, clears: nat)
    requires WithinShare(a, p, w, cap, t, clears) && Capped(b, p, w, cap, t)
    ensures WithinShare(a + b, p, w, cap, t, clears + 1)
  {
    hide Times, Keep;
    LoadConcat(a, b, p, w, t);
    var m := if cap > 0 then cap else 0;
    assert (1 + (clears + 1)) * m == (1 + clears) * m + m;
  }

  ghost predicate AllShared(cfg: Config, log: seq<Entry>, account: string, rule: string, t: real, clears: nat) {
    && WithinShare(log, Anyone(), MINUTE, cfg.perMinute, t, clears)
    && WithinShare(log, Anyone(), MINUTE, cfg.stormThreshold, t, clears)
    && WithinShare(log, OfAccount(account), HOUR, cfg.perAccount, t, clears)
    && WithinShare(log, OfRule(rule), HOUR, cfg.perRule, t, clears)
  }

  lemma OneShare(cfg: Config, log: seq<Entry>, account: string, rule: string, t: real)
    requires AllCapped(cfg, log, account, rule, t)
    ensures AllShared(cfg, log, account, rule, t, 0)
  {
    hide Times, Keep;
  }

  lemma OneMoreShare(cfg: Config, a: seq<Entry>, b: seq<Entry>, account: string, rule: string, t: real, clears: nat)
    requires AllShared(cfg, a, account, rule, t, clears) && AllCapped(cfg, b, account, rule, t)
    ensures AllShared(cfg, a + b, account, rule, t, clears + 1)
  {
    hide WithinShare, Capped;
    ShareAdds(a, b, Anyone(), MINUTE, cfg.perMinute, t, clears);
    ShareAdds(a, b, Anyone(), MINUTE, cfg.stormThreshold, t, clears);
    ShareAdds(a, b, OfAccount(account), HOUR, cfg.perAccount, t, clears);
    ShareAdds(a, b, OfRule(rule), HOUR, cfg.perRule, t, clears);
  }

  /** The position of the last clear. */
  lemma {:induction false} LastClear(ops: seq<Op>) returns (i: nat)
    requires Clears(ops) > 0
    ensures i < |ops| && ops[i].Clear? && Clears(ops[i + 1..]) == 0
  {
    if ops[|ops| - 1].Clear? {
      i := |ops| - 1;
    } else {
      var init := ops[..|ops| - 1];
      i := LastClear(init);
      assert ops[i + 1..][..|ops[i + 1..]| - 1] == init[i + 1..];
    }
  }

  /** Over every such run, counting all that it accepts: no window holds more than
      its cap once for each clear and once more. */
  lemma {:induction false} ClearsMultiplyCaps(cfg: Config, before: seq<Op>, ops: seq<Op>,
                                              account: string, rule: string, t: real)
    requires Unbroken(cfg, before, ops)
    ensures AllShared(cfg, Admitted(cfg, before, ops), account, rule, t, Clears(ops))
    decreases |ops|
  {
    hide AllShared, AllCapped, Run, Admitted, Clears, Unbroken;
    if Clears(ops) == 0 {
      EveryWindowCapped(cfg, before, ops, account, rule, t);
      OneShare(cfg, Admitted(cfg, before, ops), account, rule, t);
    } else {
      var i := LastClear(ops);
      var a, b := ops[..i], ops[i + 1..];
      UnbrokenPrefix(cfg, before, ops, i);
      UnbrokenPrefix(cfg, before, ops, i + 1);
      assert ops[..i + 1] == a + [Clear];
      ClearsMultiplyCaps(cfg, before, a, account, rule, t);
      AdmittedStep(cfg, before, a, Clear);
      assert Admitted(cfg, before, a) + [] == Admitted(cfg, before, a);
      EveryWindowCapped(cfg, before + (a + [Clear]), b, account, rule, t);
      assert ops == (a + [Clear]) + b;
      AdmittedConcat(cfg, before, a + [Clear], b);
      OneMoreShare(cfg, Admitted(cfg, before, a), Admitted(cfg, before + (a + [Clear]), b),
                   account, rule, t, Clears(a));
    }
  }

  /** A clear does let through as much again, at the same instant. */
  lemma ClearForgets(cfg: Config, account: string, now: real)
    requires cfg.perMinute == 1 && cfg.stormThreshold >= 1 && cfg.perAccount >= 1
    ensures var check := Check(account, None, now);
            var admitted := Admitted(cfg, [], [check, Clear, check]);
            |admitted| == 2 && Load(admitted, Anyone(), MINUTE, now) == 2
  {
    hide Load, Run, Decide, Admitted;
    var check, e := Check(account, None, now), Entry(now, account, None);
    FirstAccepted(cfg, [], account, now);
    FirstAccepted(cfg, [check, Clear], account, now);
    AdmittedNothing(cfg);
    AdmittedStep(cfg, [], [], check);
    AdmittedStep(cfg, [], [check], Clear);
    AdmittedStep(cfg, [], [check, Clear], check);
    var none: seq<Op> := [];
    assert none + none == none && none + [check] == [check] && none + [check, Clear] == [check, Clear];
    assert [check] + [Clear] == [check, Clear] && [check, Clear] + [check] == [check, Clear, check];
    var admitted := Admitted(cfg, [], [check, Clear, check]);
    assert admitted == [e, e];
    LoadOfTwo(e);
  }

  lemma LoadOfTwo(e: Entry)
    ensures Load([e, e], Anyone(), MINUTE, e.time) == 2
  {
    hide Keep;
    KeepAll([e, e], Anyone());
    KeepAll(Times([e, e], Anyone()), Within(e.time - MINUTE, e.time));
  }

  lemma AdmittedNothing(cfg: Config)
    ensures Admitted(cfg, [], []) == []
  {
  }

  lemma FirstAccepted(cfg: Config, ops: seq<Op>, account: string, now: real)
    requires cfg.perMinute >= 1 && cfg.stormThreshold >= 1 && cfg.perAccount >= 1
    requires ops == [] || ops[|ops| - 1].Clear?
    ensures Decide(cfg, Run(cfg, ops), account, None, now).Accepted?
  {
  }

  /** In particular over every run whose readings do not run backwards. */
  lemma OrderedRunsAreCapped(cfg: Config, ops: seq<Op>, account: string, rule: string, t: real)
    requires Ordered(ops)
    ensures AllShared(cfg, Admitted(cfg, [], ops), account, rule, t, Clears(ops))
    ensures Clears(ops) == 0 ==> AllCapped(cfg, Admitted(cfg, [], ops), account, rule, t)
  {
    hide AllShared, AllCapped, Run, Admitted, Clears, Unbroken;
    assert [] + ops == ops;
    OrderedIsUnbroken(cfg, [], ops);
    ClearsMultiplyCaps(cfg, [], ops, account, rule, t);
    if Clears(ops) == 0 {
      EveryWindowCapped(cfg, [], ops, account, rule, t);
    }
  }

  /** A reading that runs backwards can break a cap: two alerts pruned at 60 are
      inside the window that ends at 59. */
  lemma BackwardsReadingAdmits(cfg: Config, account: string)
    requires cfg.perMinute == 2 && cfg.stormThreshold >= 2 && cfg.perAccount >= 4
    ensures var at := (now: real) => Check(account, None, now);
            var admitted := Admitted(cfg, [], [at(0.0), at(0.0), at(60.0), at(59.0)]);
            |admitted| == 4 && Load(admitted, Anyone(), MINUTE, 59.0) == 3
  {
    hide Decide, Admitted, Run, Load, Keep, Holds;
    var a, b, c := Check(account, None, 0.0), Check(account, None, 60.0), Check(account, None, 59.0);
    var x, y, z := Entry(0.0, account, None), Entry(60.0, account, None), Entry(59.0, account, None);
    AdmittedNothing(cfg);
    NothingHeld(cfg, account);
    assert [] + [a] == [a] && [a] + [a] == [a, a] && [a, a] + [b] == [a, a, b] && [a, a, b] + [c] == [a, a, b, c];
    KeepAll([], Later(-60.0));
    AcceptedOne(cfg, [], account, 0.0, [], [], []);
    assert [] + [0.0] == [0.0];
    KeepAll([0.0], Later(-60.0));
    AcceptedOne(cfg, [a], account, 0.0, [0.0], [0.0], [0.0]);
    assert [0.0] + [0.0] == [0.0, 0.0];
    KeepNone([0.0, 0.0], Later(0.0));
    AcceptedOne(cfg, [a, a], account, 60.0, [0.0, 0.0], [], [0.0, 0.0]);
    assert [] + [60.0] == [60.0] && [0.0, 0.0] + [60.0] == [0.0, 0.0, 60.0];
    KeepAll([60.0], Later(-1.0));
    AcceptedOne(cfg, [a, a, b], account, 59.0, [60.0], [60.0], [0.0, 0.0, 60.0]);
    assert Admitted(cfg, [], [a, a, b, c]) == [x, x, y, z];
    LoadOfBackwards(x, y, z);
  }

  /** What the lists hold for an account after a run. */
  predicate Holds(cfg: Config, ops: seq<Op>, account: string, held: seq<real>, own: seq<real>) {
    var st := Run(cfg, ops);
    !st.storm.active && st.total.held == held && LedgerOf(st.accounts, account).held == own
  }

  lemma NothingHeld(cfg: Config, account: string)
    ensures Holds(cfg, [], account, [], [])
  {
  }

  /** One more check of an account that still has room everywhere. */
  lemma AcceptedOne(cfg: Config, ops: seq<Op>, account: string, now: real, held: seq<real>, kept: seq<real>,
                    own: seq<real>)
    requires Holds(cfg, ops, account, held, own) && kept == Keep(held, Later(now - MINUTE))
    requires cfg.perMinute > |kept| && cfg.stormThreshold > |kept| && cfg.perAccount > |own|
    requires forall t :: t in own ==> t > now - HOUR
    ensures var check := Check(account, None, now);
            && Holds(cfg, ops + [check], account, kept + [now], own + [now])
            && Admitted(cfg, [], ops + [check]) == Admitted(cfg, [], ops) + [Entry(now, account, None)]
  {
    hide Keep, Admitted;
    var check := Check(account, None, now);
    KeepAll(own, Later(now - HOUR));
    assert (ops + [check])[..|ops + [check]| - 1] == ops && [] + ops == ops;
    AdmittedStep(cfg, [], ops, check);
  }

  lemma LoadOfBackwards(x: Entry, y: Entry, z: Entry)
    requires x.time == 0.0 && y.time == 60.0 && z.time == 59.0
    ensures Load([x, x, y, z], Anyone(), MINUTE, 59.0) == 3
  {
    hide Keep;
    KeepAll([x, x, y, z], Anyone());
    var ts := Times([x, x, y, z], Anyone());
    assert ts == [0.0, 0.0] + [60.0] + [59.0];
    KeepConcat([0.0, 0.0] + [60.0], [59.0], Within(-1.0, 59.0));
    KeepConcat([0.0, 0.0], [60.0], Within(-1.0, 59.0));
    KeepAll([0.0, 0.0], Within(-1.0, 59.0));
    KeepNone([60.0], Within(-1.0, 59.0));
    KeepAll([59.0], Within(-1.0, 59.0));
  }

  // ----- the limits in seconds -----

  lemma {:induction false} RecentCounts(log: seq<Entry>, p: Entry -> bool, w: real, now: real, q: Entry -> bool)
    requires forall e :: q(e) <==> p(e) && e.time > now - w
    ensures Recent(log, p, w, now) == |Keep(log, q)|
  {
    if log == [] {
      assert Times(log, p) == [];
    } else {
      var init, e := log[..|log| - 1], log[|log| - 1];
      assert log == init + [e];
      RecentCounts(init, p, w, now, q);
      TimesAppend(init, e, p);
      if p(e) {
        KeepAppend(Times(init, p), e.time, Later(now - w));
      } else {
        assert Times(init, p) + [] == Times(init, p);
      }
    }
  }

  lemma {:induction false} LoadCounts(log: seq<Entry>, p: Entry -> bool, w: real, t: real, q: Entry -> bool)
    requires forall e :: q(e) <==> p(e) && t - w < e.time <= t
    ensures Load(log, p, w, t) == |Keep(log, q)|
  {
    if log == [] {
      assert Times(log, p) == [];
    } else {
      var init, e := log[..|log| - 1], log[|log| - 1];
      assert log == init + [e];
      LoadCounts(init, p, w, t, q);
      TimesAppend(init, e, p);
      if p(e) {
        KeepAppend(Times(init, p), e.time, Within(t - w, t));
      } else {
        assert Times(init, p) + [] == Times(init, p);
      }
    }
  }

  /** While the readings do not run backwards: a check is refused for the storm,
      then for too many accepted alerts of the last 60 s, of the account in the
      last 3600 s, and of a named rule in the last 3600 s, and accepted
      otherwise. */
  lemma VerdictMeans(cfg: Config, ops: seq<Op>, account: string, rule: Option<string>, now: real)
    requires Ordered(ops) && forall i :: 0 <= i < |ops| && ops[i].Check? ==> ops[i].now <= now
    ensures var st := Run(cfg, ops);
            var recent := |Keep(st.log, (e: Entry) => e.time > now - 60.0)|;
            var own := |Keep(st.log, (e: Entry) => e.account == account && e.time > now - 3600.0)|;
            var ofRule := |Keep(st.log, (e: Entry) => e.rule == rule && e.time > now - 3600.0)|;
            Decide(cfg, st, account, rule, now) ==
            if st.storm.active && now < st.storm.until then StormActive
            else if recent >= cfg.perMinute then TotalRate
            else if recent >= cfg.stormThreshold then StormTriggered
            else if own >= cfg.perAccount then AccountRate
            else if rule.Some? && rule.value != "" && ofRule >= cfg.perRule then RuleRate
            else Accepted
  {
    hide Run, Decide, Recent, Keep;
    var log := Run(cfg, ops).log;
    VerdictIsRecount(cfg, ops, account, rule, now);
    RecentCounts(log, Anyone(), MINUTE, now, (e: Entry) => e.time > now - 60.0);
    RecentCounts(log, OfAccount(account), HOUR, now, (e: Entry) => e.account == account && e.time > now - 3600.0);
    if HasRule(rule) {
      RecentCounts(log, OfRule(rule.value), HOUR, now, (e: Entry) => e.rule == rule && e.time > now - 3600.0);
    }
  }

  /** In every clear-free stretch of a run whose readings do not run backwards, of
      the alerts accepted: at most `perMinute` and `stormThreshold` in any 60 s,
      `perAccount` of an account and `perRule` of a rule in any 3600 s. */
  lemma CapsInSeconds(cfg: Config, before: seq<Op>, ops: seq<Op>, account: string, rule: string, t: real)
    requires Clears(ops) == 0 && Ordered(before + ops) && rule != ""
    requires cfg.perMinute >= 0 && cfg.stormThreshold >= 0 && cfg.perAccount >= 0 && cfg.perRule >= 0
    ensures var made := Admitted(cfg, before, ops);
            && |Keep(made, (e: Entry) => t - 60.0 < e.time <= t)| <= cfg.perMinute
            && |Keep(made, (e: Entry) => t - 60.0 < e.time <= t)| <= cfg.stormThreshold
            && |Keep(made, (e: Entry) => e.account == account && t - 3600.0 < e.time <= t)| <= cfg.perAccount
            && |Keep(made, (e: Entry) => e.rule == Some(rule) && t - 3600.0 < e.time <= t)| <= cfg.perRule
  {
    hide Run, Keep, Load, Admitted, Clears, Unbroken;
    var made := Admitted(cfg, before, ops);
    OrderedIsUnbroken(cfg, before, ops);
    EveryWindowCapped(cfg, before, ops, account, rule, t);
    LoadCounts(made, Anyone(), MINUTE, t, (e: Entry) => t - 60.0 < e.time <= t);
    LoadCounts(made, OfAccount(account), HOUR, t, (e: Entry) => e.account == account && t - 3600.0 < e.time <= t);
    LoadCounts(made, OfRule(rule), HOUR, t, (e: Entry) => e.rule == Some(rule) && t - 3600.0 < e.time <= t);
  }

  /** What each operation records: a check its acceptance and, when it triggers the
      storm, a latch for 300 s; a poll ends a latch that has run out; a reset
      ends any; a clear forgets everything. */
  lemma StepMeans(cfg: Config, st: State, account: string, rule: Option<string>, now: real)
    ensures var v, after := Decide(cfg, st, account, rule, now), Step(cfg, st, Check(account, rule, now));
            && after.log == (if v == Accepted then st.log + [Entry(now, account, rule)] else st.log)
            && after.storm == (if v == StormTriggered then Storm(true, now + 300.0) else st.storm)
    ensures Step(cfg, st, PollStorm(now)) ==
            st.(storm := Storm(st.storm.active && now < st.storm.until, st.storm.until))
    ensures Step(cfg, st, ResetStorm) == st.(storm := Storm(false, 0.0))
    ensures Step(cfg, st, Clear) == State(Ledger([], []), map[], map[], [], Storm(false, 0.0))
  {
    hide Decide;
  }

  // ----- the storm latch -----

  /** The configurations under which the storm latch can be reached at all. */
  predicate CanStorm(cfg: Config) {
    0 < cfg.perMinute && cfg.stormThreshold < cfg.perMinute && (cfg.stormThreshold <= 0 || 1 <= cfg.perAccount)
  }

  predicate Waiting(op: Op, until: real) {
    match op
    case Check(_, _, now) => now < until
    case PollStorm(now) => now < until
    case _ => false
  }

  /** While the latch is set nothing is admitted and the latch stays. */
  lemma {:induction false} LatchedRun(cfg: Config, ops: seq<Op>, quiet: seq<Op>)
    requires Run(cfg, ops).storm.active
    requires forall i :: 0 <= i < |quiet| ==> Waiting(quiet[i], Run(cfg, ops).storm.until)
    ensures Run(cfg, ops + quiet) == Run(cfg, ops)
  {
    if quiet == [] {
      assert ops + quiet == ops;
    } else {
      var init := quiet[..|quiet| - 1];
      LatchedRun(cfg, ops, init);
      assert (ops + quiet)[..|ops + quiet| - 1] == ops + init;
      assert Waiting(quiet[|quiet| - 1], Run(cfg, ops).storm.until);
    }
  }

  /** A trigger at `now` admits nothing before `now + 300`, barring reset or clear. */
  lemma {:induction false} StormAdmitsNothing(cfg: Config, ops: seq<Op>, account: string, rule: Option<string>,
                                              now: real, quiet: seq<Op>)
    requires Decide(cfg, Run(cfg, ops), account, rule, now).StormTriggered?
    requires forall i :: 0 <= i < |quiet| ==> Waiting(quiet[i], now + 300.0)
    ensures Run(cfg, ops + [Check(account, rule, now)] + quiet).log == Run(cfg, ops).log
  {
    var trigger := ops + [Check(account, rule, now)];
    assert trigger[..|trigger| - 1] == ops;
    LatchedRun(cfg, trigger, quiet);
  }

  /** The total never reaches the storm threshold unless `CanStorm`: the rate
      limit answers first, or nothing is ever accepted. */
  lemma NoTrigger(cfg: Config, st: State, account: string, rule: Option<string>, now: real)
    requires !CanStorm(cfg) && (cfg.perAccount < 1 ==> st.total.held == [])
    ensures !Decide(cfg, st, account, rule, now).StormTriggered?
    ensures cfg.perAccount < 1 ==> !Decide(cfg, st, account, rule, now).Accepted?
  {
  }

  lemma {:induction false} NeverStorms(cfg: Config, ops: seq<Op>)
    requires !CanStorm(cfg)
    ensures !Run(cfg, ops).storm.active
    ensures cfg.perAccount < 1 ==> Run(cfg, ops).log == [] && Run(cfg, ops).total.held == []
  {
    hide Decide;
    if ops == [] {
    } else {
      var op := ops[|ops| - 1];
      NeverStorms(cfg, ops[..|ops| - 1]);
      if op.Check? {
        NoTrigger(cfg, Run(cfg, ops[..|ops| - 1]), op.account, op.rule, op.now);
      }
    }
  }

  /** A run that floods the throttle: `n` alerts of `n` different accounts at once. */
  function Account(i: nat): (s: string)
    ensures |s| == i
  {
    seq(i, _ => 'a')
  }

  function Flood(n: nat): (ops: seq<Op>)
    ensures |ops| == n && forall i :: 0 <= i < n ==> ops[i] == Check(Account(i), None, 0.0)
  {
    seq(n, i requires 0 <= i => Check(Account(i), None, 0.0))
  }

  function Flooded(n: nat): (log: seq<Entry>)
    ensures |log| == n && forall i :: 0 <= i < n ==> log[i] == Entry(0.0, Account(i), None)
  {
    seq(n, i requires 0 <= i => Entry(0.0, Account(i), None))
  }

  lemma FloodTotal(n: nat)
    ensures Recent(Flooded(n), Anyone(), MINUTE, 0.0) == n
  {
    hide Keep;
    KeepAll(Flooded(n), Anyone());
    var ts := Times(Flooded(n), Anyone());
    assert forall t :: t in ts ==> t == 0.0;
    KeepAll(ts, Later(-MINUTE));
  }

  lemma FloodOwn(n: nat)
    ensures Recent(Flooded(n), OfAccount(Account(n)), HOUR, 0.0) == 0
  {
    hide Keep;
    forall e | e in Flooded(n)
      ensures !OfAccount(Account(n))(e)
    {
      assert |e.account| < n;
    }
    KeepNone(Flooded(n), OfAccount(Account(n)));
  }

  lemma FloodStep(cfg: Config, st: State, n: nat)
    requires CanStorm(cfg) && n < cfg.stormThreshold && st.log == Flooded(n) && st.storm == CALM
    requires Decide(cfg, st, Account(n), None, 0.0) == Recount(cfg, st, Account(n), None, 0.0)
    ensures var after := Step(cfg, st, Check(Account(n), None, 0.0));
            after.log == Flooded(n + 1) && after.storm == CALM
  {
    hide Recent, Decide;
    FloodTotal(n);
    FloodOwn(n);
    assert Flooded(n + 1) == Flooded(n) + [Entry(0.0, Account(n), None)];
  }

  lemma {:induction false} FloodRun(cfg: Config, n: nat)
    requires CanStorm(cfg) && (n == 0 || n <= cfg.stormThreshold)
    ensures Run(cfg, Flood(n)).log == Flooded(n) && Run(cfg, Flood(n)).storm == CALM
  {
    hide Step, Decide, Recount;
    if n == 0 {
      assert Flooded(0) == [];
    } else {
      FloodRun(cfg, n - 1);
      VerdictIsRecount(cfg, Flood(n - 1), Account(n - 1), None, 0.0);
      FloodStep(cfg, Run(cfg, Flood(n - 1)), n - 1);
      assert Flood(n)[..n - 1] == Flood(n - 1);
      assert Flood(n)[n - 1] == Check(Account(n - 1), None, 0.0);
    }
  }

  lemma TriggerLatches(cfg: Config, st: State, account: string, now: real)
    requires Decide(cfg, st, account, None, now).StormTriggered?
    ensures Step(cfg, st, Check(account, None, now)).storm.active
  {
    hide Decide;
  }

  lemma FloodTriggers(cfg: Config) returns (ops: seq<Op>)
    requires CanStorm(cfg)
    ensures Run(cfg, ops).storm.active
  {
    hide Recent, Decide, Step;
    var n := if cfg.stormThreshold <= 0 then 0 else cfg.stormThreshold;
    FloodRun(cfg, n);
    FloodTotal(n);
    VerdictIsRecount(cfg, Flood(n), Account(n), None, 0.0);
    TriggerLatches(cfg, Run(cfg, Flood(n)), Account(n), 0.0);
    ops := Flood(n) + [Check(Account(n), None, 0.0)];
    assert ops[..|ops| - 1] == Flood(n);
  }

  /** Exactly which configurations ever enter the storm state. The shipped
      limits (100 per minute, storm at 200) are not among them. */
  lemma {:induction false} StormReachable(cfg: Config)
    ensures CanStorm(cfg) <==> exists ops :: Run(cfg, ops).storm.active
    ensures !CanStorm(Config(5, 50, 100, 200))
  {
    hide Run;
    if CanStorm(cfg) {
      var ops := FloodTriggers(cfg);
    } else {
      forall ops
        ensures !Run(cfg, ops).storm.active
      {
        NeverStorms(cfg, ops);
      }
    }
  }

  // ----- the engine itself -----

  /** The lists as the engine stores them. */
  function Held(m: map<string, Ledger>): map<string, seq<real>> { map k | k in m :: m[k].held }

  lemma HeldUpdate(m: map<string, Ledger>, key: string, l: Ledger, t: real)
    ensures Held(m[key := l]) == Held(m)[key := l.held]
    ensures Held(m[key := Push(l, t)]) == Held(m)[key := l.held + [t]]
  {
  }

  /** The stored lists of a check, pruned and appended to, are the machine's. */
  lemma StoredLists(st: State, account: string, rule: string, now: real)
    ensures TotalAt(st, now).held == Keep(st.total.held, Later(now - MINUTE))
    ensures AccountAt(st, account, now).held == Keep(Lookup(Held(st.accounts), account), Later(now - HOUR))
    ensures RuleAt(st, rule, now).held == Keep(Lookup(Held(st.rules), rule), Later(now - HOUR))
    ensures Push(TotalAt(st, now), now).held == TotalAt(st, now).held + [now]
    ensures var l := AccountAt(st, account, now);
            && Held(st.accounts[account := l]) == Held(st.accounts)[account := l.held]
            && Held(st.accounts[account := Push(l, now)]) == Held(st.accounts)[account := l.held + [now]]
    ensures var l := RuleAt(st, rule, now);
            && Held(st.rules[rule := l]) == Held(st.rules)[rule := l.held]
            && Held(st.rules[rule := Push(l, now)]) == Held(st.rules)[rule := l.held + [now]]
  {
    HeldUpdate(st.accounts, account, AccountAt(st, account, now), now);
    HeldUpdate(st.rules, rule, RuleAt(st, rule, now), now);
  }

  /** The engine's fields are the lists and the latch of the state. */
  ghost predicate Stores(total: seq<real>, accounts: map<string, seq<real>>, rules: map<string, seq<real>>,
                         storm: Storm, st: State) {
    total == st.total.held && accounts == Held(st.accounts) && rules == Held(st.rules) && storm == st.storm
  }

  /** What a check does to the fields, branch by branch. */
  lemma CheckStores(cfg: Config, st: State, total: seq<real>, accounts: map<string, seq<real>>,
                    rules: map<string, seq<real>>, storm: Storm, account: string, rule: Option<string>, now: real)
    requires Stores(total, accounts, rules, storm, st)
    ensures var v, after := Decide(cfg, st, account, rule, now), AfterCheck(cfg, st, account, rule, now);
            var recent, own := Keep(total, Later(now - MINUTE)), Keep(Lookup(accounts, account), Later(now - HOUR));
            if storm.active && now < storm.until then v == StormActive && Stores(total, accounts, rules, storm, after)
            else if |recent| >= cfg.perMinute then v == TotalRate && Stores(recent, accounts, rules, storm, after)
            else if |recent| >= cfg.stormThreshold
            then v == StormTriggered && Stores(recent, accounts, rules, Storm(true, now + STORM_COOLDOWN), after)
            else if |own| >= cfg.perAccount
            then v == AccountRate && Stores(recent, accounts[account := own], rules, storm, after)
            else if !HasRule(rule)
            then v == Accepted
                 && Stores(recent + [now], accounts[account := own][account := own + [now]], rules, storm, after)
            else
              var ofRule := Keep(Lookup(rules, rule.value), Later(now - HOUR));
              if |ofRule| >= cfg.perRule
              then v == RuleRate
                   && Stores(recent, accounts[account := own], rules[rule.value := ofRule], storm, after)
              else v == Accepted
                   && Stores(recent + [now], accounts[account := own][account := own + [now]],
                             rules[rule.value := ofRule][rule.value := ofRule + [now]], storm, after)
  {
    hide Keep, Held, TotalAt, AccountAt, RuleAt, Push;
    StoredLists(st, account, if HasRule(rule) then rule.value else "", now);
    var own := Keep(Lookup(accounts, account), Later(now - HOUR));
    assert accounts[account := own][account := own + [now]] == accounts[account := own + [now]];
    if HasRule(rule) {
      var ofRule := Keep(Lookup(rules, rule.value), Later(now - HOUR));
      assert rules[rule.value := ofRule][rule.value := ofRule + [now]] == rules[rule.value := ofRule + [now]];
    }
  }

  class Engine {
    const cfg: Config
    var accountCounts: map<string, seq<real>>
    var ruleCounts: map<string, seq<real>>
    var totalTimestamps: seq<real>
    var stormActive: bool
    var stormCooldownUntil: real
    ghost var state: State

    ghost predicate Valid()
      reads this
    {
      Stores(totalTimestamps, accountCounts, ruleCounts, Storm(stormActive, stormCooldownUntil), state)
    }

    constructor (config: Config)
      ensures Valid() && cfg == config && state == INIT
    {
      cfg, accountCounts, ruleCounts, totalTimestamps := config, map[], map[], [];
      stormActive, stormCooldownUntil := false, 0.0;
      state := INIT;
    }

    /** Decides and prunes as the machine does, at any reading. */
    method ShouldThrottle(account: string, rule: Option<string>, now: real) returns (v: Verdict)
      requires Valid()
      modifies this
      ensures Valid() && state == Step(cfg, old(state), Check(account, rule, now))
      ensures v == Decide(cfg, old(state), account, rule, now)
    {
      hide Keep, Stores, Decide, AfterCheck;
      CheckStores(cfg, state, totalTimestamps, accountCounts, ruleCounts, Storm(stormActive, stormCooldownUntil),
                  account, rule, now);
      state := Step(cfg, state, Check(account, rule, now));
      if stormActive && now < stormCooldownUntil {
        return StormActive;
      }
      totalTimestamps := Keep(totalTimestamps, Later(now - MINUTE));
      if |totalTimestamps| >= cfg.perMinute {
        return TotalRate;
      }
      if |totalTimestamps| >= cfg.stormThreshold {
        stormActive, stormCooldownUntil := true, now + STORM_COOLDOWN;
        return StormTriggered;
      }
      var own := Keep(Lookup(accountCounts, account), Later(now - HOUR));
      accountCounts := accountCounts[account := own];
      if |own| >= cfg.perAccount {
        return AccountRate;
      }
      var ofRule := [];
      if HasRule(rule) {
        ofRule := Keep(Lookup(ruleCounts, rule.value), Later(now - HOUR));
        ruleCounts := ruleCounts[rule.value := ofRule];
        if |ofRule| >= cfg.perRule {
          return RuleRate;
        }
      }
      totalTimestamps := totalTimestamps + [now];
      accountCounts := accountCounts[account := own + [now]];
      if HasRule(rule) {
        ruleCounts := ruleCounts[rule.value := ofRule + [now]];
      }
      return Accepted;
    }

    method IsStormActive(now: real) returns (active: bool)
      requires Valid()
      modifies this
      ensures Valid() && state == Step(cfg, old(state), PollStorm(now))
      ensures active <==> state.storm.active
    {
      if stormActive && now >= stormCooldownUntil {
        stormActive := false;
      }
      active := stormActive;
      state := Step(cfg, state, PollStorm(now));
    }

    method Reset()
      requires Valid()
      modifies this
      ensures Valid() && state == Step(cfg, old(state), ResetStorm)
    {
      stormActive, stormCooldownUntil := false, 0.0;
      state := Step(cfg, state, ResetStorm);
    }

    method ClearAll()
      modifies this
      ensures Valid() && state == Step(cfg, old(state), Clear)
    {
      accountCounts, ruleCounts, totalTimestamps := map[], map[], [];
      stormActive, stormCooldownUntil := false, 0.0;
      state := Step(cfg, state, Clear);
    }
  }
}
