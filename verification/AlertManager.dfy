/** The alert manager: suppression, deduplication and throttling in front of
    alert creation, and lifecycle transitions that feed suppression back. */
module AlertManager {
  import opened Options
  import opened AlertLifecycle
  import opened Windows
  import D = DeduplicationEngine
  import T = ThrottleEngine

  datatype Config = Config(window: real, maxEntries: int, cooldown: real, throttle: T.Config, table: Table,
                           digest: string -> string)

  datatype Request = Request(account: string, rule: Option<string>, kind: Kind, severity: Severity)

  /** What actually happened, in order: alerts created, alerts that passed every
      filter but could not be built, and alerts moved. */
  datatype Event =
    | Generated(key: string, account: string, rule: Option<string>, suppressAt: real, dedupAt: real, throttleAt: real)
    | Aborted(account: string, rule: Option<string>, throttleAt: real)
    | Moved(account: string, status: Status, at: real)

  /** `clock` is the latest clock reading; alert ids are positions, which makes
      them fresh. */
  datatype State = State(suppressed: map<string, real>, dedup: D.Memory, throttle: T.State,
                         alerts: seq<Alert>, stats: Stats, events: seq<Event>, clock: real)

  /** Where a call raises, if it gets that far: on its arguments, while encoding
      the key, while building the alert, or while publishing it. */
  datatype Fault = NoFault | AtEntry | AtKey | AtBuild | AtPublish

  /** One call, with the clock readings of the engines it passes through. */
  datatype Op =
    | Generate(req: Request, suppressAt: real, dedupAt: real, throttleAt: real, fault: Fault)
    | Transition(id: nat, to: Status, at: real)

  function Init(start: real): State { State(map[], D.EMPTY, T.INIT, [], NO_STATS, [], start) }

  function Key(cfg: Config, req: Request): string {
    cfg.digest(D.RawKey(req.account, req.rule, req.kind))
  }

  // ----- suppression -----

  predicate Suppresses(s: Status) { !s.Open? }

  predicate IsSuppressed(cooldown: real, m: map<string, real>, account: string, now: real) {
    account in m && now - m[account] <= cooldown
  }

  /** Asking about an account forgets its entry once the cooldown has passed. */
  function AfterAsking(cooldown: real, m: map<string, real>, account: string, now: real): map<string, real> {
    if account in m && now - m[account] > cooldown then m - {account} else m
  }

  // ----- steps -----

  datatype Outcome = SuppressedOut | DuplicateOut | ThrottledOut | Raised(at: Fault) | Created(id: nat)

  function Decide(cfg: Config, st: State, op: Op): Outcome
    requires op.Generate?
  {
    if op.fault.AtEntry? then Raised(AtEntry)
    else if IsSuppressed(cfg.cooldown, st.suppressed, op.req.account, op.suppressAt) then SuppressedOut
    else if op.fault.AtKey? then Raised(AtKey)
    else if D.IsDup(cfg.window, st.dedup, Key(cfg, op.req), op.dedupAt) then DuplicateOut
    else if !T.Decide(cfg.throttle, st.throttle, op.req.account, op.req.rule, op.throttleAt).Accepted? then ThrottledOut
    else if op.fault.NoFault? then Created(|st.alerts|)
    else Raised(op.fault)
  }

  /** The alert exists: it was stored before anything raised. */
  predicate Exists(o: Outcome) { o.Created? || o == Raised(AtPublish) }

  /** The call got past suppression and deduplication but left no alert. */
  predicate Dropped(o: Outcome) { o.ThrottledOut? || o == Raised(AtBuild) }

  function Asked(cfg: Config, st: State, op: Op): State
    requires op.Generate?
  {
    st.(suppressed := AfterAsking(cfg.cooldown, st.suppressed, op.req.account, op.suppressAt), clock := op.throttleAt)
  }

  function Deduplicated(cfg: Config, st: State, op: Op): State
    requires op.Generate?
  {
    Asked(cfg, st, op).(dedup := D.Ask(cfg.window, cfg.maxEntries, st.dedup, D.Seen(Key(cfg, op.req), op.dedupAt)))
  }

  function Throttled(cfg: Config, st: State, op: Op): State
    requires op.Generate?
  {
    Deduplicated(cfg, st, op).(
      throttle := T.Step(cfg.throttle, st.throttle, T.Check(op.req.account, op.req.rule, op.throttleAt)))
  }

  function Stored(cfg: Config, st: State, op: Op): State
    requires op.Generate?
  {
    var req := op.req;
    Throttled(cfg, st, op).(
      alerts := st.alerts + [Alert(req.account, req.rule, req.kind, req.severity, Open, None)],
      stats := RecordGenerated(st.stats, req.severity, req.kind),
      events := st.events + [Generated(Key(cfg, req), req.account, req.rule, op.suppressAt, op.dedupAt, op.throttleAt)])
  }

  /** What each engine has recorded when the call ends stays, however it ends. */
  function GenerateStep(cfg: Config, st: State, op: Op): State
    requires op.Generate?
  {
    match Decide(cfg, st, op)
    case SuppressedOut => Asked(cfg, st, op).(stats := st.stats.(suppressed := st.stats.suppressed + 1))
    case DuplicateOut => Deduplicated(cfg, st, op).(stats := st.stats.(deduplicated := st.stats.deduplicated + 1))
    case ThrottledOut => Throttled(cfg, st, op).(stats := st.stats.(suppressed := st.stats.suppressed + 1))
    case Created(_) => Stored(cfg, st, op)
    case Raised(at) => (
      match at
      case AtKey => Asked(cfg, st, op)
      case AtBuild =>
        Throttled(cfg, st, op).(events := st.events + [Aborted(op.req.account, op.req.rule, op.throttleAt)])
      case AtPublish => Stored(cfg, st, op)
      case _ => st.(clock := op.throttleAt))
  }

  predicate Moves(cfg: Config, st: State, id: nat, to: Status) {
    id < |st.alerts| && to in Allowed(cfg.table, st.alerts[id].status)
  }

  function Step(cfg: Config, st: State, op: Op): State {
    match op
    case Generate(_, _, _, _, _) => GenerateStep(cfg, st, op)
    case Transition(id, to, at) =>
      if !Moves(cfg, st, id, to) then st.(clock := at)
      else
        var a := st.alerts[id];
        st.(alerts := st.alerts[id := Move(a, to, at)],
            suppressed := if Suppresses(to) then st.suppressed[a.account := at] else st.suppressed,
            stats := RecordStatusChange(st.stats, a.status, to),
            events := st.events + [Moved(a.account, to, at)],
            clock := at)
  }

  function Run(cfg: Config, start: real, ops: seq<Op>): State {
    if ops == [] then Init(start) else Step(cfg, Run(cfg, start, ops[..|ops| - 1]), ops[|ops| - 1])
  }

  /** The clock of an operation does not run backwards, within it or before it. */
  predicate Timely(clock: real, op: Op) {
    match op
    case Generate(_, s, d, t, _) => clock <= s <= d <= t
    case Transition(_, _, at) => clock <= at
  }

  ghost predicate WellTimed(cfg: Config, start: real, ops: seq<Op>) {
    forall i :: 0 <= i < |ops| ==> Timely(Run(cfg, start, ops[..i]).clock, ops[i])
  }

  // ----- what the generated alerts satisfy -----

  /** Equal keys at least one window apart. */
  ghost predicate KeysSpaced(window: real, events: seq<Event>) {
    forall i, j ::
      0 <= i < j < |events| && events[i].Generated? && events[j].Generated? && events[i].key == events[j].key ==>
        events[j].dedupAt - events[i].dedupAt >= window
  }

  /** The alert was moved to investigating, resolved or false positive. */
  predicate Quiets(e: Event) { e.Moved? && e.status in {Investigating, Resolved, FalsePositive} }

  /** Nothing for an account until the cooldown after its move has passed. */
  ghost predicate QuietAfterMoves(cooldown: real, events: seq<Event>) {
    forall i, j ::
      0 <= i < j < |events| && Quiets(events[i]) && events[j].Generated? && events[j].account == events[i].account ==>
        events[j].suppressAt - events[i].at > cooldown
  }

  /** The alerts that passed every filter, built or not, as the throttle sees them. */
  function Entries(events: seq<Event>): seq<T.Entry> {
    if events == [] then [] else Entries(events[..|events| - 1]) + EntryOf(events[|events| - 1])
  }

  function EntryOf(e: Event): seq<T.Entry> {
    match e
    case Generated(_, account, rule, _, _, at) => [T.Entry(at, account, rule)]
    case Aborted(account, rule, at) => [T.Entry(at, account, rule)]
    case Moved(_, _, _) => []
  }

  ghost predicate KeysRecorded(st: State) {
    forall e :: e in st.events && e.Generated? ==> D.Seen(e.key, e.dedupAt) in st.dedup.log
  }

  /** Each past move still suppresses its account, or is older than the cooldown. */
  ghost predicate MovesRemembered(cooldown: real, st: State) {
    forall e :: e in st.events && Quiets(e) ==>
      (e.account in st.suppressed && st.suppressed[e.account] >= e.at) || st.clock - e.at > cooldown
  }

  ghost predicate EventsPast(st: State) {
    forall e :: e in st.events && e.Moved? ==> e.at <= st.clock
  }

  ghost predicate Quiet(cfg: Config, st: State) {
    && KeysRecorded(st) && KeysSpaced(cfg.window, st.events)
    && MovesRemembered(cfg.cooldown, st) && QuietAfterMoves(cfg.cooldown, st.events) && EventsPast(st)
  }

  lemma EntriesAppend(events: seq<Event>, e: Event)
    ensures Entries(events + [e]) == Entries(events) + EntryOf(e)
  {
    assert (events + [e])[..|events + [e]| - 1] == events;
  }

  // ----- the engines inside the manager -----

  /** The engines answer as recounts of their complete histories from now on. */
  ghost predicate Faithful(cfg: Config, st: State) {
    && D.Sound(st.dedup) && D.Settled(cfg.window, st.dedup, st.clock)
    && T.Covered(st.throttle) && T.Settled(st.throttle, st.clock)
  }

  lemma GenerateStaysFaithful(cfg: Config, st: State, op: Op)
    requires Faithful(cfg, st) && op.Generate? && Timely(st.clock, op)
    ensures Faithful(cfg, GenerateStep(cfg, st, op))
  {
    hide Decide, Key, AfterAsking, RecordGenerated, D.Sound, D.Settled, D.Ask, T.Covered, T.Settled, T.Step;
    var seen, check := D.Seen(Key(cfg, op.req), op.dedupAt), T.Check(op.req.account, op.req.rule, op.throttleAt);
    D.AskSound(cfg.window, cfg.maxEntries, st.dedup, seen);
    D.AskSettled(cfg.window, cfg.maxEntries, st.dedup, st.clock, seen);
    D.SettledLater(cfg.window, D.Ask(cfg.window, cfg.maxEntries, st.dedup, seen), op.dedupAt, op.throttleAt);
    D.SettledLater(cfg.window, st.dedup, st.clock, op.throttleAt);
    T.SettledLater(st.throttle, st.clock, op.throttleAt);
    T.StepCovered(cfg.throttle, st.throttle, check);
    T.StepSettled(cfg.throttle, st.throttle, check, op.throttleAt);
  }

  lemma TransitionStaysFaithful(cfg: Config, st: State, op: Op)
    requires Faithful(cfg, st) && op.Transition? && Timely(st.clock, op)
    ensures Faithful(cfg, Step(cfg, st, op))
  {
    hide Move, RecordStatusChange, Allowed, D.Sound, D.Settled, T.Covered, T.Settled;
    D.SettledLater(cfg.window, st.dedup, st.clock, op.at);
    T.SettledLater(st.throttle, st.clock, op.at);
  }

  lemma {:induction false} RunFaithful(cfg: Config, start: real, ops: seq<Op>)
    requires WellTimed(cfg, start, ops)
    ensures Faithful(cfg, Run(cfg, start, ops))
  {
    hide Faithful, Step, WellTimed;
    if ops == [] {
      InitFaithful(cfg, start);
    } else {
      var init, op := ops[..|ops| - 1], ops[|ops| - 1];
      assert ops == init + [op];
      RunStep(cfg, start, init, op);
      RunFaithful(cfg, start, init);
      StepStaysFaithful(cfg, Run(cfg, start, init), op);
    }
  }

  lemma StepStaysFaithful(cfg: Config, st: State, op: Op)
    requires Faithful(cfg, st) && Timely(st.clock, op)
    ensures Faithful(cfg, Step(cfg, st, op))
  {
    hide Faithful, GenerateStep;
    if op.Generate? {
      GenerateStaysFaithful(cfg, st, op);
    } else {
      TransitionStaysFaithful(cfg, st, op);
    }
  }

  lemma InitFaithful(cfg: Config, start: real)
    ensures Faithful(cfg, Init(start))
  {
    D.EmptySound();
    T.InitCovered();
    T.InitSettled(start);
  }

  lemma RunStep(cfg: Config, start: real, ops: seq<Op>, op: Op)
    ensures Run(cfg, start, ops + [op]) == Step(cfg, Run(cfg, start, ops), op)
    ensures WellTimed(cfg, start, ops + [op])
            <==> WellTimed(cfg, start, ops) && Timely(Run(cfg, start, ops).clock, op)
  {
    hide Step, Timely;
    var all := ops + [op];
    assert all[..|ops|] == ops;
    forall i | 0 <= i < |ops|
      ensures all[..i] == ops[..i] && all[i] == ops[i]
    {
    }
    if WellTimed(cfg, start, all) {
      assert Timely(Run(cfg, start, all[..|ops|]).clock, all[|ops|]);
      forall i | 0 <= i < |ops|
        ensures Timely(Run(cfg, start, ops[..i]).clock, ops[i])
      {
        assert Timely(Run(cfg, start, all[..i]).clock, all[i]);
      }
    }
  }

  /** Asking the suppression table changes nothing that matters later. */
  lemma AskingKeepsMoves(cfg: Config, st: State, account: string, now: real, later: real)
    requires MovesRemembered(cfg.cooldown, st) && EventsPast(st) && st.clock <= now <= later
    ensures var asked := st.(suppressed := AfterAsking(cfg.cooldown, st.suppressed, account, now), clock := later);
            MovesRemembered(cfg.cooldown, asked) && EventsPast(asked)
  {
  }

  lemma NotSuppressedIsQuiet(cfg: Config, st: State, account: string, now: real)
    requires MovesRemembered(cfg.cooldown, st) && st.clock <= now
    requires !IsSuppressed(cfg.cooldown, st.suppressed, account, now)
    ensures forall e :: e in st.events && Quiets(e) && e.account == account ==>
              now - e.at > cfg.cooldown
  {
  }

  lemma NotDuplicateIsSpaced(cfg: Config, st: State, key: string, now: real)
    requires KeysRecorded(st) && !D.Duplicate(cfg.window, st.dedup.log, key, now)
    ensures forall e :: e in st.events && e.Generated? && e.key == key ==> now - e.dedupAt >= cfg.window
  {
    forall e | e in st.events && e.Generated? && e.key == key
      ensures now - e.dedupAt >= cfg.window
    {
      var i :| 0 <= i < |st.dedup.log| && st.dedup.log[i] == D.Seen(e.key, e.dedupAt);
    }
  }

  lemma AppendGenerated(cfg: Config, events: seq<Event>, e: Event)
    requires e.Generated? && KeysSpaced(cfg.window, events) && QuietAfterMoves(cfg.cooldown, events)
    requires forall x :: x in events && x.Generated? && x.key == e.key ==> e.dedupAt - x.dedupAt >= cfg.window
    requires forall x :: x in events && Quiets(x) && x.account == e.account ==>
               e.suppressAt - x.at > cfg.cooldown
    ensures KeysSpaced(cfg.window, events + [e]) && QuietAfterMoves(cfg.cooldown, events + [e])
  {
  }

  /** Other events, and a longer log of keys, change nothing about the alerts. */
  lemma AbortedKeepsQuiet(cfg: Config, events: seq<Event>, e: Event)
    requires e.Aborted? && KeysSpaced(cfg.window, events) && QuietAfterMoves(cfg.cooldown, events)
    ensures KeysSpaced(cfg.window, events + [e]) && QuietAfterMoves(cfg.cooldown, events + [e])
  {
  }

  lemma AskGrows(cfg: Config, m: D.Memory, seen: D.Seen)
    requires D.Sound(m)
    ensures var after := D.Ask(cfg.window, cfg.maxEntries, m, seen);
            && (forall x :: x in m.log ==> x in after.log)
            && (!D.IsDup(cfg.window, m, seen.key, seen.time) ==> after.log == m.log + [seen] && seen in after.log)
            && (D.IsDup(cfg.window, m, seen.key, seen.time) ==> after.log == m.log)
  {
    hide D.IsDup, D.Ask;
    D.AskIs(cfg.window, cfg.maxEntries, m, seen);
    assert (m.log + [seen])[|m.log|] == seen;
  }

  /** Quiet needs only that past keys and moves are still known. */
  lemma QuietGrows(cfg: Config, st: State, after: State)
    requires Quiet(cfg, st) && after.events == st.events && st.clock <= after.clock
    requires forall x :: x in st.dedup.log ==> x in after.dedup.log
    requires MovesRemembered(cfg.cooldown, after)
    ensures Quiet(cfg, after)
  {
    hide KeysSpaced, QuietAfterMoves, MovesRemembered;
  }

  lemma GenerateKeepsQuiet(cfg: Config, st: State, op: Op)
    requires Quiet(cfg, st) && Faithful(cfg, st) && op.Generate? && Timely(st.clock, op)
    ensures Quiet(cfg, GenerateStep(cfg, st, op))
  {
    hide D.IsDup, D.Ask, D.Sound, D.Settled, T.Covered, T.Settled, T.Decide, T.Step, Quiet, AfterAsking, IsSuppressed,
         RecordGenerated, KeysRecorded, KeysSpaced, QuietAfterMoves, MovesRemembered, EventsPast;
    var seen := D.Seen(Key(cfg, op.req), op.dedupAt);
    AskingKeepsQuiet(cfg, st, op);
    AskGrows(cfg, st.dedup, seen);
    var o := Decide(cfg, st, op);
    if Exists(o) {
      StoringKeepsQuiet(cfg, st, op);
    } else if o == Raised(AtBuild) {
      AbortingKeepsQuiet(cfg, Throttled(cfg, st, op), Aborted(op.req.account, op.req.rule, op.throttleAt));
    }
  }

  /** Whatever the call has recorded before an event is added. */
  lemma AskingKeepsQuiet(cfg: Config, st: State, op: Op)
    requires Quiet(cfg, st) && Faithful(cfg, st) && op.Generate? && Timely(st.clock, op)
    ensures forall stats :: Quiet(cfg, Asked(cfg, st, op).(stats := stats))
    ensures forall stats :: Quiet(cfg, Deduplicated(cfg, st, op).(stats := stats))
    ensures forall stats :: Quiet(cfg, Throttled(cfg, st, op).(stats := stats))
    ensures Quiet(cfg, st.(clock := op.throttleAt))
  {
    hide D.IsDup, D.Ask, D.Sound, D.Settled, T.Covered, T.Settled, T.Step, AfterAsking, Key;
    AskingKeepsMoves(cfg, st, op.req.account, op.suppressAt, op.throttleAt);
    AskGrows(cfg, st.dedup, D.Seen(Key(cfg, op.req), op.dedupAt));
    forall stats
      ensures Quiet(cfg, Asked(cfg, st, op).(stats := stats))
      ensures Quiet(cfg, Deduplicated(cfg, st, op).(stats := stats))
      ensures Quiet(cfg, Throttled(cfg, st, op).(stats := stats))
    {
      QuietGrows(cfg, st, Asked(cfg, st, op).(stats := stats));
      QuietGrows(cfg, st, Deduplicated(cfg, st, op).(stats := stats));
      QuietGrows(cfg, st, Throttled(cfg, st, op).(stats := stats));
    }
  }

  lemma AbortingKeepsQuiet(cfg: Config, st: State, e: Event)
    requires Quiet(cfg, st) && e.Aborted?
    ensures Quiet(cfg, st.(events := st.events + [e]))
  {
    hide KeysSpaced, QuietAfterMoves;
    AbortedKeepsQuiet(cfg, st.events, e);
  }

  lemma StoringKeepsQuiet(cfg: Config, st: State, op: Op)
    requires Quiet(cfg, st) && Faithful(cfg, st) && op.Generate? && Timely(st.clock, op)
    requires Exists(Decide(cfg, st, op))
    ensures Quiet(cfg, Stored(cfg, st, op))
  {
    hide D.IsDup, D.Duplicate, D.Ask, D.Sound, D.Settled, T.Covered, T.Settled, KeysSpaced, QuietAfterMoves, T.Step,
         T.Decide, Key, AfterAsking, RecordGenerated;
    var seen := D.Seen(Key(cfg, op.req), op.dedupAt);
    var e := Generated(seen.key, op.req.account, op.req.rule, op.suppressAt, op.dedupAt, op.throttleAt);
    AskingKeepsMoves(cfg, st, op.req.account, op.suppressAt, op.throttleAt);
    AskGrows(cfg, st.dedup, seen);
    NotSuppressedIsQuiet(cfg, st, op.req.account, op.suppressAt);
    D.SettledAnswers(cfg.window, st.dedup, st.clock, seen.key, op.dedupAt);
    NotDuplicateIsSpaced(cfg, st, e.key, op.dedupAt);
    AppendGenerated(cfg, st.events, e);
  }

  lemma TransitionKeepsQuiet(cfg: Config, st: State, op: Op)
    requires Quiet(cfg, st) && op.Transition? && Timely(st.clock, op)
    ensures Quiet(cfg, Step(cfg, st, op))
  {
    hide Allowed, Move, RecordStatusChange, GenerateStep, KeysSpaced, QuietAfterMoves;
    if Moves(cfg, st, op.id, op.to) {
      MovedKeepsQuiet(cfg, st.events, Moved(st.alerts[op.id].account, op.to, op.at));
    }
  }

  lemma MovedKeepsQuiet(cfg: Config, events: seq<Event>, e: Event)
    requires e.Moved? && KeysSpaced(cfg.window, events) && QuietAfterMoves(cfg.cooldown, events)
    ensures KeysSpaced(cfg.window, events + [e]) && QuietAfterMoves(cfg.cooldown, events + [e])
  {
  }

  lemma StepKeepsQuiet(cfg: Config, st: State, op: Op)
    requires Quiet(cfg, st) && Faithful(cfg, st) && Timely(st.clock, op)
    ensures Quiet(cfg, Step(cfg, st, op))
  {
    hide Quiet, Faithful, GenerateStep;
    if op.Generate? {
      GenerateKeepsQuiet(cfg, st, op);
    } else {
      TransitionKeepsQuiet(cfg, st, op);
    }
  }

  lemma {:induction false} RunQuiet(cfg: Config, start: real, ops: seq<Op>)
    requires WellTimed(cfg, start, ops)
    ensures Quiet(cfg, Run(cfg, start, ops))
  {
    hide Quiet, Faithful, Step, WellTimed;
    if ops == [] {
      InitQuiet(cfg, start);
    } else {
      var init, op := ops[..|ops| - 1], ops[|ops| - 1];
      assert ops == init + [op];
      RunStep(cfg, start, init, op);
      RunQuiet(cfg, start, init);
      RunFaithful(cfg, start, init);
      StepKeepsQuiet(cfg, Run(cfg, start, init), op);
    }
  }

  lemma InitQuiet(cfg: Config, start: real)
    ensures Quiet(cfg, Init(start))
  {
  }

  lemma GenerateFeedsThrottle(cfg: Config, st: State, op: Op)
    requires op.Generate? && st.throttle.log == Entries(st.events)
    ensures var after := GenerateStep(cfg, st, op); after.throttle.log == Entries(after.events)
  {
    hide D.IsDup, D.Ask, AfterAsking, Entries, RecordGenerated, T.Decide;
    var req := op.req;
    EntriesAppend(st.events, Generated(Key(cfg, req), req.account, req.rule, op.suppressAt, op.dedupAt, op.throttleAt));
    EntriesAppend(st.events, Aborted(req.account, req.rule, op.throttleAt));
  }

  /** The throttle's history is exactly the alerts created and those that raised
      while being built, in every run. */
  lemma {:induction false} ThrottleSeesGenerated(cfg: Config, start: real, ops: seq<Op>)
    ensures Run(cfg, start, ops).throttle.log == Entries(Run(cfg, start, ops).events)
  {
    hide Step;
    if ops == [] {
    } else {
      ThrottleSeesGenerated(cfg, start, ops[..|ops| - 1]);
      StepFeedsThrottle(cfg, Run(cfg, start, ops[..|ops| - 1]), ops[|ops| - 1]);
    }
  }

  lemma StepFeedsThrottle(cfg: Config, st: State, op: Op)
    requires st.throttle.log == Entries(st.events)
    ensures Step(cfg, st, op).throttle.log == Entries(Step(cfg, st, op).events)
  {
    hide GenerateStep, Entries, Move, RecordStatusChange, Allowed;
    match op {
      case Generate(_, _, _, _, _) =>
        GenerateFeedsThrottle(cfg, st, op);
      case Transition(id, to, at) =>
        if Moves(cfg, st, id, to) {
          EntriesAppend(st.events, Moved(st.alerts[id].account, to, at));
        }
    }
  }

  lemma GenerateMetered(cfg: Config, st: State, op: Op, account: string, rule: string)
    requires op.Generate? && Timely(st.clock, op) && Faithful(cfg, st)
    requires T.AllMetered(cfg.throttle, st.throttle.log, account, rule)
    ensures T.AllMetered(cfg.throttle, GenerateStep(cfg, st, op).throttle.log, account, rule)
  {
    hide T.AllMetered, T.Decide, T.Intact, T.Covered, T.Settled, D.IsDup, D.Ask, AfterAsking, RecordGenerated, Key;
    var check := T.Check(op.req.account, op.req.rule, op.throttleAt);
    T.SettledDecides(cfg.throttle, st.throttle, check.account, check.rule, st.clock, op.throttleAt);
    if T.Decide(cfg.throttle, st.throttle, check.account, check.rule, check.now).Accepted? {
      assert st.throttle.log == [] + st.throttle.log;
      T.AcceptMetered(cfg.throttle, st.throttle, [], st.throttle.log, check, account, rule);
    }
  }

  lemma {:induction false} ThrottleIsMetered(cfg: Config, start: real, ops: seq<Op>, account: string, rule: string)
    requires WellTimed(cfg, start, ops)
    ensures T.AllMetered(cfg.throttle, Run(cfg, start, ops).throttle.log, account, rule)
  {
    hide T.AllMetered, GenerateStep, WellTimed, Faithful;
    if ops == [] {
      T.EmptyMetered(cfg.throttle, account, rule);
    } else {
      var init, op := ops[..|ops| - 1], ops[|ops| - 1];
      assert ops == init + [op];
      RunStep(cfg, start, init, op);
      ThrottleIsMetered(cfg, start, init, account, rule);
      if op.Generate? {
        RunFaithful(cfg, start, init);
        GenerateMetered(cfg, Run(cfg, start, init), op, account, rule);
      }
    }
  }

  /** In any run whose clock does not run backwards, the alerts actually generated
      satisfy every filter at once: equal keys at least one window apart, all
      throttle caps in every window (counting those that raised while being
      built), and none for an account within the cooldown of a move of one of
      its alerts to investigating, resolved or false positive. */
  lemma {:induction false} GeneratedAlertsRespectAllFilters(cfg: Config, start: real, ops: seq<Op>,
                                                            account: string, rule: string, t: real)
    requires WellTimed(cfg, start, ops)
    ensures var events := Run(cfg, start, ops).events;
            && KeysSpaced(cfg.window, events)
            && QuietAfterMoves(cfg.cooldown, events)
            && T.Capped(Entries(events), T.Anyone(), T.MINUTE, cfg.throttle.perMinute, t)
            && T.Capped(Entries(events), T.OfAccount(account), T.HOUR, cfg.throttle.perAccount, t)
            && T.Capped(Entries(events), T.OfRule(rule), T.HOUR, cfg.throttle.perRule, t)
  {
    hide Run, T.Capped, T.AllMetered;
    RunQuiet(cfg, start, ops);
    ThrottleSeesGenerated(cfg, start, ops);
    ThrottleIsMetered(cfg, start, ops, account, rule);
    T.MeteredIsCapped(cfg.throttle, Run(cfg, start, ops).throttle.log, account, rule, t);
  }

  // ----- what a duplicate is a duplicate of -----

  /** The call gets past suppression and deduplication, so that its key and time
      are remembered, and then leaves no alert or does. */
  predicate Records(cfg: Config, st: State, op: Op, seen: D.Seen, dropped: bool) {
    && op.Generate? && D.Seen(Key(cfg, op.req), op.dedupAt) == seen
    && (if dropped then Dropped(Decide(cfg, st, op)) else Exists(Decide(cfg, st, op)))
  }

  /** Call `i` of the run did that. */
  predicate Recorded(cfg: Config, start: real, ops: seq<Op>, i: nat, seen: D.Seen, dropped: bool) {
    i < |ops| && Records(cfg, Run(cfg, start, ops[..i]), ops[i], seen, dropped)
  }

  /** An alert with this key was generated at this time. */
  ghost predicate HasAlert(st: State, seen: D.Seen) {
    exists e :: e in st.events && e.Generated? && e.key == seen.key && e.dedupAt == seen.time
  }

  lemma RecordedStep(cfg: Config, start: real, ops: seq<Op>, op: Op, i: nat, seen: D.Seen, dropped: bool)
    ensures Recorded(cfg, start, ops + [op], i, seen, dropped) <==>
            Recorded(cfg, start, ops, i, seen, dropped)
            || (i == |ops| && Records(cfg, Run(cfg, start, ops), op, seen, dropped))
  {
    hide Records, Run;
    if i <= |ops| {
      assert (ops + [op])[..i] == ops[..i];
      assert ops[..|ops|] == ops;
    }
  }

  lemma StepSeen(cfg: Config, st: State, op: Op, seen: D.Seen)
    ensures seen in Step(cfg, st, op).dedup.log <==>
            seen in st.dedup.log || Records(cfg, st, op, seen, true) || Records(cfg, st, op, seen, false)
  {
    hide D.IsDup, D.Ask, T.Decide, Key, AfterAsking, T.Step, RecordGenerated, RecordStatusChange, Move, Allowed;
    if op.Generate? {
      D.AskLog(cfg.window, cfg.maxEntries, st.dedup, D.Seen(Key(cfg, op.req), op.dedupAt));
    }
  }

  lemma StepAlerts(cfg: Config, st: State, op: Op, seen: D.Seen)
    ensures HasAlert(Step(cfg, st, op), seen) <==> HasAlert(st, seen) || Records(cfg, st, op, seen, false)
  {
    hide D.IsDup, D.Ask, T.Decide, Key, AfterAsking, T.Step, RecordGenerated, RecordStatusChange, Move, Allowed;
    var events := Step(cfg, st, op).events;
    assert forall e :: e in st.events ==> e in events;
    if Records(cfg, st, op, seen, false) {
      assert events[|st.events|] in events;
    }
  }

  ghost predicate EverRecorded(cfg: Config, start: real, ops: seq<Op>, seen: D.Seen, dropped: bool) {
    exists i: nat :: Recorded(cfg, start, ops, i, seen, dropped)
  }

  lemma EverRecordedStep(cfg: Config, start: real, ops: seq<Op>, op: Op, seen: D.Seen, dropped: bool)
    ensures EverRecorded(cfg, start, ops + [op], seen, dropped) <==>
            EverRecorded(cfg, start, ops, seen, dropped) || Records(cfg, Run(cfg, start, ops), op, seen, dropped)
  {
    hide Recorded, Records, Run;
    forall i: nat
      ensures Recorded(cfg, start, ops + [op], i, seen, dropped) <==>
              Recorded(cfg, start, ops, i, seen, dropped)
              || (i == |ops| && Records(cfg, Run(cfg, start, ops), op, seen, dropped))
    {
      RecordedStep(cfg, start, ops, op, i, seen, dropped);
    }
    if Records(cfg, Run(cfg, start, ops), op, seen, dropped) {
      assert Recorded(cfg, start, ops + [op], |ops|, seen, dropped);
    }
  }

  /** The keys ever remembered are those of the calls that got past suppression
      and deduplication, and the alerts are those of the ones that were neither
      throttled nor raised before the alert was stored. */
  lemma {:induction false} SeenIsRecorded(cfg: Config, start: real, ops: seq<Op>, seen: D.Seen)
    ensures seen in Run(cfg, start, ops).dedup.log
            <==> EverRecorded(cfg, start, ops, seen, true) || EverRecorded(cfg, start, ops, seen, false)
    ensures HasAlert(Run(cfg, start, ops), seen) <==> EverRecorded(cfg, start, ops, seen, false)
  {
    hide Records, HasAlert, Step, Run;
    if ops == [] {
      EmptyRun(cfg, start);
      NoAlertYet(start, seen);
    } else {
      hide EverRecorded;
      var init, op := ops[..|ops| - 1], ops[|ops| - 1];
      assert ops == init + [op];
      SeenIsRecorded(cfg, start, init, seen);
      StepSeen(cfg, Run(cfg, start, init), op, seen);
      StepAlerts(cfg, Run(cfg, start, init), op, seen);
      EverRecordedStep(cfg, start, init, op, seen, true);
      EverRecordedStep(cfg, start, init, op, seen, false);
      RunStep(cfg, start, init, op);
    }
  }

  lemma NoAlertYet(start: real, seen: D.Seen)
    ensures !HasAlert(Init(start), seen)
  {
  }

  /** Call `i` is why `again` counts as a duplicate: the same key, within the
      window, remembered by that call. */
  predicate Opens(cfg: Config, start: real, ops: seq<Op>, again: Op, i: nat, dropped: bool)
    requires again.Generate?
  {
    && i < |ops| && ops[i].Generate? && again.dedupAt - ops[i].dedupAt < cfg.window
    && Recorded(cfg, start, ops, i, D.Seen(Key(cfg, again.req), ops[i].dedupAt), dropped)
  }

  /** A call that is remembered is at least a window after any earlier one with
      its key. */
  lemma RecordedApart(cfg: Config, start: real, ops: seq<Op>, i: nat, x: D.Seen, b: bool, j: nat, y: D.Seen, c: bool)
    requires WellTimed(cfg, start, ops)
    requires i < j && x.key == y.key && Recorded(cfg, start, ops, i, x, b) && Recorded(cfg, start, ops, j, y, c)
    ensures y.time - x.time >= cfg.window
  {
    hide Run, Key, T.Decide, IsSuppressed, D.IsDup, D.Sound, D.Settled, T.Covered, T.Settled, WellTimed, Step;
    var st := Run(cfg, start, ops[..j]);
    assert ops[..j][..i] == ops[..i];
    assert Recorded(cfg, start, ops[..j], i, x, b);
    assert EverRecorded(cfg, start, ops[..j], x, b);
    SeenIsRecorded(cfg, start, ops[..j], x);
    WellTimedPrefix(cfg, start, ops, j);
    RunFaithful(cfg, start, ops[..j]);
    D.SettledAnswers(cfg.window, st.dedup, st.clock, y.key, y.time);
    var k :| 0 <= k < |st.dedup.log| && st.dedup.log[k] == x;
  }

  lemma WellTimedPrefix(cfg: Config, start: real, ops: seq<Op>, n: nat)
    requires WellTimed(cfg, start, ops) && n < |ops|
    ensures WellTimed(cfg, start, ops[..n]) && Timely(Run(cfg, start, ops[..n]).clock, ops[n])
  {
    hide Run, Timely;
    var init := ops[..n];
    forall i | 0 <= i < n
      ensures Timely(Run(cfg, start, init[..i]).clock, init[i])
    {
      assert init[..i] == ops[..i] && init[i] == ops[i];
    }
  }

  lemma {:induction false} ClockPast(cfg: Config, start: real, ops: seq<Op>, i: nat)
    requires WellTimed(cfg, start, ops) && i < |ops| && ops[i].Generate?
    ensures ops[i].dedupAt <= Run(cfg, start, ops).clock
  {
    hide WellTimed, GenerateStep, Allowed, Run;
    var init, op := ops[..|ops| - 1], ops[|ops| - 1];
    assert ops == init + [op];
    RunStep(cfg, start, init, op);
    StepClock(cfg, Run(cfg, start, init), op);
    if i < |init| {
      ClockPast(cfg, start, init, i);
    }
  }

  lemma StepClock(cfg: Config, st: State, op: Op)
    ensures Step(cfg, st, op).clock == if op.Generate? then op.throttleAt else op.at
  {
    hide Decide, Key, AfterAsking, D.Ask, T.Step, RecordGenerated, RecordStatusChange, Move, Allowed;
  }

  /** A duplicate has exactly one such call. */
  lemma DuplicateHasOneOpener(cfg: Config, start: real, ops: seq<Op>, again: Op) returns (i: nat, dropped: bool)
    requires again.Generate? && WellTimed(cfg, start, ops + [again])
    requires Decide(cfg, Run(cfg, start, ops), again).DuplicateOut?
    ensures Opens(cfg, start, ops, again, i, dropped)
    ensures forall j: nat, b: bool :: Opens(cfg, start, ops, again, j, b) ==> (j, b) == (i, dropped)
  {
    hide Run, WellTimed, Key, Recorded, T.Decide, D.IsDup, D.Settled, T.Covered, T.Settled, Step;
    var st, key := Run(cfg, start, ops), Key(cfg, again.req);
    RunStep(cfg, start, ops, again);
    RunFaithful(cfg, start, ops);
    D.HeldDecides(cfg.window, st.dedup, key, again.dedupAt);
    var x := D.Seen(key, st.dedup.seen[key][0]);
    SeenIsRecorded(cfg, start, ops, x);
    dropped := EverRecorded(cfg, start, ops, x, true);
    i :| Recorded(cfg, start, ops, i, x, dropped);
    RecordedMeans(cfg, start, ops, i, x, dropped);
    forall j: nat, b: bool | Opens(cfg, start, ops, again, j, b)
      ensures (j, b) == (i, dropped)
    {
      OnlyOneOpens(cfg, start, ops, again, i, dropped, j, b);
    }
  }

  lemma RecordedMeans(cfg: Config, start: real, ops: seq<Op>, i: nat, x: D.Seen, dropped: bool)
    requires Recorded(cfg, start, ops, i, x, dropped)
    ensures i < |ops| && ops[i].Generate? && x == D.Seen(Key(cfg, ops[i].req), ops[i].dedupAt)
    ensures !Recorded(cfg, start, ops, i, x, !dropped)
  {
    hide Run, Key, Decide;
  }

  lemma OnlyOneOpens(cfg: Config, start: real, ops: seq<Op>, again: Op, i: nat, b: bool, j: nat, c: bool)
    requires again.Generate? && WellTimed(cfg, start, ops + [again])
    requires Opens(cfg, start, ops, again, i, b) && Opens(cfg, start, ops, again, j, c)
    ensures (i, b) == (j, c)
  {
    hide Run, WellTimed, Key, Recorded;
    var x, y := D.Seen(Key(cfg, again.req), ops[i].dedupAt), D.Seen(Key(cfg, again.req), ops[j].dedupAt);
    RunStep(cfg, start, ops, again);
    ClockPast(cfg, start, ops, i);
    ClockPast(cfg, start, ops, j);
    if i < j {
      RecordedApart(cfg, start, ops, i, x, b, j, y, c);
    } else if j < i {
      RecordedApart(cfg, start, ops, j, y, c, i, x, b);
    } else {
      RecordedMeans(cfg, start, ops, i, x, b);
    }
  }

  /** An alert with the key of `again` was generated within the window. */
  ghost predicate AlertInWindow(cfg: Config, st: State, again: Op)
    requires again.Generate?
  {
    exists e :: e in st.events && e.Generated? && e.key == Key(cfg, again.req) && again.dedupAt - e.dedupAt < cfg.window
  }

  /** In every run, a request dropped as a duplicate has an alert with its key
      inside the window if and only if the one request that opened the window
      was neither throttled nor raised before its alert was stored. */
  lemma DuplicateHasAlertIff(cfg: Config, start: real, ops: seq<Op>, again: Op)
    requires again.Generate? && WellTimed(cfg, start, ops + [again])
    requires Decide(cfg, Run(cfg, start, ops), again).DuplicateOut?
    ensures AlertInWindow(cfg, Run(cfg, start, ops), again)
            <==> exists i: nat :: Opens(cfg, start, ops, again, i, false)
    ensures AlertInWindow(cfg, Run(cfg, start, ops), again)
            <==> !exists i: nat :: Opens(cfg, start, ops, again, i, true)
  {
    hide Run, WellTimed, Key, Recorded, Decide;
    var st := Run(cfg, start, ops);
    var i, dropped := DuplicateHasOneOpener(cfg, start, ops, again);
    if AlertInWindow(cfg, st, again) {
      var e :| e in st.events && e.Generated? && e.key == Key(cfg, again.req) && again.dedupAt - e.dedupAt < cfg.window;
      var x := D.Seen(e.key, e.dedupAt);
      SeenIsRecorded(cfg, start, ops, x);
      var j: nat :| Recorded(cfg, start, ops, j, x, false);
      RecordedMeans(cfg, start, ops, j, x, false);
      assert Opens(cfg, start, ops, again, j, false);
    }
    if !dropped {
      var x := D.Seen(Key(cfg, again.req), ops[i].dedupAt);
      SeenIsRecorded(cfg, start, ops, x);
    }
  }

  /** The limits let a first alert through. */
  predicate CanGenerate(cfg: Config) {
    cfg.throttle.perMinute >= 1 && cfg.throttle.stormThreshold >= 1 && cfg.throttle.perAccount >= 1
  }

  lemma FirstIsAccepted(cfg: Config, start: real, op: Op)
    requires CanGenerate(cfg) && op.Generate? && op.req.rule.None?
    ensures T.Decide(cfg.throttle, T.INIT, op.req.account, op.req.rule, op.throttleAt).Accepted?
    ensures !D.IsDup(cfg.window, D.EMPTY, Key(cfg, op.req), op.dedupAt)
    ensures op.fault.NoFault? ==> Decide(cfg, Init(start), op).Created?
    ensures op.fault.AtBuild? ==> Decide(cfg, Init(start), op) == Raised(AtBuild)
  {
    hide Key;
  }

  /** An opener that is throttled is reachable: with one alert an hour for an account,
      a request of another type is throttled, and repeated it is a duplicate of
      an alert that was never generated. */
  lemma DuplicateWithoutAlert(cfg: Config, start: real, first: Request, second: Request)
    requires CanGenerate(cfg) && cfg.throttle.perAccount == 1 && cfg.window > 0.0
    requires first.rule.None? && second.account == first.account && Key(cfg, first) != Key(cfg, second)
    ensures var once := Generate(first, start, start, start, NoFault);
            var twice := Generate(second, start, start, start, NoFault);
            && WellTimed(cfg, start, [once, twice, twice])
            && Decide(cfg, Run(cfg, start, [once, twice]), twice).DuplicateOut?
            && !AlertInWindow(cfg, Run(cfg, start, [once, twice]), twice)
  {
    hide Key, Run, WellTimed, T.Decide, T.AfterCheck, RecordGenerated, D.IsDup, D.Ask;
    var once, twice := Generate(first, start, start, start, NoFault), Generate(second, start, start, start, NoFault);
    var k1, k2 := D.Seen(Key(cfg, first), start), D.Seen(Key(cfg, second), start);
    FirstIsAccepted(cfg, start, once);
    EmptyRun(cfg, start);
    RunStep(cfg, start, [], once);
    RunStep(cfg, start, [once], twice);
    RunStep(cfg, start, [once, twice], twice);
    assert [] + [once] == [once] && [once] + [twice] == [once, twice];
    assert [once, twice] + [twice] == [once, twice, twice];
    var st, st' := Run(cfg, start, [once]), Run(cfg, start, [once, twice]);
    FirstKey(cfg, k1, k2);
    SecondIsThrottled(cfg.throttle, first.account, second.rule, start);
    assert Decide(cfg, st, twice).ThrottledOut?;
    assert st'.events == [Generated(k1.key, first.account, None, start, start, start)];
  }

  /** So is one that raises: built from an amount that cannot be formatted, the
      alert is never stored, and the same request again is a duplicate of it. */
  lemma DuplicateOfRaised(cfg: Config, start: real, req: Request)
    requires CanGenerate(cfg) && cfg.window > 0.0 && req.rule.None?
    ensures var bad, again := Generate(req, start, start, start, AtBuild), Generate(req, start, start, start, NoFault);
            && WellTimed(cfg, start, [bad, again])
            && Decide(cfg, Run(cfg, start, [bad]), again).DuplicateOut?
            && Run(cfg, start, [bad]).alerts == [] && !AlertInWindow(cfg, Run(cfg, start, [bad]), again)
  {
    hide Key, Run, WellTimed, T.Decide, T.AfterCheck, D.IsDup, D.Ask;
    var bad, again := Generate(req, start, start, start, AtBuild), Generate(req, start, start, start, NoFault);
    var k := D.Seen(Key(cfg, req), start);
    FirstIsAccepted(cfg, start, bad);
    EmptyRun(cfg, start);
    RunStep(cfg, start, [], bad);
    RunStep(cfg, start, [bad], again);
    assert [] + [bad] == [bad] && [bad] + [again] == [bad, again];
    AskRemembers(cfg, D.EMPTY, k, start);
  }

  /** Within a positive window a key just recorded is found again. */
  lemma AskRemembers(cfg: Config, m: D.Memory, k: D.Seen, now: real)
    requires cfg.window > 0.0 && !D.IsDup(cfg.window, m, k.key, k.time) && D.Sound(m) && now - k.time < cfg.window
    ensures D.IsDup(cfg.window, D.Ask(cfg.window, cfg.maxEntries, m, k), k.key, now)
    ensures D.Sound(D.Ask(cfg.window, cfg.maxEntries, m, k))
  {
    hide D.IsDup, D.Ask;
    D.AskIs(cfg.window, cfg.maxEntries, m, k);
    D.AskSound(cfg.window, cfg.maxEntries, m, k);
    D.HeldDecides(cfg.window, D.Ask(cfg.window, cfg.maxEntries, m, k), k.key, now);
  }

  lemma FirstKey(cfg: Config, k1: D.Seen, k2: D.Seen)
    requires cfg.window > 0.0 && k1.key != k2.key && k1.time == k2.time
    ensures var m := D.Ask(cfg.window, cfg.maxEntries, D.EMPTY, k1);
            && !D.IsDup(cfg.window, m, k2.key, k2.time)
            && D.IsDup(cfg.window, D.Ask(cfg.window, cfg.maxEntries, m, k2), k2.key, k2.time)
  {
    hide D.IsDup, D.Ask;
    var m := D.Ask(cfg.window, cfg.maxEntries, D.EMPTY, k1);
    D.EmptySound();
    D.HeldDecides(cfg.window, D.EMPTY, k1.key, k1.time);
    D.AskIs(cfg.window, cfg.maxEntries, D.EMPTY, k1);
    D.AskSound(cfg.window, cfg.maxEntries, D.EMPTY, k1);
    D.HeldDecides(cfg.window, m, k2.key, k2.time);
    AskRemembers(cfg, m, k2, k2.time);
  }

  lemma EmptyRun(cfg: Config, start: real)
    ensures Run(cfg, start, []) == Init(start) && WellTimed(cfg, start, [])
  {
  }

  lemma SecondIsThrottled(cfg: T.Config, account: string, rule: Option<string>, now: real)
    requires cfg.perAccount == 1 && cfg.perMinute >= 1 && cfg.stormThreshold >= 1
    ensures !T.Decide(cfg, T.Step(cfg, T.INIT, T.Check(account, None, now)), account, rule, now).Accepted?
  {
    hide Keep;
    var st := T.Step(cfg, T.INIT, T.Check(account, None, now));
    KeepAll([], Later(now - T.MINUTE));
    KeepAll([], Later(now - T.HOUR));
    assert T.LedgerOf(st.accounts, account).held == [now];
    KeepAll([now], Later(now - T.HOUR));
  }

  /** A throttled request leaves its key behind: unless it is suppressed, the
      same request within the window is then dropped as a duplicate. */
  lemma ThrottledKeyIsRemembered(cfg: Config, start: real, ops: seq<Op>, op: Op, again: Op)
    requires op.Generate? && again.Generate? && again.req == op.req && again.fault.NoFault? && cfg.window > 0.0
    requires Decide(cfg, Run(cfg, start, ops), op).ThrottledOut? && again.dedupAt - op.dedupAt < cfg.window
    ensures var st, after := Run(cfg, start, ops), Run(cfg, start, ops + [op]);
            && after.alerts == st.alerts
            && Decide(cfg, after, again) ==
               if IsSuppressed(cfg.cooldown, after.suppressed, again.req.account, again.suppressAt)
               then SuppressedOut else DuplicateOut
  {
    hide T.Decide, T.Step, AfterAsking, Run, WellTimed, D.Ask, D.IsDup, Key;
    RunStep(cfg, start, ops, op);
    RunSound(cfg, start, ops);
    AskRemembers(cfg, Run(cfg, start, ops).dedup, D.Seen(Key(cfg, op.req), op.dedupAt), again.dedupAt);
  }

  lemma {:induction false} RunSound(cfg: Config, start: real, ops: seq<Op>)
    ensures D.Sound(Run(cfg, start, ops).dedup)
  {
    hide D.Sound, D.Ask, Decide, Key, T.Step, AfterAsking, RecordGenerated, RecordStatusChange, Move, Allowed;
    if ops == [] {
      D.EmptySound();
    } else {
      var st, op := Run(cfg, start, ops[..|ops| - 1]), ops[|ops| - 1];
      RunSound(cfg, start, ops[..|ops| - 1]);
      if op.Generate? {
        D.AskSound(cfg.window, cfg.maxEntries, st.dedup, D.Seen(Key(cfg, op.req), op.dedupAt));
      }
    }
  }

  /** With a digest that keeps texts apart, a request shares its key with another if
      and only if account, rule and type are the same, unless its account and rule
      can be read differently. */
  lemma KeyMeans(cfg: Config, req: Request, other: Request)
    requires forall x, y :: cfg.digest(x) == cfg.digest(y) ==> x == y
    requires !D.Ambiguous(req.account, req.rule)
    ensures Key(cfg, req) == Key(cfg, other)
            <==> req.account == other.account && req.rule == other.rule && req.kind == other.kind
  {
    D.RawKeyIdentifies(req.account, req.rule, req.kind, other.account, other.rule, other.kind);
    var a, b := D.RawKey(req.account, req.rule, req.kind), D.RawKey(other.account, other.rule, other.kind);
    assert Key(cfg, req) == cfg.digest(a) && Key(cfg, other) == cfg.digest(b);
  }

  // ----- suppression, exactly -----

  /** Each suppressed account has a move behind it, at the time remembered. */
  ghost predicate MovesBehind(st: State) {
    forall a :: a in st.suppressed ==>
      exists e :: e in st.events && Quiets(e) && e.account == a && e.at == st.suppressed[a]
  }

  lemma BehindGrows(st: State, after: State)
    requires MovesBehind(st) && st.events <= after.events
    requires forall a :: a in after.suppressed ==> a in st.suppressed && after.suppressed[a] == st.suppressed[a]
    ensures MovesBehind(after)
  {
    forall a | a in after.suppressed
      ensures exists e :: e in after.events && Quiets(e) && e.account == a && e.at == after.suppressed[a]
    {
      var e :| e in st.events && Quiets(e) && e.account == a && e.at == st.suppressed[a];
      assert e in after.events;
    }
  }

  lemma GenerateKeepsBehind(cfg: Config, st: State, op: Op)
    requires MovesBehind(st) && op.Generate?
    ensures MovesBehind(GenerateStep(cfg, st, op))
  {
    hide Decide, Key, D.Ask, T.Step, RecordGenerated, MovesBehind;
    BehindGrows(st, GenerateStep(cfg, st, op));
  }

  lemma TransitionKeepsBehind(cfg: Config, st: State, op: Op)
    requires MovesBehind(st) && op.Transition?
    ensures MovesBehind(Step(cfg, st, op))
  {
    hide Allowed, Move, RecordStatusChange;
    var after := Step(cfg, st, op);
    if Moves(cfg, st, op.id, op.to) {
      var moved := Moved(st.alerts[op.id].account, op.to, op.at);
      assert after.events == st.events + [moved] && moved in after.events;
      forall a | a in after.suppressed
        ensures exists e :: e in after.events && Quiets(e) && e.account == a && e.at == after.suppressed[a]
      {
        if a == moved.account && Suppresses(op.to) {
          assert Quiets(moved);
        } else {
          var e :| e in st.events && Quiets(e) && e.account == a && e.at == st.suppressed[a];
          assert e in after.events;
        }
      }
    }
  }

  lemma {:induction false} RunBehind(cfg: Config, start: real, ops: seq<Op>)
    ensures MovesBehind(Run(cfg, start, ops))
  {
    hide MovesBehind, GenerateStep;
    if ops == [] {
      NothingBehind(start);
    } else {
      RunBehind(cfg, start, ops[..|ops| - 1]);
      if ops[|ops| - 1].Generate? {
        GenerateKeepsBehind(cfg, Run(cfg, start, ops[..|ops| - 1]), ops[|ops| - 1]);
      } else {
        TransitionKeepsBehind(cfg, Run(cfg, start, ops[..|ops| - 1]), ops[|ops| - 1]);
      }
    }
  }

  lemma NothingBehind(start: real)
    ensures MovesBehind(Init(start))
  {
  }

  /** An alert of the account was moved to investigating, resolved or false
      positive at most one cooldown before `now`. */
  ghost predicate MovedLately(cfg: Config, st: State, account: string, now: real) {
    exists e :: e in st.events && e.Moved? && e.status in {Investigating, Resolved, FalsePositive}
                && e.account == account && now - e.at <= cfg.cooldown
  }

  /** In every well-timed run a request that gets to the suppression check is
      suppressed if and only if an alert of its account was moved so within the
      cooldown; a move back to open, or of another account, never suppresses. */
  lemma SuppressedIff(cfg: Config, start: real, ops: seq<Op>, op: Op)
    requires WellTimed(cfg, start, ops + [op]) && op.Generate? && !op.fault.AtEntry?
    ensures Decide(cfg, Run(cfg, start, ops), op) == SuppressedOut
            <==> MovedLately(cfg, Run(cfg, start, ops), op.req.account, op.suppressAt)
  {
    hide Run, WellTimed, D.IsDup, T.Decide, Key, KeysRecorded, KeysSpaced, QuietAfterMoves;
    var st := Run(cfg, start, ops);
    RunStep(cfg, start, ops, op);
    RunQuiet(cfg, start, ops);
    RunBehind(cfg, start, ops);
  }

  /** A request with the key was remembered less than a window before. */
  ghost predicate RememberedLately(cfg: Config, st: State, op: Op)
    requires op.Generate?
  {
    exists x :: x in st.dedup.log && x.key == Key(cfg, op.req) && op.dedupAt - x.time < cfg.window
  }

  /** The verdict of a request in a well-timed run, from the histories alone:
      suppressed, else a duplicate, else throttled, else an alert, unless the
      call raises on the way. */
  lemma VerdictFromHistory(cfg: Config, start: real, ops: seq<Op>, op: Op)
    requires WellTimed(cfg, start, ops + [op]) && op.Generate?
    ensures var st := Run(cfg, start, ops);
            Decide(cfg, st, op) ==
            if op.fault == AtEntry then Raised(AtEntry)
            else if MovedLately(cfg, st, op.req.account, op.suppressAt) then SuppressedOut
            else if op.fault == AtKey then Raised(AtKey)
            else if RememberedLately(cfg, st, op) then DuplicateOut
            else if T.Recount(cfg.throttle, st.throttle, op.req.account, op.req.rule, op.throttleAt) != T.Accepted
            then ThrottledOut
            else if op.fault == NoFault then Created(|st.alerts|)
            else Raised(op.fault)
  {
    hide Run, WellTimed, D.IsDup, T.Decide, T.Recount, Key, MovedLately, D.Settled, T.Settled, T.Covered, T.Intact;
    var st := Run(cfg, start, ops);
    RunStep(cfg, start, ops, op);
    RunFaithful(cfg, start, ops);
    if op.fault != AtEntry {
      SuppressedIff(cfg, start, ops, op);
    }
    D.SettledAnswers(cfg.window, st.dedup, st.clock, Key(cfg, op.req), op.dedupAt);
    if RememberedLately(cfg, st, op) {
      var x :| x in st.dedup.log && x.key == Key(cfg, op.req) && op.dedupAt - x.time < cfg.window;
      var i :| 0 <= i < |st.dedup.log| && st.dedup.log[i] == x;
    }
    T.SettledDecides(cfg.throttle, st.throttle, op.req.account, op.req.rule, st.clock, op.throttleAt);
  }

  // ----- what each operation leaves behind -----

  /** A request adds one open alert with its own account, rule, type and severity
      exactly when the alert is stored, and moves none. */
  lemma GenerationMeans(cfg: Config, st: State, op: Op)
    requires op.Generate?
    ensures var o, req, after := Decide(cfg, st, op), op.req, Step(cfg, st, op);
            if o.Created? || o == Raised(AtPublish)
            then
              && after.alerts == st.alerts + [Alert(req.account, req.rule, req.kind, req.severity, Open, None)]
              && after.events == st.events + [Generated(Key(cfg, req), req.account, req.rule,
                                                        op.suppressAt, op.dedupAt, op.throttleAt)]
            else
              && after.alerts == st.alerts
              && after.events == if o == Raised(AtBuild)
                                 then st.events + [Aborted(req.account, req.rule, op.throttleAt)] else st.events
  {
    hide Decide, Key, D.Ask, T.Step, RecordGenerated, AfterAsking;
  }

  /** A transition of a stored alert to a status the table allows sets it, the time
      of a resolution, and the account's suppression, and nothing else; any other
      changes nothing. */
  lemma TransitionMeans(cfg: Config, st: State, id: nat, to: Status, at: real)
    ensures var after := Step(cfg, st, Transition(id, to, at));
            if id >= |st.alerts| || to !in Allowed(cfg.table, st.alerts[id].status) then after == st.(clock := at)
            else
              var a := st.alerts[id];
              && after.alerts ==
                 st.alerts[id := Alert(a.account, a.rule, a.kind, a.severity, to,
                                       if to in {Resolved, FalsePositive} then Some(at) else a.resolvedAt)]
              && after.suppressed == (if to in {Investigating, Resolved, FalsePositive}
                                      then st.suppressed[a.account := at] else st.suppressed)
              && after.events == st.events + [Moved(a.account, to, at)]
              && after.dedup == st.dedup && after.throttle == st.throttle
  {
    hide Allowed, RecordStatusChange;
  }

  // ----- statistics over runs -----

  /** The call ends in one of the totals: it does not raise before the alert is
      stored. */
  predicate Counts(cfg: Config, st: State, op: Op) {
    op.Generate? && (Decide(cfg, st, op).Raised? ==> Exists(Decide(cfg, st, op)))
  }

  function Counted(cfg: Config, start: real, ops: seq<Op>): nat {
    if ops == [] then 0
    else
      var init, op := ops[..|ops| - 1], ops[|ops| - 1];
      Counted(cfg, start, init) + (if Counts(cfg, Run(cfg, start, init), op) then 1 else 0)
  }

  lemma StepAccurate(cfg: Config, st: State, op: Op)
    requires Accurate(st.stats, st.alerts)
    ensures Accurate(Step(cfg, st, op).stats, Step(cfg, st, op).alerts)
  {
    hide Accurate, RecordGenerated, RecordStatusChange, Move, AfterAsking, Key, T.Step, T.Decide, D.IsDup, D.Ask;
    match op {
      case Generate(req, _, _, _, _) =>
        OtherCountersAccurate(st.stats, st.alerts, st.stats.suppressed + 1);
        OtherCountersAccurate(st.stats, st.alerts, st.stats.deduplicated + 1);
        GeneratedStaysAccurate(st.stats, st.alerts, Alert(req.account, req.rule, req.kind, req.severity, Open, None));
      case Transition(id, to, at) =>
        if Moves(cfg, st, id, to) {
          ChangeStaysAccurate(st.stats, st.alerts, id, to, at);
        }
    }
  }

  lemma GeneratedTotals(s: Stats, severity: Severity, kind: Kind)
    ensures var s' := RecordGenerated(s, severity, kind);
            s'.generated == s.generated + 1 && s'.suppressed == s.suppressed && s'.deduplicated == s.deduplicated
  {
  }

  lemma GenerateCounts(cfg: Config, st: State, op: Op)
    requires op.Generate?
    ensures var s, s' := st.stats, GenerateStep(cfg, st, op).stats;
            s'.generated + s'.suppressed + s'.deduplicated
            == s.generated + s.suppressed + s.deduplicated + (if Counts(cfg, st, op) then 1 else 0)
  {
    hide Decide, AfterAsking, Key, T.Step, D.Ask, RecordGenerated;
    GeneratedTotals(st.stats, op.req.severity, op.req.kind);
  }

  lemma StepCounts(cfg: Config, st: State, op: Op)
    ensures var s, s' := st.stats, Step(cfg, st, op).stats;
            s'.generated + s'.suppressed + s'.deduplicated
            == s.generated + s.suppressed + s.deduplicated + (if Counts(cfg, st, op) then 1 else 0)
  {
    hide GenerateStep, Allowed, Move, Decide;
    if op.Generate? {
      GenerateCounts(cfg, st, op);
    }
  }

  /** Whatever is called, the counters are the true counts, each alert is
      counted once per heading, and every generate call ends in exactly one of
      the three totals unless it raises before an alert is stored. */
  lemma {:induction false} StatisticsAreAccurate(cfg: Config, start: real, ops: seq<Op>)
    ensures var st := Run(cfg, start, ops);
            && Accurate(st.stats, st.alerts)
            && StatusTotal(st.stats) == SeverityTotal(st.stats) == KindTotal(st.stats) == |st.alerts|
            && st.stats.generated + st.stats.suppressed + st.stats.deduplicated == Counted(cfg, start, ops)
  {
    hide Accurate, Step, StatusTotal, SeverityTotal, KindTotal, Counts;
    if ops == [] {
      StartsAccurate();
    } else {
      var st, op := Run(cfg, start, ops[..|ops| - 1]), ops[|ops| - 1];
      StatisticsAreAccurate(cfg, start, ops[..|ops| - 1]);
      StepAccurate(cfg, st, op);
      StepCounts(cfg, st, op);
    }
    AccurateTotals(Run(cfg, start, ops).stats, Run(cfg, start, ops).alerts);
  }

  /** How many requests of the run ended in a way `p` accepts. */
  function Ended(cfg: Config, start: real, ops: seq<Op>, p: Outcome -> bool): nat {
    if ops == [] then 0
    else
      var init, op := ops[..|ops| - 1], ops[|ops| - 1];
      Ended(cfg, start, init, p)
      + (if op.Generate? && p(Decide(cfg, Run(cfg, start, init), op)) then 1 else 0)
  }

  /** Each total by itself: stored alerts, requests suppressed or throttled, and
      duplicates. */
  lemma {:induction false} EachTotalMeans(cfg: Config, start: real, ops: seq<Op>)
    ensures var s := Run(cfg, start, ops).stats;
            && s.generated == Ended(cfg, start, ops, (o: Outcome) => o.Created? || o == Raised(AtPublish))
            && s.suppressed == Ended(cfg, start, ops, (o: Outcome) => o.SuppressedOut? || o.ThrottledOut?)
            && s.deduplicated == Ended(cfg, start, ops, (o: Outcome) => o.DuplicateOut?)
  {
    hide Step, Decide;
    if ops == [] {
    } else {
      EachTotalMeans(cfg, start, ops[..|ops| - 1]);
      TotalsStep(cfg, Run(cfg, start, ops[..|ops| - 1]), ops[|ops| - 1]);
    }
  }

  lemma TotalsStep(cfg: Config, st: State, op: Op)
    ensures var s, s' := st.stats, Step(cfg, st, op).stats;
            if op.Transition? then
              s'.generated == s.generated && s'.suppressed == s.suppressed && s'.deduplicated == s.deduplicated
            else
              var o := Decide(cfg, st, op);
              && s'.generated == s.generated + (if o.Created? || o == Raised(AtPublish) then 1 else 0)
              && s'.suppressed == s.suppressed + (if o.SuppressedOut? || o.ThrottledOut? then 1 else 0)
              && s'.deduplicated == s.deduplicated + (if o.DuplicateOut? then 1 else 0)
  {
    hide Decide, Key, AfterAsking, D.Ask, T.Step, RecordGenerated, Allowed, Move;
    if op.Generate? {
      GeneratedTotals(st.stats, op.req.severity, op.req.kind);
    }
  }

  // ----- resolution times over runs -----

  lemma StepSettled(cfg: Config, st: State, op: Op)
    requires !Reopens(cfg.table) && forall i :: 0 <= i < |st.alerts| ==> Settled(cfg.table, st.alerts[i])
    ensures forall i :: 0 <= i < |Step(cfg, st, op).alerts| ==> Settled(cfg.table, Step(cfg, st, op).alerts[i])
  {
    hide Settled, Reopens, Decide, Allowed, Move, AfterAsking, Key, D.Ask, T.Step, RecordGenerated, RecordStatusChange;
    match op {
      case Generate(req, _, _, _, _) =>
        NewIsSettled(cfg.table, Alert(req.account, req.rule, req.kind, req.severity, Open, None));
      case Transition(id, to, at) =>
        if Moves(cfg, st, id, to) {
          MoveKeepsSettled(cfg.table, st.alerts[id], to, at);
        }
    }
  }

  lemma {:induction false} RunSettled(cfg: Config, start: real, ops: seq<Op>)
    requires !Reopens(cfg.table)
    ensures forall i :: 0 <= i < |Run(cfg, start, ops).alerts| ==> Settled(cfg.table, Run(cfg, start, ops).alerts[i])
  {
    hide Settled, Reopens, Step;
    if ops == [] {
    } else {
      RunSettled(cfg, start, ops[..|ops| - 1]);
      StepSettled(cfg, Run(cfg, start, ops[..|ops| - 1]), ops[|ops| - 1]);
    }
  }

  /** Unless the table reopens alerts, exactly the resolved and false-positive
      ones have a resolution time, in every run. */
  lemma {:induction false} ResolutionTimesAreExact(cfg: Config, start: real, ops: seq<Op>)
    requires !Reopens(cfg.table)
    ensures ResolvedExactly(Run(cfg, start, ops).alerts)
  {
    hide Run, Reopens;
    RunSettled(cfg, start, ops);
  }

  lemma NeverCreated(cfg: Config, st: State, op: Op)
    requires op.Generate? && !CanGenerate(cfg)
    ensures !Exists(Decide(cfg, st, op))
  {
    hide Keep, D.IsDup, Key;
  }

  /** Without that there is never an alert. */
  lemma {:induction false} NeverGenerates(cfg: Config, start: real, ops: seq<Op>)
    requires !CanGenerate(cfg)
    ensures Run(cfg, start, ops).alerts == []
  {
    hide Decide, T.Step, D.Ask, AfterAsking, Key, RecordGenerated, RecordStatusChange, Allowed;
    if ops == [] {
    } else {
      var st, op := Run(cfg, start, ops[..|ops| - 1]), ops[|ops| - 1];
      NeverGenerates(cfg, start, ops[..|ops| - 1]);
      if op.Generate? {
        NeverCreated(cfg, st, op);
      }
    }
  }

  /** Under the shipped tables they are exact in every run. */
  lemma ShippedResolutionTimesAreExact(cfg: Config, start: real, ops: seq<Op>)
    requires cfg.table == map[] || cfg.table == SHIPPED
    ensures ResolvedExactly(Run(cfg, start, ops).alerts)
  {
    hide Run, Reopens, Absorbing;
    ShippedTableIsAbsorbing();
    AbsorbingNeverReopens(cfg.table);
    ResolutionTimesAreExact(cfg, start, ops);
  }

  /** One alert generated at the start and then moved, all at the same instant. */
  function MovingOps(req: Request, start: real, turns: seq<Turn>): seq<Op> {
    if turns == [] then [Generate(req, start, start, start, NoFault)]
    else MovingOps(req, start, turns[..|turns| - 1]) + [Transition(0, turns[|turns| - 1].to, start)]
  }

  lemma FirstRun(cfg: Config, start: real, req: Request)
    requires CanGenerate(cfg) && req.rule.None?
    ensures var ops := [Generate(req, start, start, start, NoFault)];
            && WellTimed(cfg, start, ops) && Run(cfg, start, ops).clock == start
            && Run(cfg, start, ops).alerts == [Alert(req.account, req.rule, req.kind, req.severity, Open, None)]
  {
    hide Decide, Key, AfterAsking, D.Ask, T.Step, RecordGenerated, Run, WellTimed;
    var op := Generate(req, start, start, start, NoFault);
    FirstIsAccepted(cfg, start, op);
    EmptyRun(cfg, start);
    RunStep(cfg, start, [], op);
    assert [] + [op] == [op];
  }

  lemma {:induction false} MovingRun(cfg: Config, start: real, req: Request, turns: seq<Turn>)
    requires CanGenerate(cfg) && req.rule.None?
    requires forall x :: x in turns ==> x.at == start
    requires Legal(cfg.table, Alert(req.account, req.rule, req.kind, req.severity, Open, None), turns)
    ensures var a := Alert(req.account, req.rule, req.kind, req.severity, Open, None);
            var ops := MovingOps(req, start, turns);
            && WellTimed(cfg, start, ops) && Run(cfg, start, ops).clock == start
            && Run(cfg, start, ops).alerts == [After(a, turns)]
  {
    hide Allowed, GenerateStep, Run, WellTimed, Move, RecordStatusChange;
    if turns == [] {
      FirstRun(cfg, start, req);
    } else {
      var init, turn := turns[..|turns| - 1], turns[|turns| - 1];
      assert turns == init + [turn];
      MovingRun(cfg, start, req, init);
      RunStep(cfg, start, MovingOps(req, start, init), Transition(0, turn.to, start));
    }
  }

  /** The exact condition over all runs: it fails as soon as the table reopens
      alerts and the limits let one through. */
  lemma ResolutionTimesAreExactIff(cfg: Config, start: real)
    ensures (forall ops :: WellTimed(cfg, start, ops) ==> ResolvedExactly(Run(cfg, start, ops).alerts))
            <==> !Reopens(cfg.table) || !CanGenerate(cfg)
  {
    hide Run, Reopens, WellTimed, Legal, After;
    if Reopens(cfg.table) && CanGenerate(cfg) {
      var req := Request("", None, RuleBased, Low);
      var a := Alert("", None, RuleBased, Low, Open, None);
      var turns, turn := WayToReopen(cfg.table, a, start);
      MovingRun(cfg, start, req, turns + [turn]);
      var alerts := Run(cfg, start, MovingOps(req, start, turns + [turn])).alerts;
      assert alerts[0].resolvedAt.Some? && !Terminal(alerts[0].status);
    } else {
      forall ops
        ensures ResolvedExactly(Run(cfg, start, ops).alerts)
      {
        if !CanGenerate(cfg) {
          NeverGenerates(cfg, start, ops);
        } else {
          ResolutionTimesAreExact(cfg, start, ops);
        }
      }
    }
  }

  // ----- the manager itself, on top of its engines -----

  class Suppression {
    const cooldown: real
    var accounts: map<string, real>

    constructor (seconds: real)
      ensures cooldown == seconds && accounts == map[]
    {
      cooldown, accounts := seconds, map[];
    }

    method Add(account: string, now: real)
      modifies this
      ensures accounts == old(accounts)[account := now]
    {
      accounts := accounts[account := now];
    }

    method Asks(account: string, now: real) returns (suppressed: bool)
      modifies this
      ensures suppressed == IsSuppressed(cooldown, old(accounts), account, now)
      ensures accounts == AfterAsking(cooldown, old(accounts), account, now)
    {
      if account !in accounts {
        return false;
      }
      if now - accounts[account] > cooldown {
        accounts := accounts - {account};
        return false;
      }
      return true;
    }
  }

  class Manager {
    const cfg: Config
    const dedup: D.Engine
    const suppression: Suppression
    const throttle: T.Engine
    var alerts: seq<Alert>
    var stats: Stats
    ghost var events: seq<Event>
    ghost var clock: real

    ghost predicate Valid()
      reads this, dedup, suppression, throttle
    {
      && throttle.Valid() && throttle.cfg == cfg.throttle
      && dedup.window == cfg.window && dedup.maxEntries == cfg.maxEntries && suppression.cooldown == cfg.cooldown
    }

    ghost function Abstract(): State
      reads this, dedup, suppression, throttle
    {
      State(suppression.accounts, dedup.Abstract(), throttle.state, alerts, stats, events, clock)
    }

    constructor (config: Config, ghost start: real)
      ensures Valid() && cfg == config && Abstract() == Init(start)
      ensures fresh(dedup) && fresh(suppression) && fresh(throttle)
    {
      cfg := config;
      dedup := new D.Engine(config.window, config.maxEntries);
      suppression := new Suppression(config.cooldown);
      throttle := new T.Engine(config.throttle);
      alerts, stats, events, clock := [], NO_STATS, [], start;
    }

    /** The three engines in sequence, and whatever they have recorded when the
        call ends or raises. */
    method GenerateAlert(req: Request, suppressAt: real, dedupAt: real, throttleAt: real, fault: Fault)
      returns (r: Outcome)
      requires Valid()
      modifies this, dedup, suppression, throttle
      ensures Valid()
      ensures r == Decide(cfg, old(Abstract()), Generate(req, suppressAt, dedupAt, throttleAt, fault))
      ensures Abstract() == Step(cfg, old(Abstract()), Generate(req, suppressAt, dedupAt, throttleAt, fault))
    {
      hide D.IsDup, D.Ask, D.Sound, T.Decide, T.AfterCheck, T.Stores, RecordGenerated, Key, IsSuppressed, AfterAsking;
      clock := throttleAt;
      if fault.AtEntry? {
        return Raised(AtEntry);
      }
      var suppressed := suppression.Asks(req.account, suppressAt);
      if suppressed {
        stats := stats.(suppressed := stats.suppressed + 1);
        return SuppressedOut;
      }
      if fault.AtKey? {
        return Raised(AtKey);
      }
      var key := Key(cfg, req);
      var duplicate := dedup.IsDuplicate(key, dedupAt);
      if duplicate {
        stats := stats.(deduplicated := stats.deduplicated + 1);
        return DuplicateOut;
      }
      var verdict := throttle.ShouldThrottle(req.account, req.rule, throttleAt);
      if !verdict.Accepted? {
        stats := stats.(suppressed := stats.suppressed + 1);
        return ThrottledOut;
      }
      if fault.AtBuild? {
        events := events + [Aborted(req.account, req.rule, throttleAt)];
        return Raised(AtBuild);
      }
      alerts := alerts + [Alert(req.account, req.rule, req.kind, req.severity, Open, None)];
      stats := RecordGenerated(stats, req.severity, req.kind);
      events := events + [Generated(key, req.account, req.rule, suppressAt, dedupAt, throttleAt)];
      if fault.AtPublish? {
        return Raised(AtPublish);
      }
      return Created(|alerts| - 1);
    }

    method TransitionAlert(id: nat, to: Status, at: real) returns (r: Option<Alert>)
      requires Valid()
      modifies this, suppression
      ensures Valid() && Abstract() == Step(cfg, old(Abstract()), Transition(id, to, at))
      ensures r.Some? <==> Moves(cfg, old(Abstract()), id, to)
      ensures r.Some? ==> id < |alerts| && r.value == alerts[id] && r.value.status == to
    {
      hide T.Stores;
      clock := at;
      if id >= |alerts| || to !in Allowed(cfg.table, alerts[id].status) {
        return None;
      }
      var a := alerts[id];
      alerts := alerts[id := Move(a, to, at)];
      if Terminal(to) {
        suppression.Add(a.account, at);
      }
      if to.Investigating? {
        suppression.Add(a.account, at);
      }
      stats := RecordStatusChange(stats, a.status, to);
      events := events + [Moved(a.account, to, at)];
      return Some(alerts[id]);
    }
  }
}
