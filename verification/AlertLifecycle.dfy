/** Alerts, their lifecycle and the statistics kept about them. */
module AlertLifecycle {
  import opened Options

  datatype Severity = Low | Medium | High | Critical

  datatype Kind = RuleBased | Anomaly | MlScore | Ensemble

  function KindText(k: Kind): (text: string)
    ensures ':' !in text
  {
    match k
    case RuleBased => "rule_based"
    case Anomaly => "anomaly"
    case MlScore => "ml_score"
    case Ensemble => "ensemble"
  }

  datatype Status = Open | Investigating | Resolved | FalsePositive

  datatype Alert = Alert(account: string, rule: Option<string>, kind: Kind, severity: Severity, status: Status,
                         resolvedAt: Option<real>)

  predicate Terminal(s: Status) { s.Resolved? || s.FalsePositive? }

  // ----- transitions -----

  type Table = map<Status, set<Status>>

  function DefaultTransitions(s: Status): set<Status> {
    match s
    case Open => {Investigating, Resolved, FalsePositive}
    case Investigating => {Resolved, FalsePositive, Open}
    case _ => {}
  }

  /** A configured row applies only when it is not empty. */
  function Allowed(table: Table, s: Status): set<Status> {
    if s in table && table[s] != {} then table[s] else DefaultTransitions(s)
  }

  /** A configured row that is not empty decides alone. Otherwise an open alert can
      be investigated or ended, an investigated one ended or put back, and an
      ended one nothing. */
  lemma AllowedMeans(table: Table, s: Status, to: Status)
    ensures to in Allowed(table, s) <==>
            if s in table && table[s] != {} then to in table[s]
            else (s == Open && to != Open) || (s == Investigating && to != Investigating)
  {
  }

  function Move(a: Alert, to: Status, at: real): Alert {
    a.(status := to, resolvedAt := if Terminal(to) then Some(at) else a.resolvedAt)
  }

  ghost predicate ResolvedExactly(alerts: seq<Alert>) {
    forall i :: 0 <= i < |alerts| ==> (alerts[i].resolvedAt.Some? <==> Terminal(alerts[i].status))
  }

  // ----- when resolution times are exact -----

  /** One move of an alert. */
  datatype Turn = Turn(to: Status, at: real)

  /** The alert after a sequence of moves. */
  function After(a: Alert, turns: seq<Turn>): Alert {
    if turns == [] then a else Move(After(a, turns[..|turns| - 1]), turns[|turns| - 1].to, turns[|turns| - 1].at)
  }

  /** The table allows each move in turn. */
  predicate Legal(table: Table, a: Alert, turns: seq<Turn>) {
    turns == [] || (Legal(table, a, turns[..|turns| - 1])
                    && turns[|turns| - 1].to in Allowed(table, After(a, turns[..|turns| - 1]).status))
  }

  /** An alert as it is generated. */
  predicate New(a: Alert) { a.status.Open? && a.resolvedAt.None? }

  /** Open, and investigating if an open alert can become it. */
  predicate Early(table: Table, s: Status) { s.Open? || (s.Investigating? && s in Allowed(table, Open)) }

  /** A terminal status that an alert can take first. */
  predicate FirstEnd(table: Table, t: Status) {
    Terminal(t) && (t in Allowed(table, Open) || (Early(table, Investigating) && t in Allowed(table, Investigating)))
  }

  /** A terminal status that an alert can take first, or right after such a one. */
  predicate End(table: Table, t: Status) {
    FirstEnd(table, t) || (Terminal(t) && exists u :: FirstEnd(table, u) && t in Allowed(table, u))
  }

  /** The table lets some alert leave the terminal statuses. */
  predicate Reopens(table: Table) {
    exists t, s :: End(table, t) && s in Allowed(table, t) && !Terminal(s)
  }

  /** Where an alert can be, and with which resolution time, when none reopens. */
  predicate Settled(table: Table, a: Alert) {
    if a.resolvedAt.None? then Early(table, a.status) else End(table, a.status)
  }

  lemma MoveKeepsSettled(table: Table, a: Alert, to: Status, at: real)
    requires !Reopens(table) && Settled(table, a) && to in Allowed(table, a.status)
    ensures Settled(table, Move(a, to, at))
  {
    hide Allowed;
    if a.resolvedAt.Some? {
      assert Terminal(to);
      if !FirstEnd(table, a.status) && to != a.status {
        var u :| FirstEnd(table, u) && a.status in Allowed(table, u);
        assert to == u;
      }
    }
  }

  lemma {:induction false} LegalMovesSettle(table: Table, a: Alert, turns: seq<Turn>)
    requires !Reopens(table) && New(a) && Legal(table, a, turns)
    ensures Settled(table, After(a, turns))
  {
    hide Reopens, Settled, Allowed;
    if turns == [] {
      NewIsSettled(table, a);
    } else {
      LegalMovesSettle(table, a, turns[..|turns| - 1]);
      MoveKeepsSettled(table, After(a, turns[..|turns| - 1]), turns[|turns| - 1].to, turns[|turns| - 1].at);
    }
  }

  lemma NewIsSettled(table: Table, a: Alert)
    requires New(a)
    ensures Settled(table, a)
  {
  }

  lemma LegalStep(table: Table, a: Alert, turns: seq<Turn>, turn: Turn)
    requires Legal(table, a, turns) && turn.to in Allowed(table, After(a, turns).status)
    ensures Legal(table, a, turns + [turn]) && After(a, turns + [turn]) == Move(After(a, turns), turn.to, turn.at)
  {
    hide Allowed;
    assert (turns + [turn])[..|turns + [turn]| - 1] == turns;
  }

  /** Moves that take a new alert to a terminal status it can take first. */
  lemma WayToFirstEnd(table: Table, a: Alert, t: Status, at: real) returns (turns: seq<Turn>)
    requires New(a) && FirstEnd(table, t)
    ensures Legal(table, a, turns) && After(a, turns).status == t && After(a, turns).resolvedAt.Some?
    ensures forall turn :: turn in turns ==> turn.at == at
  {
    hide Allowed;
    turns := [];
    if t !in Allowed(table, Open) {
      LegalStep(table, a, turns, Turn(Investigating, at));
      turns := turns + [Turn(Investigating, at)];
    }
    LegalStep(table, a, turns, Turn(t, at));
    turns := turns + [Turn(t, at)];
  }

  /** A table that reopens alerts has moves that do it, all at once. */
  lemma WayToReopen(table: Table, a: Alert, at: real) returns (turns: seq<Turn>, turn: Turn)
    requires New(a) && Reopens(table)
    ensures Legal(table, a, turns) && Terminal(After(a, turns).status)
    ensures Legal(table, a, turns + [turn]) && !Terminal(turn.to)
    ensures After(a, turns + [turn]).resolvedAt.Some? && After(a, turns + [turn]).status == turn.to
    ensures forall x :: x in turns + [turn] ==> x.at == at
  {
    hide Allowed;
    var t, s :| End(table, t) && s in Allowed(table, t) && !Terminal(s);
    if FirstEnd(table, t) {
      turns := WayToFirstEnd(table, a, t, at);
    } else {
      var u :| FirstEnd(table, u) && t in Allowed(table, u);
      turns := WayToFirstEnd(table, a, u, at);
      LegalStep(table, a, turns, Turn(t, at));
      turns := turns + [Turn(t, at)];
    }
    turn := Turn(s, at);
    LegalStep(table, a, turns, turn);
  }

  /** The exact condition on the table: after every sequence of moves from a new
      alert exactly a resolved or false-positive one has a resolution time, if
      and only if the table reopens none. */
  lemma ResolvedExactlyIff(table: Table, a: Alert)
    requires New(a)
    ensures (forall turns :: Legal(table, a, turns) ==> ResolvedExactly([After(a, turns)])) <==> !Reopens(table)
  {
    hide Legal, Reopens, After;
    if Reopens(table) {
      var turns, turn := WayToReopen(table, a, 0.0);
      var b := After(a, turns + [turn]);
      assert [b][0].resolvedAt.Some?;
      assert !ResolvedExactly([b]);
    } else {
      forall turns | Legal(table, a, turns)
        ensures ResolvedExactly([After(a, turns)])
      {
        LegalMovesSettle(table, a, turns);
      }
    }
  }

  /** The condition says that a terminal status an alert can get to, by however
      many moves, allows one that is not terminal. */
  lemma ReopensIffReachable(table: Table, a: Alert)
    requires New(a)
    ensures Reopens(table) <==>
            exists turns, s :: Legal(table, a, turns) && Terminal(After(a, turns).status)
                               && s in Allowed(table, After(a, turns).status) && !Terminal(s)
  {
    hide Allowed, Reopens;
    if Reopens(table) {
      var turns, turn := WayToReopen(table, a, 0.0);
      assert (turns + [turn])[..|turns + [turn]| - 1] == turns;
      assert turn.to in Allowed(table, After(a, turns).status);
    } else {
      forall turns, s | Legal(table, a, turns) && Terminal(After(a, turns).status)
                        && s in Allowed(table, After(a, turns).status)
        ensures Terminal(s)
      {
        LegalMovesSettle(table, a, turns);
        SettledStaysTerminal(table, After(a, turns), s);
      }
    }
  }

  lemma SettledStaysTerminal(table: Table, a: Alert, s: Status)
    requires !Reopens(table) && Settled(table, a) && Terminal(a.status) && s in Allowed(table, a.status)
    ensures Terminal(s)
  {
  }

  /** No transition at all leads out of a terminal status. */
  ghost predicate Absorbing(table: Table) {
    forall s, t :: Terminal(s) && t in Allowed(table, s) ==> Terminal(t)
  }

  lemma AbsorbingNeverReopens(table: Table)
    requires Absorbing(table)
    ensures !Reopens(table)
  {
  }

  const SHIPPED: Table := map[Open := {Investigating, Resolved, FalsePositive},
                              Investigating := {Resolved, FalsePositive, Open},
                              Resolved := {}, FalsePositive := {}]

  /** The shipped configuration spells out the defaults, and both are absorbing. */
  lemma ShippedTableIsAbsorbing()
    ensures Absorbing(map[])
    ensures Absorbing(SHIPPED)
  {
  }

  /** A way out of a terminal status that no alert takes does no harm. */
  lemma UnusedReopeningIsHarmless()
    ensures var table := map[Open := {Investigating}, Investigating := {Open}, Resolved := {Open}];
            !Absorbing(table) && !Reopens(table)
  {
    var table := map[Open := {Investigating}, Investigating := {Open}, Resolved := {Open}];
    assert Allowed(table, Open) == {Investigating} && Allowed(table, Investigating) == {Open};
    assert Open in Allowed(table, Resolved) && Terminal(Resolved) && !Terminal(Open);
    assert forall t :: !FirstEnd(table, t);
  }

  /** With a way back from resolved, an open alert has a resolution time. */
  lemma ReopeningKeepsResolution(a: Alert, at: real)
    requires New(a)
    ensures var table, turns := map[Resolved := {Open}], [Turn(Resolved, at), Turn(Open, at)];
            Legal(table, a, turns) && After(a, turns).status.Open? && After(a, turns).resolvedAt == Some(at)
  {
    var table := map[Resolved := {Open}];
    LegalStep(table, a, [], Turn(Resolved, at));
    LegalStep(table, a, [Turn(Resolved, at)], Turn(Open, at));
    assert [] + [Turn(Resolved, at)] == [Turn(Resolved, at)];
    assert [Turn(Resolved, at)] + [Turn(Open, at)] == [Turn(Resolved, at), Turn(Open, at)];
  }

  // ----- statistics -----

  datatype Stats = Stats(generated: nat, suppressed: nat, deduplicated: nat,
                         bySeverity: map<Severity, int>, byStatus: map<Status, int>, byKind: map<Kind, int>)

  const NO_STATS := Stats(0, 0, 0,
                          map[Low := 0, Medium := 0, High := 0, Critical := 0],
                          map[Open := 0, Investigating := 0, Resolved := 0, FalsePositive := 0],
                          map[RuleBased := 0, Anomaly := 0, MlScore := 0, Ensemble := 0])

  function Get<K>(m: map<K, int>, k: K): int { if k in m then m[k] else 0 }

  function RecordGenerated(s: Stats, severity: Severity, kind: Kind): Stats {
    s.(generated := s.generated + 1,
       bySeverity := s.bySeverity[severity := Get(s.bySeverity, severity) + 1],
       byKind := s.byKind[kind := Get(s.byKind, kind) + 1],
       byStatus := s.byStatus[Open := Get(s.byStatus, Open) + 1])
  }

  /** The old status is counted down, but never below zero. */
  function RecordStatusChange(s: Stats, from: Status, to: Status): Stats {
    var n := Get(s.byStatus, from) - 1;
    var down := s.byStatus[from := if n >= 0 then n else 0];
    s.(byStatus := down[to := Get(down, to) + 1])
  }

  /** How many alerts satisfy `p`. */
  function Tally(alerts: seq<Alert>, p: Alert -> bool): nat {
    if alerts == [] then 0
    else Tally(alerts[..|alerts| - 1], p) + (if p(alerts[|alerts| - 1]) then 1 else 0)
  }

  function HasStatus(s: Status): Alert -> bool { (a: Alert) => a.status == s }
  function HasSeverity(s: Severity): Alert -> bool { (a: Alert) => a.severity == s }
  function HasKind(k: Kind): Alert -> bool { (a: Alert) => a.kind == k }

  /** The counters are the true counts of the stored alerts. */
  ghost predicate Accurate(s: Stats, alerts: seq<Alert>) {
    && s.generated == |alerts|
    && (forall x :: Get(s.byStatus, x) == Tally(alerts, HasStatus(x)))
    && (forall x :: Get(s.bySeverity, x) == Tally(alerts, HasSeverity(x)))
    && (forall x :: Get(s.byKind, x) == Tally(alerts, HasKind(x)))
  }

  lemma TallyAppend(alerts: seq<Alert>, a: Alert, p: Alert -> bool)
    ensures Tally(alerts + [a], p) == Tally(alerts, p) + (if p(a) then 1 else 0)
  {
    assert (alerts + [a])[..|alerts + [a]| - 1] == alerts;
  }

  lemma {:induction false} TallyUpdate(alerts: seq<Alert>, id: nat, a: Alert, p: Alert -> bool)
    requires id < |alerts|
    ensures Tally(alerts[id := a], p) == Tally(alerts, p) - (if p(alerts[id]) then 1 else 0) + (if p(a) then 1 else 0)
    ensures p(alerts[id]) ==> Tally(alerts, p) >= 1
  {
    var n := |alerts| - 1;
    if id == n {
      assert alerts[id := a][..n] == alerts[..n];
    } else {
      TallyUpdate(alerts[..n], id, a, p);
      assert alerts[id := a][..n] == alerts[..n][id := a];
    }
  }

  /** Every alert is counted once under each heading. */
  lemma {:induction false} TotalsAgree(alerts: seq<Alert>)
    ensures Tally(alerts, HasStatus(Open)) + Tally(alerts, HasStatus(Investigating))
            + Tally(alerts, HasStatus(Resolved)) + Tally(alerts, HasStatus(FalsePositive)) == |alerts|
    ensures Tally(alerts, HasSeverity(Low)) + Tally(alerts, HasSeverity(Medium))
            + Tally(alerts, HasSeverity(High)) + Tally(alerts, HasSeverity(Critical)) == |alerts|
    ensures Tally(alerts, HasKind(RuleBased)) + Tally(alerts, HasKind(Anomaly))
            + Tally(alerts, HasKind(MlScore)) + Tally(alerts, HasKind(Ensemble)) == |alerts|
  {
    if alerts == [] {
    } else {
      TotalsAgree(alerts[..|alerts| - 1]);
      var a := alerts[|alerts| - 1];
      match a.status { case Open => case Investigating => case Resolved => case FalsePositive => }
      match a.severity { case Low => case Medium => case High => case Critical => }
      match a.kind { case RuleBased => case Anomaly => case MlScore => case Ensemble => }
    }
  }

  function StatusTotal(s: Stats): int {
    Get(s.byStatus, Open) + Get(s.byStatus, Investigating) + Get(s.byStatus, Resolved) + Get(s.byStatus, FalsePositive)
  }

  function SeverityTotal(s: Stats): int {
    Get(s.bySeverity, Low) + Get(s.bySeverity, Medium) + Get(s.bySeverity, High) + Get(s.bySeverity, Critical)
  }

  function KindTotal(s: Stats): int {
    Get(s.byKind, RuleBased) + Get(s.byKind, Anomaly) + Get(s.byKind, MlScore) + Get(s.byKind, Ensemble)
  }

  lemma AccurateTotals(s: Stats, alerts: seq<Alert>)
    requires Accurate(s, alerts)
    ensures StatusTotal(s) == SeverityTotal(s) == KindTotal(s) == s.generated == |alerts|
  {
    hide Tally;
    TotalsAgree(alerts);
  }

  lemma GeneratedStaysAccurate(s: Stats, alerts: seq<Alert>, a: Alert)
    requires Accurate(s, alerts) && a.status == Open
    ensures Accurate(RecordGenerated(s, a.severity, a.kind), alerts + [a])
  {
    hide Tally;
    forall x
      ensures Tally(alerts + [a], HasStatus(x)) == Tally(alerts, HasStatus(x)) + (if a.status == x then 1 else 0)
    {
      TallyAppend(alerts, a, HasStatus(x));
    }
    forall x
      ensures Tally(alerts + [a], HasSeverity(x)) == Tally(alerts, HasSeverity(x)) + (if a.severity == x then 1 else 0)
    {
      TallyAppend(alerts, a, HasSeverity(x));
    }
    forall x
      ensures Tally(alerts + [a], HasKind(x)) == Tally(alerts, HasKind(x)) + (if a.kind == x then 1 else 0)
    {
      TallyAppend(alerts, a, HasKind(x));
    }
  }

  /** A status change keeps the counters true, and the clamp at zero plays no part. */
  lemma ChangeStaysAccurate(s: Stats, alerts: seq<Alert>, id: nat, to: Status, at: real)
    requires Accurate(s, alerts) && id < |alerts|
    ensures Accurate(RecordStatusChange(s, alerts[id].status, to), alerts[id := Move(alerts[id], to, at)])
    ensures Get(s.byStatus, alerts[id].status) >= 1
  {
    hide Tally;
    var a, b := alerts[id], Move(alerts[id], to, at);
    forall x
      ensures Tally(alerts[id := b], HasStatus(x))
              == Tally(alerts, HasStatus(x)) - (if a.status == x then 1 else 0) + (if to == x then 1 else 0)
      ensures a.status == x ==> Tally(alerts, HasStatus(x)) >= 1
    {
      TallyUpdate(alerts, id, b, HasStatus(x));
    }
    forall x
      ensures Tally(alerts[id := b], HasSeverity(x)) == Tally(alerts, HasSeverity(x))
    {
      TallyUpdate(alerts, id, b, HasSeverity(x));
    }
    forall x
      ensures Tally(alerts[id := b], HasKind(x)) == Tally(alerts, HasKind(x))
    {
      TallyUpdate(alerts, id, b, HasKind(x));
    }
  }

  lemma OtherCountersAccurate(s: Stats, alerts: seq<Alert>, n: nat)
    requires Accurate(s, alerts)
    ensures Accurate(s.(suppressed := n), alerts) && Accurate(s.(deduplicated := n), alerts)
  {
  }

  lemma StartsAccurate()
    ensures Accurate(NO_STATS, [])
  {
  }
}
