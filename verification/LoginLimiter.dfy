/** The dashboard's login limiter: two coupled sliding windows, one over all
    attempts and one per known user, and a retry-after answer. */
module LoginLimiter {
  import opened Windows

  const WINDOW: real := 60.0
  const MAX_ALL: int := 30
  const MAX_USER: int := 5

  /** An admitted attempt. */
  datatype Attempt = Attempt(time: real, user: string)

  /** One call of `retry_after` with the clock reading it takes. */
  datatype Call = Call(user: string, now: real)

  function Ceil(x: real): (n: int)
    ensures n as real - 1.0 < x <= n as real
  {
    -((-x).Floor)
  }

  function Max(a: real, b: real): real { if a >= b then a else b }

  // ----- the limiter as a machine, under any clock readings -----

  /** The deques with what was popped from them, and all attempts admitted. */
  datatype State = State(all: Ledger, own: map<string, Ledger>, log: seq<Attempt>)

  const INIT := State(NO_ENTRIES, map[], [])

  /** Pops from the front what is no later than `cut`; a later one shelters
      everything behind it. */
  function DropUntil(ts: seq<real>, cut: real): seq<real> {
    if ts != [] && ts[0] <= cut then DropUntil(ts[1..], cut) else ts
  }

  function Dropped(ts: seq<real>, cut: real): seq<real> {
    if ts != [] && ts[0] <= cut then [ts[0]] + Dropped(ts[1..], cut) else []
  }

  function Pop(l: Ledger, cut: real): Ledger { Ledger(DropUntil(l.held, cut), l.gone + Dropped(l.held, cut)) }

  function LedgerOf(m: map<string, Ledger>, user: string): Ledger { if user in m then m[user] else NO_ENTRIES }

  function AllAt(st: State, now: real): Ledger { Pop(st.all, now - WINDOW) }
  function OwnAt(st: State, user: string, now: real): Ledger { Pop(LedgerOf(st.own, user), now - WINDOW) }

  function SlotAt(held: seq<real>, cap: int, now: real): real
    requires cap > 0
  {
    if |held| >= cap then held[0] + WINDOW else now
  }

  function Until(users: set<string>, st: State, user: string, now: real): real {
    Max(SlotAt(AllAt(st, now).held, MAX_ALL, now),
        if user in users then SlotAt(OwnAt(st, user, now).held, MAX_USER, now) else now)
  }

  function Reply(users: set<string>, st: State, user: string, now: real): int {
    var until := Until(users, st, user, now);
    if until > now then Ceil(until - now) else 0
  }

  function Respond(users: set<string>, st: State, call: Call): State {
    var all, own := AllAt(st, call.now), OwnAt(st, call.user, call.now);
    if Reply(users, st, call.user, call.now) == 0
    then State(Push(all, call.now), if call.user in users then st.own[call.user := Push(own, call.now)] else st.own,
               st.log + [Attempt(call.now, call.user)])
    else State(all, if call.user in users then st.own[call.user := own] else st.own, st.log)
  }

  function Run(users: set<string>, calls: seq<Call>): State {
    if calls == [] then INIT else Respond(users, Run(users, calls[..|calls| - 1]), calls[|calls| - 1])
  }

  predicate Ordered(calls: seq<Call>) {
    forall i, j :: 0 <= i < j < |calls| ==> calls[i].now <= calls[j].now
  }

  // ----- the reference: answers taken from the complete log -----

  function AllTimes(log: seq<Attempt>): (ts: seq<real>)
    ensures |ts| == |log| && forall i :: 0 <= i < |log| ==> ts[i] == log[i].time
  {
    seq(|log|, i requires 0 <= i < |log| => log[i].time)
  }

  function ByUser(user: string): Attempt -> bool {
    (a: Attempt) => a.user == user
  }

  function UserTimes(log: seq<Attempt>, user: string): seq<real> {
    AllTimes(Keep(log, ByUser(user)))
  }

  /** The earliest instant at which a window that holds `cap` attempts frees a
      slot, or `now` when it has one. */
  function FreeAt(ts: seq<real>, cap: int, now: real): real
    requires cap > 0
  {
    var recent := Keep(ts, Later(now - WINDOW));
    if |recent| >= cap then recent[0] + WINDOW else now
  }

  function BlockedUntil(users: set<string>, log: seq<Attempt>, user: string, now: real): real {
    Max(FreeAt(AllTimes(log), MAX_ALL, now),
        if user in users then FreeAt(UserTimes(log, user), MAX_USER, now) else now)
  }

  function RetryAfter(users: set<string>, log: seq<Attempt>, user: string, now: real): int {
    var until := BlockedUntil(users, log, user, now);
    if until > now then Ceil(until - now) else 0
  }

  // ----- small facts -----

  lemma TimesAppend(log: seq<Attempt>, a: Attempt, user: string)
    ensures AllTimes(log + [a]) == AllTimes(log) + [a.time]
    ensures UserTimes(log + [a], user) == UserTimes(log, user) + (if a.user == user then [a.time] else [])
  {
    KeepAppend(log, a, ByUser(user));
  }

  /** A full window frees its first slot strictly in the future. */
  lemma FreeAtExact(ts: seq<real>, cap: int, now: real)
    requires cap > 0
    ensures FreeAt(ts, cap, now) > now <==> |Keep(ts, Later(now - WINDOW))| >= cap
    ensures FreeAt(ts, cap, now) >= now
  {
    var recent := Keep(ts, Later(now - WINDOW));
    if |recent| >= cap {
      KeepMember(ts, Later(now - WINDOW), recent[0]);
    }
  }

  lemma AdmitsExact(users: set<string>, log: seq<Attempt>, user: string, now: real)
    ensures RetryAfter(users, log, user, now) >= 0
    ensures RetryAfter(users, log, user, now) == 0 <==>
            && |Keep(AllTimes(log), Later(now - WINDOW))| < MAX_ALL
            && (user in users ==> |Keep(UserTimes(log, user), Later(now - WINDOW))| < MAX_USER)
  {
    FreeAtExact(AllTimes(log), MAX_ALL, now);
    FreeAtExact(UserTimes(log, user), MAX_USER, now);
  }

  lemma AdmittedMetered(ts: seq<real>, cap: int, x: real, admitted: bool)
    requires Metered(ts, WINDOW, cap)
    requires admitted ==> |Keep(ts, Later(x - WINDOW))| < cap
    ensures Metered(ts + (if admitted then [x] else []), WINDOW, cap)
  {
    if admitted {
      MeteredAppend(ts, x, WINDOW, cap);
    } else {
      assert ts + [] == ts;
    }
  }

  lemma SortedAppend(ts: seq<real>, x: real)
    requires Sorted(ts) && forall t :: t in ts ==> t <= x
    ensures Sorted(ts + [x]) && forall t :: t in ts + [x] ==> t <= x
  {
    forall i, j | 0 <= i < j < |ts + [x]|
      ensures (ts + [x])[i] <= (ts + [x])[j]
    {
      assert ts[i] in ts;
    }
  }

  lemma PrefixTimes(log: seq<Attempt>, longer: seq<Attempt>, user: string, cut: real)
    requires log <= longer
    ensures |Keep(AllTimes(log), Later(cut))| <= |Keep(AllTimes(longer), Later(cut))|
    ensures |Keep(UserTimes(log, user), Later(cut))| <= |Keep(UserTimes(longer, user), Later(cut))|
  {
    var rest := longer[|log|..];
    assert longer == log + rest;
    assert AllTimes(longer) == AllTimes(log) + AllTimes(rest);
    KeepConcat(AllTimes(log), AllTimes(rest), Later(cut));
    KeepConcat(log, rest, ByUser(user));
    assert UserTimes(longer, user) == UserTimes(log, user) + UserTimes(rest, user);
    KeepConcat(UserTimes(log, user), UserTimes(rest, user), Later(cut));
  }

  /** A full window stays full until its oldest attempt ages out. */
  lemma StaysFull(ts: seq<real>, cap: int, now: real, t: real)
    requires Sorted(ts) && cap > 0
    requires now <= t < FreeAt(ts, cap, now)
    ensures |Keep(ts, Later(t - WINDOW))| >= cap
  {
    var recent := Keep(ts, Later(now - WINDOW));
    KeepSorted(ts, Later(now - WINDOW));
    KeepKeep(ts, Later(now - WINDOW), Later(t - WINDOW));
    forall x | x in recent
      ensures Later(t - WINDOW)(x)
    {
      var i :| 0 <= i < |recent| && recent[i] == x;
      assert recent[0] <= recent[i];
    }
    KeepAll(recent, Later(t - WINDOW));
  }

  /** A metered window has a free slot from `FreeAt` on. */
  lemma HasSlot(ts: seq<real>, cap: int, now: real, t: real)
    requires Metered(ts, WINDOW, cap) && cap > 0
    requires forall x :: x in ts ==> x <= now
    requires t >= FreeAt(ts, cap, now)
    ensures |Keep(ts, Later(t - WINDOW))| < cap
  {
    var recent := Keep(ts, Later(now - WINDOW));
    FreeAtExact(ts, cap, now);
    KeepKeep(ts, Later(now - WINDOW), Later(t - WINDOW));
    MeteredCaps(ts, WINDOW, cap, now);
    KeepFewer(ts, Later(now - WINDOW), Within(now - WINDOW, now));
    if |recent| >= cap {
      assert recent == [recent[0]] + recent[1..];
      KeepConcat([recent[0]], recent[1..], Later(t - WINDOW));
      KeepNone([recent[0]], Later(t - WINDOW));
    }
  }

  // ----- what the deques hold -----

  lemma {:induction false} DropSplits(ts: seq<real>, cut: real)
    ensures ts == Dropped(ts, cut) + DropUntil(ts, cut)
    ensures forall t :: t in Dropped(ts, cut) ==> t <= cut
    ensures DropUntil(ts, cut) != [] ==> DropUntil(ts, cut)[0] > cut
  {
    if ts == [] {
    } else if ts[0] <= cut {
      DropSplits(ts[1..], cut);
    }
  }

  /** Some timestamp outside the window stands behind one inside it. */
  ghost predicate Shelters(ts: seq<real>, cut: real) {
    exists i, j :: 0 <= i < j < |ts| && ts[i] > cut && ts[j] <= cut
  }

  ghost predicate HasEarlier(ts: seq<real>, cut: real) { exists i :: 0 <= i < |ts| && ts[i] <= cut }

  lemma ShelterTail(ts: seq<real>, cut: real)
    requires ts != []
    ensures ts[0] <= cut ==> (Shelters(ts, cut) <==> Shelters(ts[1..], cut))
    ensures ts[0] > cut ==> (Shelters(ts, cut) <==> HasEarlier(ts, cut))
  {
    var rest := ts[1..];
    if ts[0] <= cut && Shelters(ts, cut) {
      var i, j :| 0 <= i < j < |ts| && ts[i] > cut && ts[j] <= cut;
      assert rest[i - 1] > cut && rest[j - 1] <= cut;
    }
    if ts[0] <= cut && Shelters(rest, cut) {
      var i, j :| 0 <= i < j < |rest| && rest[i] > cut && rest[j] <= cut;
      assert ts[i + 1] > cut && ts[j + 1] <= cut;
    }
  }

  lemma {:induction false} ShelterIff(ts: seq<real>, cut: real)
    ensures Shelters(ts, cut) <==> HasEarlier(DropUntil(ts, cut), cut)
  {
    hide Shelters, HasEarlier;
    if ts == [] {
      NothingSheltered(cut);
    } else {
      ShelterTail(ts, cut);
      if ts[0] <= cut {
        ShelterIff(ts[1..], cut);
      }
    }
  }

  lemma NothingSheltered(cut: real)
    ensures !Shelters([], cut) && !HasEarlier([], cut)
  {
  }

  /** Popping leaves exactly the window of the complete list if and only if
      nothing popped before belongs to it and nothing older is sheltered. */
  lemma WindowIff(l: Ledger, cut: real)
    ensures Pop(l, cut).held == Keep(l.gone + l.held, Later(cut)) <==> NoneGone(l, cut) && !Shelters(l.held, cut)
    ensures NoneGone(l, cut) ==> |Keep(l.gone + l.held, Later(cut))| <= |Pop(l, cut).held|
  {
    hide Keep, DropUntil, Dropped, Shelters;
    var rest := DropUntil(l.held, cut);
    DropSplits(l.held, cut);
    ShelterIff(l.held, cut);
    KeepConcat(l.gone, l.held, Later(cut));
    KeepConcat(Dropped(l.held, cut), rest, Later(cut));
    KeepNone(Dropped(l.held, cut), Later(cut));
    assert [] + Keep(rest, Later(cut)) == Keep(rest, Later(cut));
    if NoneGone(l, cut) {
      KeepNone(l.gone, Later(cut));
    } else {
      var t :| t in l.gone && t > cut;
      KeepMember(l.gone, Later(cut), t);
    }
    if HasEarlier(rest, cut) {
      var i :| 0 <= i < |rest| && rest[i] <= cut;
      KeepMember(l.gone + l.held, Later(cut), rest[i]);
      assert rest[i] in rest;
    } else {
      KeepAll(rest, Later(cut));
    }
  }

  /** Each deque, with what was popped from it, is its part of the log. */
  ghost predicate Covered(users: set<string>, st: State) {
    && AllTimes(st.log) == st.all.gone + st.all.held
    && (forall u :: u in users ==> UserTimes(st.log, u) == LedgerOf(st.own, u).gone + LedgerOf(st.own, u).held)
  }

  lemma PopCovers(l: Ledger, cut: real)
    ensures Pop(l, cut).gone + Pop(l, cut).held == l.gone + l.held
  {
    DropSplits(l.held, cut);
    assert (l.gone + Dropped(l.held, cut)) + DropUntil(l.held, cut)
           == l.gone + (Dropped(l.held, cut) + DropUntil(l.held, cut));
  }

  lemma PushCovers(l: Ledger, full: seq<real>, t: real)
    requires full == l.gone + l.held
    ensures full + [t] == Push(l, t).gone + Push(l, t).held
  {
  }

  lemma RespondCovered(users: set<string>, st: State, call: Call)
    requires Covered(users, st)
    ensures Covered(users, Respond(users, st, call))
  {
    hide Pop, Push, Reply, AllTimes, UserTimes;
    var after, a := Respond(users, st, call), Attempt(call.now, call.user);
    PopCovers(st.all, call.now - WINDOW);
    PushCovers(AllAt(st, call.now), AllTimes(st.log), call.now);
    TimesAppend(st.log, a, call.user);
    forall u | u in users
      ensures UserTimes(after.log, u) == LedgerOf(after.own, u).gone + LedgerOf(after.own, u).held
    {
      TimesAppend(st.log, a, u);
      assert UserTimes(st.log, u) + [] == UserTimes(st.log, u);
      if u == call.user {
        PopCovers(LedgerOf(st.own, u), call.now - WINDOW);
        PushCovers(OwnAt(st, u, call.now), UserTimes(st.log, u), call.now);
      }
    }
  }

  lemma {:induction false} RunCovered(users: set<string>, calls: seq<Call>)
    ensures Covered(users, Run(users, calls))
  {
    hide Covered, Respond;
    if calls == [] {
      InitCovered(users);
    } else {
      RunCovered(users, calls[..|calls| - 1]);
      RespondCovered(users, Run(users, calls[..|calls| - 1]), calls[|calls| - 1]);
    }
  }

  lemma InitCovered(users: set<string>)
    ensures Covered(users, INIT)
  {
    assert AllTimes([]) == [];
  }

  /** In every run and at every reading, a popped deque is the window of all
      attempts admitted if and only if nothing popped earlier is still inside
      it and nothing older stands behind a newer one. */
  lemma DequesAreWindowsIff(users: set<string>, calls: seq<Call>, user: string, now: real)
    ensures var st, cut := Run(users, calls), now - WINDOW;
            && (AllAt(st, now).held == Keep(AllTimes(st.log), Later(cut))
                <==> NoneGone(st.all, cut) && !Shelters(st.all.held, cut))
            && (user in users ==>
                  var l := LedgerOf(st.own, user);
                  OwnAt(st, user, now).held == Keep(UserTimes(st.log, user), Later(cut))
                  <==> NoneGone(l, cut) && !Shelters(l.held, cut))
  {
    hide Run, Pop, NoneGone, Shelters, Keep;
    RunCovered(users, calls);
    WindowIff(Run(users, calls).all, now - WINDOW);
    WindowIff(LedgerOf(Run(users, calls).own, user), now - WINDOW);
  }

  /** Nothing popped is inside the window of the call. */
  predicate NothingLost(users: set<string>, st: State, user: string, now: real) {
    NoneGone(st.all, now - WINDOW) && (user in users ==> NoneGone(LedgerOf(st.own, user), now - WINDOW))
  }

  /** And nothing older stands behind something inside it. */
  ghost predicate Intact(users: set<string>, st: State, user: string, now: real) {
    && NothingLost(users, st, user, now) && !Shelters(st.all.held, now - WINDOW)
    && (user in users ==> !Shelters(LedgerOf(st.own, user).held, now - WINDOW))
  }

  lemma IntactAnswers(users: set<string>, st: State, user: string, now: real)
    requires Covered(users, st) && Intact(users, st, user, now)
    ensures Until(users, st, user, now) == BlockedUntil(users, st.log, user, now)
    ensures Reply(users, st, user, now) == RetryAfter(users, st.log, user, now)
  {
    hide Pop, Keep, NoneGone, Shelters, AllTimes, UserTimes;
    WindowIff(st.all, now - WINDOW);
    WindowIff(LedgerOf(st.own, user), now - WINDOW);
  }

  // ----- the caps -----

  /** An admitted call finds fewer attempts in its windows than allowed, even
      counting what the deques no longer hold. */
  lemma AdmitsBelowCaps(users: set<string>, st: State, user: string, now: real)
    requires Covered(users, st) && NothingLost(users, st, user, now) && Reply(users, st, user, now) == 0
    ensures |Keep(AllTimes(st.log), Later(now - WINDOW))| < MAX_ALL
    ensures user in users ==> |Keep(UserTimes(st.log, user), Later(now - WINDOW))| < MAX_USER
  {
    hide Pop, Keep, NoneGone, AllTimes, UserTimes;
    WindowIff(st.all, now - WINDOW);
    WindowIff(LedgerOf(st.own, user), now - WINDOW);
    FrontIsRecent(st.all, now - WINDOW);
    FrontIsRecent(LedgerOf(st.own, user), now - WINDOW);
  }

  lemma FrontIsRecent(l: Ledger, cut: real)
    ensures Pop(l, cut).held != [] ==> Pop(l, cut).held[0] > cut
  {
    DropSplits(l.held, cut);
  }

  /** No call of the run finds something popped inside its windows. */
  ghost predicate Unbroken(users: set<string>, calls: seq<Call>) {
    forall i :: 0 <= i < |calls| ==> NothingLost(users, Run(users, calls[..i]), calls[i].user, calls[i].now)
  }

  lemma UnbrokenInit(users: set<string>, calls: seq<Call>)
    requires calls != [] && Unbroken(users, calls)
    ensures var init, call := calls[..|calls| - 1], calls[|calls| - 1];
            Unbroken(users, init) && NothingLost(users, Run(users, init), call.user, call.now)
  {
    hide Run, NothingLost;
    var init := calls[..|calls| - 1];
    forall i | 0 <= i < |init|
      ensures NothingLost(users, Run(users, init[..i]), init[i].user, init[i].now)
    {
      assert init[..i] == calls[..i] && init[i] == calls[i];
    }
    assert NothingLost(users, Run(users, calls[..|init|]), calls[|init|].user, calls[|init|].now);
  }

  lemma RespondMetered(users: set<string>, st: State, call: Call, user: string)
    requires Covered(users, st) && NothingLost(users, st, call.user, call.now)
    requires Metered(AllTimes(st.log), WINDOW, MAX_ALL)
    requires user in users ==> Metered(UserTimes(st.log, user), WINDOW, MAX_USER)
    ensures Metered(AllTimes(Respond(users, st, call).log), WINDOW, MAX_ALL)
    ensures user in users ==> Metered(UserTimes(Respond(users, st, call).log, user), WINDOW, MAX_USER)
  {
    hide Metered, Keep, AllTimes, UserTimes, Covered, NothingLost, Reply;
    if Reply(users, st, call.user, call.now) == 0 {
      AdmitsBelowCaps(users, st, call.user, call.now);
      TimesAppend(st.log, Attempt(call.now, call.user), user);
      AdmittedMetered(AllTimes(st.log), MAX_ALL, call.now, true);
      if user in users {
        AdmittedMetered(UserTimes(st.log, user), MAX_USER, call.now, call.user == user);
      }
    }
  }

  lemma {:induction false} RunMetered(users: set<string>, calls: seq<Call>, user: string)
    requires Unbroken(users, calls)
    ensures Metered(AllTimes(Run(users, calls).log), WINDOW, MAX_ALL)
    ensures user in users ==> Metered(UserTimes(Run(users, calls).log, user), WINDOW, MAX_USER)
  {
    hide Unbroken, NothingLost, Respond, Covered;
    if calls == [] {
    } else {
      var init, call := calls[..|calls| - 1], calls[|calls| - 1];
      UnbrokenInit(users, calls);
      RunMetered(users, init, user);
      RunCovered(users, init);
      RespondMetered(users, Run(users, init), call, user);
    }
  }

  /** As long as no call finds something popped inside its windows, no 60 s
      window ever holds more than 30 admitted attempts, or more than 5 of one
      known user. */
  lemma {:induction false} EveryWindowCapped(users: set<string>, calls: seq<Call>, user: string, t: real)
    requires Unbroken(users, calls)
    ensures |Keep(AllTimes(Run(users, calls).log), Within(t - WINDOW, t))| <= MAX_ALL
    ensures user in users ==> |Keep(UserTimes(Run(users, calls).log, user), Within(t - WINDOW, t))| <= MAX_USER
  {
    hide Unbroken, Run;
    RunMetered(users, calls, user);
    MeteredCaps(AllTimes(Run(users, calls).log), WINDOW, MAX_ALL, t);
    if user in users {
      MeteredCaps(UserTimes(Run(users, calls).log, user), WINDOW, MAX_USER, t);
    }
  }

  // ----- readings that do not run backwards -----

  /** The deque is sorted, up to `clock`, and lost nothing of the window there. */
  ghost predicate SettledDeque(l: Ledger, clock: real) {
    NoneGone(l, clock - WINDOW) && Sorted(l.held) && forall t :: t in l.held ==> t <= clock
  }

  ghost predicate Settled(st: State, clock: real) {
    SettledDeque(st.all, clock) && forall u :: SettledDeque(LedgerOf(st.own, u), clock)
  }

  lemma {:induction false} DropSorted(ts: seq<real>, cut: real, clock: real)
    requires Sorted(ts) && forall t :: t in ts ==> t <= clock
    ensures Sorted(DropUntil(ts, cut)) && forall t :: t in DropUntil(ts, cut) ==> t <= clock
  {
    if ts == [] {
    } else if ts[0] <= cut {
      assert forall t :: t in ts[1..] ==> t in ts;
      DropSorted(ts[1..], cut, clock);
    }
  }

  lemma SettledSteps(l: Ledger, clock: real, now: real)
    requires SettledDeque(l, clock) && clock <= now
    ensures SettledDeque(l, now) && SettledDeque(Pop(l, now - WINDOW), now)
    ensures SettledDeque(Push(Pop(l, now - WINDOW), now), now)
    ensures !Shelters(l.held, now - WINDOW)
  {
    hide DropUntil, Dropped;
    DropSplits(l.held, now - WINDOW);
    DropSorted(l.held, now - WINDOW, now);
    SortedAppend(DropUntil(l.held, now - WINDOW), now);
  }

  lemma RespondSettled(users: set<string>, st: State, call: Call, clock: real)
    requires Settled(st, clock) && clock <= call.now
    ensures Settled(Respond(users, st, call), call.now)
  {
    hide SettledDeque, Pop, Push, Reply;
    SettledSteps(st.all, clock, call.now);
    var after := Respond(users, st, call);
    forall u
      ensures SettledDeque(LedgerOf(after.own, u), call.now)
    {
      SettledSteps(LedgerOf(st.own, u), clock, call.now);
    }
  }

  lemma {:induction false} RunSettled(users: set<string>, calls: seq<Call>, now: real)
    requires Ordered(calls) && forall i :: 0 <= i < |calls| ==> calls[i].now <= now
    ensures Settled(Run(users, calls), now)
  {
    hide Settled, Respond;
    if calls == [] {
      InitSettled(now);
    } else {
      var init, call := calls[..|calls| - 1], calls[|calls| - 1];
      RunSettled(users, init, call.now);
      RespondSettled(users, Run(users, init), call, call.now);
      SettledLater(Run(users, calls), call.now, now);
    }
  }

  lemma InitSettled(now: real)
    ensures Settled(INIT, now)
  {
  }

  lemma SettledLater(st: State, clock: real, now: real)
    requires Settled(st, clock) && clock <= now
    ensures Settled(st, now)
  {
    hide SettledDeque;
    SettledSteps(st.all, clock, now);
    forall u
      ensures SettledDeque(LedgerOf(st.own, u), now)
    {
      SettledSteps(LedgerOf(st.own, u), clock, now);
    }
  }

  /** While the readings do not run backwards, the deques answer exactly as the
      complete log would. */
  lemma {:induction false} AnswerIsRecount(users: set<string>, calls: seq<Call>, user: string, now: real)
    requires Ordered(calls) && forall i :: 0 <= i < |calls| ==> calls[i].now <= now
    ensures Intact(users, Run(users, calls), user, now)
    ensures Until(users, Run(users, calls), user, now) == BlockedUntil(users, Run(users, calls).log, user, now)
    ensures Reply(users, Run(users, calls), user, now) == RetryAfter(users, Run(users, calls).log, user, now)
  {
    hide Run, Reply, RetryAfter, Covered, Shelters;
    var st := Run(users, calls);
    RunSettled(users, calls, now);
    RunCovered(users, calls);
    SettledSteps(st.all, now, now);
    SettledSteps(LedgerOf(st.own, user), now, now);
    IntactAnswers(users, st, user, now);
  }

  lemma OrderedIsUnbroken(users: set<string>, calls: seq<Call>)
    requires Ordered(calls)
    ensures Unbroken(users, calls)
  {
    hide Run, Reply, RetryAfter, NothingLost;
    forall i | 0 <= i < |calls|
      ensures NothingLost(users, Run(users, calls[..i]), calls[i].user, calls[i].now)
    {
      AnswerIsRecount(users, calls[..i], calls[i].user, calls[i].now);
    }
  }

  /** In an ordered run the log is sorted and ends no later than the last call. */
  lemma {:induction false} RunSorted(users: set<string>, calls: seq<Call>, now: real, user: string)
    requires Ordered(calls)
    requires forall i :: 0 <= i < |calls| ==> calls[i].now <= now
    ensures Sorted(AllTimes(Run(users, calls).log)) && Sorted(UserTimes(Run(users, calls).log, user))
    ensures forall t :: t in AllTimes(Run(users, calls).log) ==> t <= now
    ensures forall t :: t in UserTimes(Run(users, calls).log, user) ==> t <= now
  {
    hide Reply, Pop, Push, AllTimes, UserTimes, Sorted;
    if calls == [] {
      EmptySorted(now, user);
    } else {
      var init, call := calls[..|calls| - 1], calls[|calls| - 1];
      var log := Run(users, init).log;
      RunSorted(users, init, call.now, user);
      if Run(users, calls).log != log {
        TimesAppend(log, Attempt(call.now, call.user), user);
        SortedAppend(AllTimes(log), call.now);
        assert UserTimes(log, user) + [] == UserTimes(log, user);
        SortedAppend(UserTimes(log, user), call.now);
      }
    }
  }

  lemma EmptySorted(now: real, user: string)
    ensures Sorted(AllTimes([])) && Sorted(UserTimes([], user))
    ensures forall t :: t in AllTimes([]) || t in UserTimes([], user) ==> t <= now
  {
  }

  /** Later calls only extend the log. */
  lemma {:induction false} RunExtends(users: set<string>, calls: seq<Call>, more: seq<Call>)
    ensures Run(users, calls).log <= Run(users, calls + more).log
  {
    hide Reply, Pop, Push;
    if more == [] {
      assert calls + more == calls;
    } else {
      RunExtends(users, calls, more[..|more| - 1]);
      assert (calls + more)[..|calls + more| - 1] == calls + more[..|more| - 1];
    }
  }

  // ----- the limits in seconds -----

  lemma {:induction false} CountTimes(log: seq<Attempt>, p: real -> bool, q: Attempt -> bool)
    requires forall a :: q(a) <==> p(a.time)
    ensures |Keep(AllTimes(log), p)| == |Keep(log, q)|
  {
    if log == [] {
    } else {
      var init, a := log[..|log| - 1], log[|log| - 1];
      assert log == init + [a];
      CountTimes(init, p, q);
      TimesAppend(init, a, a.user);
      KeepAppend(AllTimes(init), a.time, p);
    }
  }

  lemma CountUserTimes(log: seq<Attempt>, user: string, p: real -> bool, q: Attempt -> bool)
    requires forall a :: q(a) <==> a.user == user && p(a.time)
    ensures |Keep(UserTimes(log, user), p)| == |Keep(log, q)|
  {
    CountTimes(Keep(log, ByUser(user)), p, (a: Attempt) => p(a.time));
    KeepBoth(log, ByUser(user), (a: Attempt) => p(a.time), q);
  }

  lemma {:induction false} KeepBoth(log: seq<Attempt>, p: Attempt -> bool, q: Attempt -> bool, both: Attempt -> bool)
    requires forall a :: both(a) <==> p(a) && q(a)
    ensures Keep(Keep(log, p), q) == Keep(log, both)
  {
    if log == [] {
    } else {
      var init, a := log[..|log| - 1], log[|log| - 1];
      KeepBoth(init, p, q, both);
      if p(a) {
        KeepAppend(Keep(init, p), a, q);
      } else {
        assert Keep(log, p) == Keep(init, p);
      }
    }
  }

  /** While the readings do not run backwards: an attempt is admitted, and logged,
      if and only if fewer than 30 attempts were admitted in the last 60 s and,
      for a known user, fewer than 5 of its own. */
  lemma {:induction false} AdmissionMeans(users: set<string>, calls: seq<Call>, user: string, now: real)
    requires Ordered(calls) && forall i :: 0 <= i < |calls| ==> calls[i].now <= now
    ensures var st := Run(users, calls);
            && (Reply(users, st, user, now) == 0 <==>
                && |Keep(st.log, (a: Attempt) => a.time > now - 60.0)| < 30
                && (user in users ==> |Keep(st.log, (a: Attempt) => a.user == user && a.time > now - 60.0)| < 5))
            && Respond(users, st, Call(user, now)).log
               == if Reply(users, st, user, now) == 0 then st.log + [Attempt(now, user)] else st.log
  {
    hide Run, Reply, Keep, Pop, Push;
    var st := Run(users, calls);
    AnswerIsRecount(users, calls, user, now);
    AdmitsExact(users, st.log, user, now);
    CountTimes(st.log, Later(now - WINDOW), (a: Attempt) => a.time > now - 60.0);
    CountUserTimes(st.log, user, Later(now - WINDOW), (a: Attempt) => a.user == user && a.time > now - 60.0);
  }

  /** In any 60 s of such a run, at most 30 attempts are admitted, and at most 5 of
      one known user. */
  lemma {:induction false} CapsInSeconds(users: set<string>, calls: seq<Call>, user: string, t: real)
    requires Ordered(calls)
    ensures |Keep(Run(users, calls).log, (a: Attempt) => t - 60.0 < a.time <= t)| <= 30
    ensures user in users ==>
              |Keep(Run(users, calls).log, (a: Attempt) => a.user == user && t - 60.0 < a.time <= t)| <= 5
  {
    hide Run, Keep, Unbroken;
    var log := Run(users, calls).log;
    OrderedIsUnbroken(users, calls);
    EveryWindowCapped(users, calls, user, t);
    CountTimes(log, Within(t - WINDOW, t), (a: Attempt) => t - 60.0 < a.time <= t);
    CountUserTimes(log, user, Within(t - WINDOW, t), (a: Attempt) => a.user == user && t - 60.0 < a.time <= t);
  }

  // ----- the promises about waiting -----

  /** A positive answer is a true lower bound: whatever calls come meanwhile,
      the same user is refused at every instant before the blocking ends. */
  lemma {:induction false} RefusedUntil(users: set<string>, calls: seq<Call>, more: seq<Call>, user: string,
                                        now: real, t: real)
    requires Ordered(calls + more) && forall i :: 0 <= i < |calls| ==> calls[i].now <= now
    requires forall i :: 0 <= i < |more| ==> more[i].now <= t
    requires now <= t < Until(users, Run(users, calls), user, now)
    ensures Reply(users, Run(users, calls + more), user, t) > 0
  {
    hide Run, Reply, Until;
    var log, longer := Run(users, calls).log, Run(users, calls + more).log;
    OrderedParts(calls, more);
    RunSorted(users, calls, now, user);
    RunExtends(users, calls, more);
    PrefixTimes(log, longer, user, t - WINDOW);
    AdmitsExact(users, longer, user, t);
    AnswerIsRecount(users, calls, user, now);
    AnswerIsRecount(users, calls + more, user, t);
    if t < FreeAt(AllTimes(log), MAX_ALL, now) {
      StaysFull(AllTimes(log), MAX_ALL, now, t);
    } else {
      StaysFull(UserTimes(log, user), MAX_USER, now, t);
    }
  }

  lemma OrderedParts(calls: seq<Call>, more: seq<Call>)
    requires Ordered(calls + more)
    ensures Ordered(calls)
  {
    forall i, j | 0 <= i < j < |calls|
      ensures calls[i].now <= calls[j].now
    {
      assert (calls + more)[i] == calls[i] && (calls + more)[j] == calls[j];
    }
  }

  lemma AnswerBrackets(users: set<string>, log: seq<Attempt>, user: string, now: real)
    requires RetryAfter(users, log, user, now) > 0
    ensures var n := RetryAfter(users, log, user, now) as real;
            now + n - 1.0 < BlockedUntil(users, log, user, now) <= now + n
  {
  }

  lemma SlotFrom(users: set<string>, log: seq<Attempt>, user: string, now: real, t: real)
    requires Metered(AllTimes(log), WINDOW, MAX_ALL)
    requires user in users ==> Metered(UserTimes(log, user), WINDOW, MAX_USER)
    requires forall x :: x in AllTimes(log) ==> x <= now
    requires forall x :: x in UserTimes(log, user) ==> x <= now
    requires t >= BlockedUntil(users, log, user, now)
    ensures RetryAfter(users, log, user, t) == 0
  {
    AdmitsExact(users, log, user, t);
    HasSlot(AllTimes(log), MAX_ALL, now, t);
    if user in users {
      HasSlot(UserTimes(log, user), MAX_USER, now, t);
    }
  }

  /** A positive answer `n` is also enough, and the least whole number of
      seconds that is: with nothing else admitted meanwhile, the attempt at
      `now + n` goes through, and one at `now + n - 1` does not. */
  lemma {:induction false} AnswerIsExact(users: set<string>, calls: seq<Call>, more: seq<Call>, user: string, now: real)
    requires Ordered(calls + more) && forall i :: 0 <= i < |calls| ==> calls[i].now <= now
    requires Run(users, calls + more).log == Run(users, calls).log
    requires Reply(users, Run(users, calls), user, now) > 0
    ensures var n := Reply(users, Run(users, calls), user, now) as real;
            && ((forall i :: 0 <= i < |more| ==> more[i].now <= now + n) ==>
                  Reply(users, Run(users, calls + more), user, now + n) == 0)
            && ((forall i :: 0 <= i < |more| ==> more[i].now <= now + n - 1.0) ==>
                  Reply(users, Run(users, calls + more), user, now + n - 1.0) > 0)
  {
    hide *;
    var log := Run(users, calls).log;
    var n := Reply(users, Run(users, calls), user, now) as real;
    OrderedParts(calls, more);
    AnswerIsRecount(users, calls, user, now);
    AnswerBrackets(users, log, user, now);
    RunSorted(users, calls, now, user);
    OrderedIsUnbroken(users, calls);
    RunMetered(users, calls, user);
    SlotFrom(users, log, user, now, now + n);
    if forall i :: 0 <= i < |more| ==> more[i].now <= now + n {
      AnswerIsRecount(users, calls + more, user, now + n);
    }
    if forall i :: 0 <= i < |more| ==> more[i].now <= now + n - 1.0 {
      RefusedUntil(users, calls, more, user, now, now + n - 1.0);
    }
  }

  // ----- and readings that do -----

  function Repeat(call: Call, n: nat): (calls: seq<Call>)
    ensures |calls| == n && forall i :: 0 <= i < n ==> calls[i] == call
  {
    seq(n, _ => call)
  }

  /** A burst of attempts at one instant is admitted up to the limit. */
  lemma {:induction false} Burst(call: Call, n: nat)
    requires n <= MAX_ALL && call.now == 0.0
    ensures var st := Run({}, Repeat(call, n));
            && |st.log| == n && (forall i :: 0 <= i < n ==> st.log[i] == Attempt(0.0, call.user))
            && |st.all.held| == n && (forall i :: 0 <= i < n ==> st.all.held[i] == 0.0)
  {
    if n == 0 {
    } else {
      Burst(call, n - 1);
      assert Repeat(call, n)[..n - 1] == Repeat(call, n - 1);
    }
  }

  lemma {:induction false} DropAll(ts: seq<real>, cut: real)
    requires forall t :: t in ts ==> t <= cut
    ensures DropUntil(ts, cut) == []
  {
    if ts == [] {
    } else {
      assert ts[0] in ts && forall t :: t in ts[1..] ==> t in ts;
      DropAll(ts[1..], cut);
    }
  }

  /** A reading that runs backwards can break the cap: of 30 attempts at 0, one at
      60 and one at 59.9 all are admitted, and the window that ends at 59.9
      holds 31 of them. */
  lemma BackwardsReadingAdmits(user: string)
    ensures var calls := Repeat(Call(user, 0.0), 30) + [Call(user, 60.0)] + [Call(user, 59.9)];
            var log := Run({}, calls).log;
            |log| == 32 && |Keep(AllTimes(log), Within(59.9 - WINDOW, 59.9))| == 31
  {
    hide Keep, DropUntil, Dropped;
    var first, b, c := Repeat(Call(user, 0.0), 30), Call(user, 60.0), Call(user, 59.9);
    var st := Run({}, first);
    Burst(Call(user, 0.0), 30);
    assert (first + [b])[..30] == first && (first + [b] + [c])[..31] == first + [b];
    DropAll(st.all.held, 0.0);
    var st1 := Run({}, first + [b]);
    assert st1.all.held == [60.0] && st1.log == st.log + [Attempt(60.0, user)];
    assert DropUntil([60.0], 59.9 - WINDOW) == [60.0] by { KeepsFront(60.0, 59.9 - WINDOW); }
    var log := Run({}, first + [b] + [c]).log;
    assert log == st.log + [Attempt(60.0, user)] + [Attempt(59.9, user)];
    var w := Within(59.9 - WINDOW, 59.9);
    assert AllTimes(log) == AllTimes(st.log) + [60.0] + [59.9];
    KeepConcat(AllTimes(st.log) + [60.0], [59.9], w);
    KeepConcat(AllTimes(st.log), [60.0], w);
    KeepAll(AllTimes(st.log), w);
    KeepNone([60.0], w);
    KeepAll([59.9], w);
  }

  lemma KeepsFront(t: real, cut: real)
    requires t > cut
    ensures DropUntil([t], cut) == [t]
  {
  }

  // ----- the limiter itself -----

  /** Pops expired timestamps from the front of a deque. */
  method PopExpired(ts: seq<real>, cut: real) returns (r: seq<real>)
    ensures r == DropUntil(ts, cut)
  {
    r := ts;
    while r != [] && r[0] <= cut
      invariant DropUntil(r, cut) == DropUntil(ts, cut)
      decreases |r|
    {
      r := r[1..];
    }
  }

  function Held(m: map<string, Ledger>): map<string, seq<real>> { map k | k in m :: m[k].held }

  /** The limiter's fields are the deques of the state. */
  ghost predicate Stores(all: seq<real>, own: map<string, seq<real>>, st: State) {
    all == st.all.held && own == Held(st.own)
  }

  /** What a call does to the fields. */
  lemma CallStores(users: set<string>, st: State, all: seq<real>, own: map<string, seq<real>>, user: string, now: real)
    requires Stores(all, own, st)
    ensures var after := Respond(users, st, Call(user, now));
            var recent, mine := DropUntil(all, now - WINDOW), DropUntil(Lookup(own, user), now - WINDOW);
            var until := Max(if |recent| >= MAX_ALL then recent[0] + WINDOW else now,
                             if user in users && |mine| >= MAX_USER then mine[0] + WINDOW else now);
            if until > now
            then Reply(users, st, user, now) == Ceil(until - now)
                 && Stores(recent, if user in users then own[user := mine] else own, after)
            else Reply(users, st, user, now) == 0
                 && Stores(recent + [now],
                           if user in users then own[user := mine][user := mine + [now]] else own, after)
  {
    hide DropUntil, Dropped, Held;
    var mine := OwnAt(st, user, now);
    HeldLookup(st.own, user);
    HeldUpdate(st.own, user, mine);
    HeldUpdate(st.own, user, Push(mine, now));
    assert own[user := mine.held][user := mine.held + [now]] == own[user := mine.held + [now]];
  }

  lemma HeldLookup(m: map<string, Ledger>, user: string)
    ensures Lookup(Held(m), user) == LedgerOf(m, user).held
  {
  }

  lemma HeldUpdate(m: map<string, Ledger>, user: string, l: Ledger)
    ensures Held(m[user := l]) == Held(m)[user := l.held]
  {
  }

  class Limiter {
    const users: set<string>
    var allAttempts: seq<real>
    var userAttempts: map<string, seq<real>>
    ghost var state: State

    ghost predicate Valid()
      reads this
    {
      Stores(allAttempts, userAttempts, state)
    }

    constructor (known: set<string>)
      ensures Valid() && users == known && state == INIT
    {
      users, allAttempts, userAttempts := known, [], map[];
      state := INIT;
    }

    /** The deques answer, and change, as the machine does at any reading. */
    method Answer(username: string, now: real) returns (n: int)
      requires Valid()
      modifies this
      ensures Valid() && state == Respond(users, old(state), Call(username, now))
      ensures n == Reply(users, old(state), username, now)
    {
      hide DropUntil, Stores, Reply, Respond;
      CallStores(users, state, allAttempts, userAttempts, username, now);
      state := Respond(users, state, Call(username, now));
      allAttempts := PopExpired(allAttempts, now - WINDOW);
      var attempts := [];
      if username in users {
        attempts := PopExpired(Lookup(userAttempts, username), now - WINDOW);
        userAttempts := userAttempts[username := attempts];
      }
      var blockedUntil := Max(
        if |allAttempts| >= MAX_ALL then allAttempts[0] + WINDOW else now,
        if username in users && |attempts| >= MAX_USER then attempts[0] + WINDOW else now);
      if blockedUntil > now {
        return Ceil(blockedUntil - now);
      }
      n := 0;
      allAttempts := allAttempts + [now];
      if username in users {
        userAttempts := userAttempts[username := attempts + [now]];
      }
    }
  }
}
