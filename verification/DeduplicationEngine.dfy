/** Alert deduplication: one alert per key and window, remembered in a table
    that forgets expired keys when it grows too large. */
module DeduplicationEngine {
  import opened Options
  import opened Windows
  import opened AlertLifecycle

  /** An accepted alert (in a log), or a call that asks about one. */
  datatype Seen = Seen(key: string, time: real)

  // ----- the engine as a machine, under any clock readings -----

  /** The table of remembered timestamps, and the log of all ever accepted. */
  datatype Memory = Memory(seen: map<string, seq<real>>, log: seq<Seen>)

  const EMPTY := Memory(map[], [])

  function Live(now: real, window: real): real -> bool { (t: real) => now - t < window }

  predicate IsDup(window: real, m: Memory, key: string, now: real) {
    Keep(Lookup(m.seen, key), Live(now, window)) != []
  }

  function Unexpired(seen: map<string, seq<real>>, now: real, window: real): map<string, seq<real>> {
    map k | k in seen && Keep(seen[k], Live(now, window)) != [] :: seen[k]
  }

  /** One call. A table that has grown beyond `max` keys drops the expired ones. */
  function Ask(window: real, max: int, m: Memory, call: Seen): Memory {
    if IsDup(window, m, call.key, call.time)
    then m.(seen := m.seen[call.key := Keep(Lookup(m.seen, call.key), Live(call.time, window))])
    else
      var seen := m.seen[call.key := [call.time]];
      Memory(if |seen| > max then Unexpired(seen, call.time, window) else seen, m.log + [call])
  }

  function Run(window: real, max: int, calls: seq<Seen>): Memory {
    if calls == [] then EMPTY else Ask(window, max, Run(window, max, calls[..|calls| - 1]), calls[|calls| - 1])
  }

  // ----- the reference: verdicts from every alert ever accepted -----

  predicate Duplicate(window: real, log: seq<Seen>, key: string, now: real) {
    exists i :: 0 <= i < |log| && log[i].key == key && now - log[i].time < window
  }

  /** An acceptance that is no longer in the table. */
  predicate Forgotten(m: Memory, e: Seen) { e in m.log && e.time !in Lookup(m.seen, e.key) }

  /** The table has forgotten an acceptance that is still inside the window. */
  ghost predicate Misses(window: real, m: Memory, key: string, now: real) {
    exists e :: Forgotten(m, e) && e.key == key && now - e.time < window
  }

  /** Every stored key has one timestamp, that of an acceptance. */
  ghost predicate Sound(m: Memory) {
    forall k :: k in m.seen ==> |m.seen[k]| == 1 && Seen(k, m.seen[k][0]) in m.log
  }

  lemma LiveSingle(ts: seq<real>, now: real, window: real)
    requires |ts| == 1
    ensures Keep(ts, Live(now, window)) == if now - ts[0] < window then ts else []
  {
    assert ts == [ts[0]];
    if now - ts[0] < window {
      KeepAll(ts, Live(now, window));
    } else {
      KeepNone(ts, Live(now, window));
    }
  }

  lemma HeldDecides(window: real, m: Memory, key: string, now: real)
    requires Sound(m)
    ensures IsDup(window, m, key, now) <==> key in m.seen && now - m.seen[key][0] < window
  {
    if key in m.seen {
      LiveSingle(m.seen[key], now, window);
    }
  }

  /** One call, for a table with single timestamps. */
  lemma AskIs(window: real, max: int, m: Memory, call: Seen)
    requires Sound(m)
    ensures var after, seen := Ask(window, max, m, call), m.seen[call.key := [call.time]];
            if IsDup(window, m, call.key, call.time) then after == m
            else
              && after.log == m.log + [call]
              && (forall k :: k in after.seen ==> k in seen && after.seen[k] == seen[k])
              && (forall k :: k in seen && k !in after.seen ==> |seen| > max && call.time - seen[k][0] >= window)
              && (|after.seen| <= max || forall k :: k in after.seen ==> call.time - after.seen[k][0] < window)
  {
    hide Keep;
    HeldDecides(window, m, call.key, call.time);
    if IsDup(window, m, call.key, call.time) {
      LiveSingle(m.seen[call.key], call.time, window);
      assert m.seen[call.key := m.seen[call.key]] == m.seen;
    } else {
      var seen := m.seen[call.key := [call.time]];
      forall k | k in seen
        ensures Keep(seen[k], Live(call.time, window)) != [] <==> call.time - seen[k][0] < window
      {
        LiveSingle(seen[k], call.time, window);
      }
    }
  }

  lemma AskLog(window: real, max: int, m: Memory, call: Seen)
    ensures Ask(window, max, m, call).log
            == if IsDup(window, m, call.key, call.time) then m.log else m.log + [call]
  {
  }

  lemma AskSound(window: real, max: int, m: Memory, call: Seen)
    requires Sound(m)
    ensures Sound(Ask(window, max, m, call))
  {
    hide IsDup, Ask;
    AskIs(window, max, m, call);
    assert (m.log + [call])[|m.log|] == call;
  }

  lemma {:induction false} RunSound(window: real, max: int, calls: seq<Seen>)
    ensures Sound(Run(window, max, calls))
  {
    hide Sound, Ask;
    if calls == [] {
      EmptySound();
    } else {
      RunSound(window, max, calls[..|calls| - 1]);
      AskSound(window, max, Run(window, max, calls[..|calls| - 1]), calls[|calls| - 1]);
    }
  }

  lemma EmptySound()
    ensures Sound(EMPTY)
  {
  }

  lemma AnswerIsRecountOr(window: real, m: Memory, key: string, now: real)
    requires Sound(m)
    ensures Duplicate(window, m.log, key, now) <==> IsDup(window, m, key, now) || Misses(window, m, key, now)
  {
    hide IsDup;
    HeldDecides(window, m, key, now);
    if Duplicate(window, m.log, key, now) {
      var i :| 0 <= i < |m.log| && m.log[i].key == key && now - m.log[i].time < window;
      var e := m.log[i];
      assert e in m.log;
      if !Forgotten(m, e) {
        assert e.time == m.seen[key][0];
      }
    }
    if IsDup(window, m, key, now) {
      var i :| 0 <= i < |m.log| && m.log[i] == Seen(key, m.seen[key][0]);
    }
    if Misses(window, m, key, now) {
      var e :| Forgotten(m, e) && e.key == key && now - e.time < window;
      var i :| 0 <= i < |m.log| && m.log[i] == e;
    }
  }

  /** In every run and at every reading, the table's verdict is that of the
      complete log if and only if it finds the key, or has forgotten no
      acceptance of it that is still inside the window. */
  lemma AnswerIsRecountIff(window: real, max: int, calls: seq<Seen>, key: string, now: real)
    ensures var m := Run(window, max, calls);
            (IsDup(window, m, key, now) <==> Duplicate(window, m.log, key, now))
            <==> IsDup(window, m, key, now) || !Misses(window, m, key, now)
  {
    hide IsDup, Duplicate, Misses, Run;
    RunSound(window, max, calls);
    AnswerIsRecountOr(window, Run(window, max, calls), key, now);
  }

  // ----- spacing -----

  ghost predicate Spaced(window: real, log: seq<Seen>) {
    forall i, j :: 0 <= i < j < |log| && log[i].key == log[j].key ==> log[j].time - log[i].time >= window
  }

  /** The call is accepted although the table should have known its key. */
  ghost predicate Slips(window: real, m: Memory, call: Seen) {
    !IsDup(window, m, call.key, call.time) && Misses(window, m, call.key, call.time)
  }

  lemma SpacedAppend(window: real, log: seq<Seen>, call: Seen)
    ensures Spaced(window, log + [call]) <==> Spaced(window, log) && !Duplicate(window, log, call.key, call.time)
  {
    var all := log + [call];
    if Spaced(window, all) {
      forall i, j | 0 <= i < j < |log| && log[i].key == log[j].key
        ensures log[j].time - log[i].time >= window
      {
        assert all[i] == log[i] && all[j] == log[j];
      }
      forall i | 0 <= i < |log| && log[i].key == call.key
        ensures call.time - log[i].time >= window
      {
        assert all[i] == log[i] && all[|log|] == call;
      }
    }
  }

  ghost predicate NoneSlips(window: real, max: int, calls: seq<Seen>) {
    forall i :: 0 <= i < |calls| ==> !Slips(window, Run(window, max, calls[..i]), calls[i])
  }

  lemma NoneSlipsStep(window: real, max: int, calls: seq<Seen>, call: Seen)
    ensures NoneSlips(window, max, calls + [call])
            <==> NoneSlips(window, max, calls) && !Slips(window, Run(window, max, calls), call)
  {
    hide Slips, Run;
    var all := calls + [call];
    assert all[..|calls|] == calls && all[|calls|] == call;
    forall i | 0 <= i < |calls|
      ensures all[..i] == calls[..i] && all[i] == calls[i]
    {
    }
    if NoneSlips(window, max, all) {
      forall i | 0 <= i < |calls|
        ensures !Slips(window, Run(window, max, calls[..i]), calls[i])
      {
        assert !Slips(window, Run(window, max, all[..i]), all[i]);
      }
      assert !Slips(window, Run(window, max, all[..|calls|]), all[|calls|]);
    }
  }

  /** Accepted alerts with equal keys are at least one window apart if and only
      if no call slipped past a table that had forgotten its key. */
  lemma {:induction false} SpacedIff(window: real, max: int, calls: seq<Seen>)
    ensures Spaced(window, Run(window, max, calls).log) <==> NoneSlips(window, max, calls)
  {
    hide Spaced, Slips, Ask;
    if calls == [] {
      NothingSpaced(window);
    } else {
      var init, call := calls[..|calls| - 1], calls[|calls| - 1];
      assert calls == init + [call];
      SpacedIff(window, max, init);
      RunSound(window, max, init);
      AskSpaced(window, max, Run(window, max, init), call);
      NoneSlipsStep(window, max, init, call);
    }
  }

  lemma NothingSpaced(window: real)
    ensures Spaced(window, EMPTY.log)
  {
  }

  lemma AskSpaced(window: real, max: int, m: Memory, call: Seen)
    requires Sound(m)
    ensures Spaced(window, Ask(window, max, m, call).log) <==> Spaced(window, m.log) && !Slips(window, m, call)
  {
    hide Spaced, IsDup, Misses, Duplicate, Ask, Sound;
    AskIs(window, max, m, call);
    AnswerIsRecountOr(window, m, call.key, call.time);
    SpacedAppend(window, m.log, call);
  }

  // ----- readings that do not run backwards -----

  predicate Ordered(calls: seq<Seen>) {
    forall i, j :: 0 <= i < j < |calls| ==> calls[i].time <= calls[j].time
  }

  /** Whatever the table has forgotten has expired by `clock`. */
  ghost predicate Settled(window: real, m: Memory, clock: real) {
    forall e :: Forgotten(m, e) ==> clock - e.time >= window
  }

  lemma SettledLater(window: real, m: Memory, clock: real, now: real)
    requires Settled(window, m, clock) && clock <= now
    ensures Settled(window, m, now)
  {
  }

  lemma SettledAnswers(window: real, m: Memory, clock: real, key: string, now: real)
    requires Sound(m) && Settled(window, m, clock) && clock <= now
    ensures IsDup(window, m, key, now) <==> Duplicate(window, m.log, key, now)
    ensures !Misses(window, m, key, now)
  {
    hide IsDup, Duplicate, Sound;
    AnswerIsRecountOr(window, m, key, now);
  }

  lemma AskSettled(window: real, max: int, m: Memory, clock: real, call: Seen)
    requires Sound(m) && Settled(window, m, clock) && clock <= call.time
    ensures Settled(window, Ask(window, max, m, call), call.time)
  {
    hide IsDup, Ask;
    AskIs(window, max, m, call);
    HeldDecides(window, m, call.key, call.time);
    if !IsDup(window, m, call.key, call.time) {
      var after := Ask(window, max, m, call);
      forall e | Forgotten(after, e)
        ensures call.time - e.time >= window
      {
        assert e in m.log || e == call;
        if e != call && !Forgotten(m, e) {
          assert e.key in m.seen && m.seen[e.key] == [e.time];
        }
      }
    }
  }

  lemma {:induction false} RunSettled(window: real, max: int, calls: seq<Seen>, now: real)
    requires Ordered(calls) && forall i :: 0 <= i < |calls| ==> calls[i].time <= now
    ensures Settled(window, Run(window, max, calls), now)
  {
    hide Ask;
    if calls == [] {
    } else {
      var init, call := calls[..|calls| - 1], calls[|calls| - 1];
      RunSettled(window, max, init, call.time);
      RunSound(window, max, init);
      AskSettled(window, max, Run(window, max, init), call.time, call);
    }
  }

  /** While the readings do not run backwards, the table answers as the complete
      log would and accepted alerts with equal keys are a window apart, whatever
      was evicted. */
  lemma {:induction false} AcceptedAreSpaced(window: real, max: int, calls: seq<Seen>, key: string, now: real)
    requires Ordered(calls) && forall i :: 0 <= i < |calls| ==> calls[i].time <= now
    ensures var m := Run(window, max, calls);
            Spaced(window, m.log) && (IsDup(window, m, key, now) <==> Duplicate(window, m.log, key, now))
  {
    hide Run, IsDup, Duplicate, Misses, Spaced, Settled;
    RunSound(window, max, calls);
    RunSettled(window, max, calls, now);
    SettledAnswers(window, Run(window, max, calls), now, key, now);
    forall i | 0 <= i < |calls|
      ensures !Slips(window, Run(window, max, calls[..i]), calls[i])
    {
      RunSound(window, max, calls[..i]);
      RunSettled(window, max, calls[..i], calls[i].time);
      SettledAnswers(window, Run(window, max, calls[..i]), calls[i].time, calls[i].key, calls[i].time);
    }
    SpacedIff(window, max, calls);
  }

  /** So a call is a duplicate if and only if an alert with its key was accepted
      less than a window before, and it is logged if and only if it is not. */
  lemma {:induction false} AnswerMeans(window: real, max: int, calls: seq<Seen>, call: Seen)
    requires Ordered(calls) && forall i :: 0 <= i < |calls| ==> calls[i].time <= call.time
    ensures var m := Run(window, max, calls);
            && (IsDup(window, m, call.key, call.time) <==>
                exists x :: x in m.log && x.key == call.key && call.time - x.time < window)
            && Ask(window, max, m, call).log ==
               if exists x :: x in m.log && x.key == call.key && call.time - x.time < window
               then m.log else m.log + [call]
  {
    hide Run, IsDup, Ask;
    var m := Run(window, max, calls);
    AcceptedAreSpaced(window, max, calls, call.key, call.time);
    AskLog(window, max, m, call);
    if exists x :: x in m.log && x.key == call.key && call.time - x.time < window {
      var x :| x in m.log && x.key == call.key && call.time - x.time < window;
      var i :| 0 <= i < |m.log| && m.log[i] == x;
    }
  }

  // ----- or a table that never evicts -----

  /** Whatever the table has forgotten was replaced a window later. */
  ghost predicate Replaced(window: real, m: Memory) {
    forall e :: Forgotten(m, e) ==> e.key in m.seen && forall t :: t in m.seen[e.key] ==> t - e.time >= window
  }

  lemma AskReplaced(window: real, max: int, m: Memory, call: Seen, keys: set<string>)
    requires Sound(m) && Replaced(window, m) && window > 0.0
    requires m.seen.Keys <= keys && call.key in keys && |keys| <= max
    ensures Replaced(window, Ask(window, max, m, call)) && Ask(window, max, m, call).seen.Keys <= keys
  {
    hide IsDup, Ask;
    AskIs(window, max, m, call);
    HeldDecides(window, m, call.key, call.time);
    if !IsDup(window, m, call.key, call.time) {
      var after, seen := Ask(window, max, m, call), m.seen[call.key := [call.time]];
      FewerKeys(seen, keys);
      assert after.seen == seen;
      forall e | Forgotten(after, e)
        ensures e.key in after.seen && forall t :: t in after.seen[e.key] ==> t - e.time >= window
      {
        if !Forgotten(m, e) {
          assert e in m.log && m.seen[e.key] == [e.time] && e.key == call.key;
        } else if e.key == call.key {
          assert m.seen[e.key][0] in m.seen[e.key];
        }
      }
    }
  }

  lemma FewerKeys(seen: map<string, seq<real>>, keys: set<string>)
    requires seen.Keys <= keys
    ensures |seen| <= |keys|
  {
    assert keys == seen.Keys + (keys - seen.Keys);
    assert |seen| == |seen.Keys|;
  }

  lemma {:induction false} RunReplaced(window: real, max: int, calls: seq<Seen>, keys: set<string>)
    requires window > 0.0 && |keys| <= max && forall i :: 0 <= i < |calls| ==> calls[i].key in keys
    ensures Replaced(window, Run(window, max, calls)) && Run(window, max, calls).seen.Keys <= keys
  {
    hide Ask;
    if calls == [] {
    } else {
      var init, call := calls[..|calls| - 1], calls[|calls| - 1];
      RunReplaced(window, max, init, keys);
      RunSound(window, max, init);
      AskReplaced(window, max, Run(window, max, init), call, keys);
    }
  }

  lemma ReplacedAnswers(window: real, m: Memory, key: string, now: real)
    requires Sound(m) && Replaced(window, m) && window > 0.0
    ensures Misses(window, m, key, now) ==> IsDup(window, m, key, now)
  {
    hide IsDup;
    HeldDecides(window, m, key, now);
    if Misses(window, m, key, now) {
      var e :| Forgotten(m, e) && e.key == key && now - e.time < window;
      assert m.seen[key][0] in m.seen[key];
    }
  }

  /** Missing takes both a reading that runs backwards and an eviction: with room
      for all its keys the table is right under any readings. */
  lemma {:induction false} RoomyTableIsExact(window: real, max: int, calls: seq<Seen>, keys: set<string>,
                                             key: string, now: real)
    requires window > 0.0 && |keys| <= max && forall i :: 0 <= i < |calls| ==> calls[i].key in keys
    ensures var m := Run(window, max, calls);
            Spaced(window, m.log) && (IsDup(window, m, key, now) <==> Duplicate(window, m.log, key, now))
  {
    hide Run, IsDup, Duplicate, Misses, Spaced, Replaced;
    RunSound(window, max, calls);
    RunReplaced(window, max, calls, keys);
    ReplacedAnswers(window, Run(window, max, calls), key, now);
    AnswerIsRecountOr(window, Run(window, max, calls), key, now);
    forall i | 0 <= i < |calls|
      ensures !Slips(window, Run(window, max, calls[..i]), calls[i])
    {
      RunSound(window, max, calls[..i]);
      RunReplaced(window, max, calls[..i], keys);
      ReplacedAnswers(window, Run(window, max, calls[..i]), calls[i].key, calls[i].time);
    }
    SpacedIff(window, max, calls);
  }

  /** A reading that runs backwards can miss: a key evicted at the end of its
      window is accepted again in the middle of it. */
  lemma BackwardsReadingSlips(window: real, k: string, j: string)
    requires window > 0.0 && k != j
    ensures var calls := [Seen(k, 0.0), Seen(j, window), Seen(k, window / 2.0)];
            Run(window, 1, calls).log == calls && !Spaced(window, calls)
  {
    hide Ask, IsDup, Run;
    var a, b, c := Seen(k, 0.0), Seen(j, window), Seen(k, window / 2.0);
    var m1, m2 := Run(window, 1, [a]), Run(window, 1, [a, b]);
    NoCalls(window, 1);
    NewKeyIsAccepted(window, [], a);
    assert [] + [a] == [a];
    assert m1.seen.Keys <= {k} && m1.log == [a];
    NewKeyIsAccepted(window, [a], b);
    assert [a] + [b] == [a, b];
    assert m2.log == [a, b];
    if k in m2.seen {
      TwoKeys(m2.seen, k, j);
      assert false;
    }
    NewKeyIsAccepted(window, [a, b], c);
    assert [a, b] + [c] == [a, b, c];
    assert [a, b, c][2].time - [a, b, c][0].time < window;
  }

  lemma TwoKeys(seen: map<string, seq<real>>, k: string, j: string)
    requires k != j && k in seen && j in seen
    ensures |seen| >= 2
  {
    assert seen.Keys == {k, j} + (seen.Keys - {k, j});
    assert |seen.Keys| == |seen|;
  }

  lemma NoCalls(window: real, max: int)
    ensures Run(window, max, []) == EMPTY
  {
  }

  /** What a key that is not in the table does to one with room for one. */
  lemma NewKeyIsAccepted(window: real, calls: seq<Seen>, call: Seen)
    requires call.key !in Run(window, 1, calls).seen
    ensures var m, after := Run(window, 1, calls), Run(window, 1, calls + [call]);
            var seen := m.seen[call.key := [call.time]];
            && Sound(m) && after.log == m.log + [call]
            && (forall k :: k in after.seen ==> k in seen && after.seen[k] == seen[k])
            && (forall k :: k in seen && k !in after.seen ==> call.time - seen[k][0] >= window)
            && (|after.seen| <= 1 || forall k :: k in after.seen ==> call.time - after.seen[k][0] < window)
  {
    hide Ask, IsDup, Run;
    RunStep(window, 1, calls, call);
    HeldDecides(window, Run(window, 1, calls), call.key, call.time);
    AskIs(window, 1, Run(window, 1, calls), call);
  }

  /** One more call, seen through the table it leaves. */
  lemma RunStep(window: real, max: int, calls: seq<Seen>, call: Seen)
    ensures Run(window, max, calls + [call]) == Ask(window, max, Run(window, max, calls), call)
    ensures Sound(Run(window, max, calls))
  {
    hide Ask;
    assert (calls + [call])[..|calls + [call]| - 1] == calls;
    RunSound(window, max, calls);
  }

  // ----- keys -----

  /** The text that is hashed into a key. */
  function RawKey(account: string, rule: Option<string>, kind: Kind): string {
    account + ":" + RuleText(rule) + ":" + KindText(kind)
  }

  function RuleText(rule: Option<string>): (text: string)
    ensures text != ""
  {
    if rule.Some? && rule.value != "" then rule.value else "none"
  }

  /** The text spelled out: account, rule and type between colons. */
  lemma RawKeyMeans(account: string, rule: Option<string>)
    ensures var text := if rule == None || rule == Some("") then "none" else rule.value;
            && RawKey(account, rule, RuleBased) == account + ":" + text + ":" + "rule_based"
            && RawKey(account, rule, Anomaly) == account + ":" + text + ":" + "anomaly"
            && RawKey(account, rule, MlScore) == account + ":" + text + ":" + "ml_score"
            && RawKey(account, rule, Kind.Ensemble) == account + ":" + text + ":" + "ensemble"
  {
  }

  /** The account and the rule text can be read differently: the text is the one
      that stands for an absent rule, or some other colon of theirs leaves a
      rule text behind it. */
  predicate Ambiguous(account: string, rule: Option<string>) {
    var text := RuleText(rule);
    text == "none" || ':' in account || ':' in text[..|text| - 1]
  }

  /** Where two splits of one text at a colon differ, both colons are in it. */
  lemma TwoColons(a: string, x: string, b: string, y: string)
    requires a + ":" + x == b + ":" + y && |a| < |b|
    ensures |x| == |y| + |b| - |a| && b[|a|] == ':' && x[|b| - |a| - 1] == ':'
  {
    var s := a + ":" + x;
    assert s[|a|] == ':' && s == b + ":" + y;
    assert (b + ":" + y)[|b|] == ':';
  }

  lemma SameSplit(a: string, x: string, b: string, y: string)
    requires a + ":" + x == b + ":" + y && |a| == |b|
    ensures a == b && x == y
  {
    var s := a + ":" + x;
    assert a == s[..|a|] && x == s[|a| + 1..] && b == s[..|b|] && y == s[|b| + 1..];
  }

  /** Types contain no colon, so the last colon of a key text ends the rule. */
  lemma KeyEnd(x: string, k1: Kind, y: string, k2: Kind)
    requires x + ":" + KindText(k1) == y + ":" + KindText(k2)
    ensures x == y && k1 == k2
  {
    hide KindText;
    if |x| < |y| {
      TwoColons(x, KindText(k1), y, KindText(k2));
      assert false;
    }
    if |y| < |x| {
      TwoColons(y, KindText(k2), x, KindText(k1));
      assert false;
    }
    SameSplit(x, KindText(k1), y, KindText(k2));
    KindTextsDiffer(k1, k2);
  }

  lemma KindTextsDiffer(k1: Kind, k2: Kind)
    requires KindText(k1) == KindText(k2)
    ensures k1 == k2
  {
    assert KindText(k1)[0] == KindText(k2)[0] && |KindText(k1)| == |KindText(k2)|;
  }

  /** Alerts share a key text exactly when account, rule and type agree, as soon
      as one of them is not ambiguous. */
  lemma RawKeyIdentifies(a1: string, r1: Option<string>, k1: Kind, a2: string, r2: Option<string>, k2: Kind)
    requires !Ambiguous(a1, r1)
    ensures RawKey(a1, r1, k1) == RawKey(a2, r2, k2) <==> a1 == a2 && r1 == r2 && k1 == k2
  {
    if RawKey(a1, r1, k1) == RawKey(a2, r2, k2) {
      KeyEnd(a1 + ":" + RuleText(r1), k1, a2 + ":" + RuleText(r2), k2);
      var text := RuleText(r1);
      if |a1| < |a2| {
        TwoColons(a1, text, a2, RuleText(r2));
        assert false;
      }
      if |a2| < |a1| {
        TwoColons(a2, RuleText(r2), a1, text);
        assert false;
      }
      SameSplit(a1, text, a2, RuleText(r2));
    }
  }

  /** Another account and rule with the same key text. */
  lemma OtherReading(account: string, rule: Option<string>, kind: Kind) returns (a: string, r: Option<string>)
    requires Ambiguous(account, rule)
    ensures (a, r) != (account, rule) && RawKey(a, r, kind) == RawKey(account, rule, kind)
  {
    var text := RuleText(rule);
    if text == "none" {
      NoneCollides(account, kind);
      a, r := account, if rule.None? || rule.value == "" then Some("none") else None;
    } else if ':' in account {
      var i :| 0 <= i < |account| && account[i] == ':';
      a, r := account[..i], Some(account[i + 1..] + ":" + text);
      assert account + ":" + text == a + ":" + RuleText(r);
    } else {
      var i :| 0 <= i < |text| - 1 && text[i] == ':';
      a, r := account + ":" + text[..i], Some(text[i + 1..]);
      assert account + ":" + text == a + ":" + RuleText(r);
    }
  }

  /** The exact condition: some other account, rule or type shares the key text
      if and only if account and rule are ambiguous. */
  lemma KeySharedIff(account: string, rule: Option<string>, kind: Kind)
    ensures (exists a, r, k :: (a, r, k) != (account, rule, kind) && RawKey(a, r, k) == RawKey(account, rule, kind))
            <==> Ambiguous(account, rule)
  {
    if Ambiguous(account, rule) {
      var a, r := OtherReading(account, rule, kind);
      assert (a, r, kind) != (account, rule, kind);
    } else {
      forall a, r, k | RawKey(a, r, k) == RawKey(account, rule, kind)
        ensures (a, r, k) == (account, rule, kind)
      {
        RawKeyIdentifies(account, rule, kind, a, r, k);
      }
    }
  }

  /** An absent rule and a rule named "none" share every key. */
  lemma NoneCollides(account: string, kind: Kind)
    ensures RawKey(account, None, kind) == RawKey(account, Some(""), kind) == RawKey(account, Some("none"), kind)
  {
  }

  /** With a colon in an identifier, two accounts can share a key. */
  lemma ColonsCollide(a: string, b: string, c: string, kind: Kind)
    requires c != ""
    ensures RawKey(a + ":" + b, Some(c), kind) == RawKey(a, Some(b + ":" + c), kind)
  {
    assert a + ":" + b + ":" + c == a + ":" + (b + ":" + c);
  }

  /** A colon alone need not: nothing can stand behind one at the end. */
  lemma TrailingColonIsHarmless(a: string, c: string)
    requires ':' !in a && ':' !in c
    ensures !Ambiguous(a, Some(c + ":"))
  {
    assert (c + ":")[..|c + ":"| - 1] == c;
    assert (c + ":")[|c|] == ':' && forall i :: 0 <= i < |"none"| ==> "none"[i] != ':';
  }

  // ----- the engine itself -----

  class Engine {
    const window: real
    const maxEntries: int
    var seen: map<string, seq<real>>
    ghost var log: seq<Seen>

    ghost function Abstract(): Memory
      reads this
    {
      Memory(seen, log)
    }

    constructor (seconds: real, max: int)
      ensures window == seconds && maxEntries == max && Abstract() == EMPTY
    {
      window, maxEntries, seen := seconds, max, map[];
      log := [];
    }

    /** Answers and remembers as the machine does, and after an acceptance the
        table is within bounds unless every key in it is still live. */
    method IsDuplicate(key: string, now: real) returns (dup: bool)
      modifies this
      ensures dup == IsDup(window, old(Abstract()), key, now)
      ensures Abstract() == Ask(window, maxEntries, old(Abstract()), Seen(key, now))
      ensures !dup && Sound(old(Abstract())) ==>
                |seen| <= maxEntries || forall k :: k in seen ==> |seen[k]| == 1 && now - seen[k][0] < window
    {
      hide Keep;
      if Sound(Abstract()) {
        AskIs(window, maxEntries, Abstract(), Seen(key, now));
        AskSound(window, maxEntries, Abstract(), Seen(key, now));
      }
      var kept := [];
      if key in seen {
        kept := Keep(seen[key], Live(now, window));
        seen := seen[key := kept];
        if kept != [] {
          return true;
        }
      } else {
        NothingLive(now, window);
      }
      kept := kept + [now];
      assert kept == [now];
      seen := seen[key := kept];
      assert seen == old(seen)[key := [now]];
      log := log + [Seen(key, now)];
      dup := false;
      if |seen| > maxEntries {
        EvictExpired(now);
      }
    }

    /** Deletes the keys that have expired. */
    method EvictExpired(now: real)
      modifies this`seen
      ensures seen == Unexpired(old(seen), now, window)
    {
      hide Keep;
      var keys := seen.Keys;
      while keys != {}
        invariant keys <= seen.Keys <= old(seen).Keys
        invariant forall k :: k in seen ==> seen[k] == old(seen)[k]
        invariant forall k :: k in old(seen) && k !in keys ==>
                    (k in seen <==> Keep(old(seen)[k], Live(now, window)) != [])
        decreases keys
      {
        var k :| k in keys;
        keys := keys - {k};
        if Keep(seen[k], Live(now, window)) == [] {
          seen := seen - {k};
        }
      }
    }
  }

  lemma NothingLive(now: real, window: real)
    ensures Keep([], Live(now, window)) == []
  {
  }
}
