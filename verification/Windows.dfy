/** Sliding windows over timestamp lists: what the login limiter, the alert
    engines and the velocity profiles share.

    The running system keeps pruned lists, the specifications recount complete
    histories; a `Ledger` is a pruned list together with what was pruned. */
module Windows {

  /** The elements of `s` that satisfy `p`, in order. */
  function Keep<T>(s: seq<T>, p: T -> bool): (r: seq<T>)
    ensures |r| <= |s|
  {
    if s == [] then []
    else
      var last := s[|s| - 1];
      Keep(s[..|s| - 1], p) + (if p(last) then [last] else [])
  }

  lemma {:induction false} KeepMember<T>(s: seq<T>, p: T -> bool, x: T)
    ensures x in Keep(s, p) <==> x in s && p(x)
  {
    if s == [] {
    } else {
      assert s == s[..|s| - 1] + [s[|s| - 1]];
      KeepMember(s[..|s| - 1], p, x);
    }
  }

  lemma {:induction false} KeepConcat<T>(a: seq<T>, b: seq<T>, p: T -> bool)
    ensures Keep(a + b, p) == Keep(a, p) + Keep(b, p)
  {
    if b == [] {
      assert a + b == a;
    } else {
      var init, last := b[..|b| - 1], b[|b| - 1];
      KeepConcat(a, init, p);
      assert a + b == (a + init) + [last];
      KeepAppend(a + init, last, p);
    }
  }

  lemma KeepAppend<T>(s: seq<T>, x: T, p: T -> bool)
    ensures Keep(s + [x], p) == Keep(s, p) + (if p(x) then [x] else [])
  {
    assert (s + [x])[..|s + [x]| - 1] == s;
  }

  /** Filtering first with a weaker test changes nothing. */
  lemma {:induction false} KeepKeep<T>(s: seq<T>, p: T -> bool, q: T -> bool)
    requires forall x :: x in s && q(x) ==> p(x)
    ensures Keep(Keep(s, p), q) == Keep(s, q)
  {
    if s == [] {
    } else {
      var init, last := s[..|s| - 1], s[|s| - 1];
      KeepKeep(init, p, q);
      if p(last) {
        KeepAppend(Keep(init, p), last, q);
      } else {
        assert Keep(s, p) == Keep(init, p);
      }
    }
  }

  lemma {:induction false} KeepAll<T>(s: seq<T>, p: T -> bool)
    requires forall x :: x in s ==> p(x)
    ensures Keep(s, p) == s
  {
    if s == [] {
    } else {
      var init, last := s[..|s| - 1], s[|s| - 1];
      assert s == init + [last];
      KeepAll(init, p);
    }
  }

  lemma {:induction false} KeepNone<T>(s: seq<T>, p: T -> bool)
    requires forall x :: x in s ==> !p(x)
    ensures Keep(s, p) == []
  {
    if s == [] {
    } else {
      var init, last := s[..|s| - 1], s[|s| - 1];
      assert s == init + [last];
      KeepNone(init, p);
    }
  }

  lemma {:induction false} KeepSame<T>(s: seq<T>, p: T -> bool, q: T -> bool)
    requires forall x :: x in s ==> (p(x) <==> q(x))
    ensures Keep(s, p) == Keep(s, q)
  {
    if s == [] {
    } else {
      assert s[|s| - 1] in s;
      KeepSame(s[..|s| - 1], p, q);
    }
  }

  /** A stronger test keeps no more elements. */
  lemma {:induction false} KeepFewer<T>(s: seq<T>, p: T -> bool, q: T -> bool)
    requires forall x :: x in s && p(x) ==> q(x)
    ensures |Keep(s, p)| <= |Keep(s, q)|
  {
    if s == [] {
    } else {
      KeepFewer(s[..|s| - 1], p, q);
    }
  }

  ghost predicate Distinct<T>(s: seq<T>) {
    forall i, j :: 0 <= i < j < |s| ==> s[i] != s[j]
  }

  /** Distinct elements of a set are no more than the set holds. */
  lemma {:induction false} DistinctFits<T>(s: seq<T>, all: set<T>)
    requires Distinct(s) && forall x :: x in s ==> x in all
    ensures |s| <= |all|
  {
    if s == [] {
    } else {
      var init, last := s[..|s| - 1], s[|s| - 1];
      forall x | x in init
        ensures x in all - {last}
      {
        assert x in s;
      }
      DistinctFits(init, all - {last});
    }
  }

  predicate Sorted(ts: seq<real>) {
    forall i, j :: 0 <= i < j < |ts| ==> ts[i] <= ts[j]
  }

  lemma {:induction false} KeepSorted(ts: seq<real>, p: real -> bool)
    requires Sorted(ts)
    ensures Sorted(Keep(ts, p))
  {
    if ts == [] {
    } else {
      KeepSorted(ts[..|ts| - 1], p);
      var init, last := ts[..|ts| - 1], ts[|ts| - 1];
      var kept := Keep(init, p);
      forall i | 0 <= i < |kept|
        ensures kept[i] <= last
      {
        KeepMember(init, p, kept[i]);
        var j :| 0 <= j < |init| && init[j] == kept[i];
        assert ts[j] == init[j];
      }
    }
  }

  /** Strictly later than `cut`. */
  function Later(cut: real): real -> bool {
    (t: real) => t > cut
  }

  /** In the half-open window `(from, to]`. */
  function Within(from: real, to: real): real -> bool {
    (t: real) => from < t <= to
  }

  /** The list stored under a key, or an empty one. */
  function Lookup(m: map<string, seq<real>>, key: string): seq<real> {
    if key in m then m[key] else []
  }

  /** `ts` was built by appending a timestamp only while fewer than `cap`
      earlier ones lay in the window of length `w` before it. */
  predicate Metered(ts: seq<real>, w: real, cap: int) {
    ts == [] ||
    var init, last := ts[..|ts| - 1], ts[|ts| - 1];
    Metered(init, w, cap) && |Keep(init, Later(last - w))| < cap
  }

  lemma MeteredAppend(ts: seq<real>, x: real, w: real, cap: int)
    requires Metered(ts, w, cap) && |Keep(ts, Later(x - w))| < cap
    ensures Metered(ts + [x], w, cap)
  {
    assert (ts + [x])[..|ts + [x]| - 1] == ts;
  }

  /** A metered history respects its cap in every window, not only in those
      that end at an admission. */
  lemma {:induction false} MeteredCaps(ts: seq<real>, w: real, cap: int, t: real)
    requires Metered(ts, w, cap)
    ensures var n := |Keep(ts, Within(t - w, t))|; n == 0 || n <= cap
  {
    if ts == [] {
    } else {
      var init, last := ts[..|ts| - 1], ts[|ts| - 1];
      if t - w < last <= t {
        KeepFewer(init, Within(t - w, t), Later(last - w));
      } else {
        MeteredCaps(init, w, cap, t);
      }
    }
  }

  // ----- lists that are pruned by filtering -----

  /** A list of timestamps, with what has been pruned from it. */
  datatype Ledger = Ledger(held: seq<real>, gone: seq<real>)

  const NO_ENTRIES := Ledger([], [])

  /** No later than `cut`. */
  function Earlier(cut: real): real -> bool {
    (t: real) => t <= cut
  }

  function Prune(l: Ledger, cut: real): Ledger {
    Ledger(Keep(l.held, Later(cut)), l.gone + Keep(l.held, Earlier(cut)))
  }

  function Push(l: Ledger, t: real): Ledger { l.(held := l.held + [t]) }

  /** The ledger accounts for every timestamp of the full list. */
  ghost predicate Covers(l: Ledger, full: seq<real>) {
    forall cut ::
      |Keep(full, Later(cut))| == |Keep(l.held, Later(cut))| + |Keep(l.gone, Later(cut))|
  }

  /** Nothing pruned is later than `cut`. */
  predicate NoneGone(l: Ledger, cut: real) { forall t :: t in l.gone ==> t <= cut }

  lemma {:induction false} KeepSplits(ts: seq<real>, cut: real, c: real)
    ensures |Keep(ts, Later(c))|
            == |Keep(Keep(ts, Later(cut)), Later(c))| + |Keep(Keep(ts, Earlier(cut)), Later(c))|
  {
    if ts == [] {
    } else {
      var init, last := ts[..|ts| - 1], ts[|ts| - 1];
      KeepSplits(init, cut, c);
      KeepAppend(Keep(init, Later(cut)), last, Later(c));
      KeepAppend(Keep(init, Earlier(cut)), last, Later(c));
      if last > cut {
        assert Keep(ts, Earlier(cut)) == Keep(init, Earlier(cut));
      } else {
        assert Keep(ts, Later(cut)) == Keep(init, Later(cut));
      }
    }
  }

  lemma CoversPrune(l: Ledger, full: seq<real>, cut: real)
    requires Covers(l, full)
    ensures Covers(Prune(l, cut), full)
  {
    hide Keep;
    forall c
      ensures |Keep(full, Later(c))|
              == |Keep(Prune(l, cut).held, Later(c))| + |Keep(Prune(l, cut).gone, Later(c))|
    {
      KeepSplits(l.held, cut, c);
      KeepConcat(l.gone, Keep(l.held, Earlier(cut)), Later(c));
    }
  }

  lemma CoversPush(l: Ledger, full: seq<real>, t: real)
    requires Covers(l, full)
    ensures Covers(Push(l, t), full + [t])
  {
    hide Keep;
    forall c
      ensures |Keep(full + [t], Later(c))|
              == |Keep(Push(l, t).held, Later(c))| + |Keep(Push(l, t).gone, Later(c))|
    {
      KeepAppend(full, t, Later(c));
      KeepAppend(l.held, t, Later(c));
    }
  }

  /** The pruned list counts as the full one does exactly when nothing pruned
      belongs to the window. */
  lemma CountIff(l: Ledger, full: seq<real>, cut: real)
    requires Covers(l, full)
    ensures |Prune(l, cut).held| == |Keep(full, Later(cut))| <==> NoneGone(l, cut)
    ensures |Prune(l, cut).held| <= |Keep(full, Later(cut))|
  {
    hide Keep;
    if NoneGone(l, cut) {
      KeepNone(l.gone, Later(cut));
    } else {
      var t :| t in l.gone && t > cut;
      KeepMember(l.gone, Later(cut), t);
    }
  }

  /** Pruning at `cut` loses nothing later than it. */
  lemma PruneLoses(l: Ledger, cut: real, c: real)
    requires NoneGone(l, c) && cut <= c
    ensures NoneGone(Prune(l, cut), c)
  {
    forall t | t in Prune(l, cut).gone
      ensures t <= c
    {
      if t !in l.gone {
        KeepMember(l.held, Earlier(cut), t);
      }
    }
  }

  lemma PushLoses(l: Ledger, t: real, c: real)
    requires NoneGone(l, c)
    ensures NoneGone(Push(l, t), c)
  {
  }
}
