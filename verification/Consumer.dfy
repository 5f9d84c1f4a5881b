/** The transaction consumer: poll a batch, deserialize it, run it through the
    pipeline, commit. Kafka is a log with a poll position and a committed one. */
module Consumer {
  import opened Options
  import P = Pipeline

  /** What a message carries: no value, bytes with a counted decode error (whose
      report to the metrics client may itself raise), a payload on which
      decoding or stamping raises anything else (JSON that is not an object, an
      integer of too many digits, nesting too deep), or a transaction. */
  datatype Payload = NullValue | Undecodable(reported: bool) | Raises | Object(record: P.Record)

  /** What one call of the client's poll does. */
  datatype Poll = Delivered | NothingPending | PartitionEof | BrokersDown | Transient | PollRaises

  datatype Config = Config(log: seq<Payload>, batchSize: nat, policies: P.Policies)

  /** How a message ended. `Lost` messages were polled but never reached the
      pipeline, because polling or deserializing their batch raised. */
  datatype Ending = Succeeded | DeadLettered | Vanished | BadPayload | Null | Lost

  datatype State = State(position: nat, committed: nat, endings: seq<Ending>, dlq: seq<P.DeadLetter>,
                         decodeErrors: nat, succeeded: nat, failed: nat)

  /** A batch, or a commit between batches (revocation, shutdown). A commit may
      fail, or not be reached because publishing the batch metrics raised. */
  datatype Op = Consume(polls: seq<Poll>, commitOk: bool) | Commit(ok: bool)

  const INIT := State(0, 0, [], [], 0, 0, 0)

  // ----- one batch -----

  /** How many messages a batch collects. */
  function Taken(polls: seq<Poll>, room: nat, available: nat): (k: nat)
    ensures k <= room && k <= available
  {
    if room == 0 || polls == [] then 0
    else
      match polls[0]
      case Delivered => if available == 0 then 0 else 1 + Taken(polls[1..], room - 1, available - 1)
      case PartitionEof => Taken(polls[1..], room, available)
      case Transient => Taken(polls[1..], room, available)
      case _ => 0
  }

  /** Whether polling raises before the batch is collected. */
  predicate PollFails(polls: seq<Poll>, room: nat, available: nat) {
    room > 0 && polls != [] &&
    match polls[0]
    case Delivered => available > 0 && PollFails(polls[1..], room - 1, available - 1)
    case PartitionEof => PollFails(polls[1..], room, available)
    case Transient => PollFails(polls[1..], room, available)
    case PollRaises => true
    case _ => false
  }

  /** Deserializing the message raises, or reporting its decode error does. */
  predicate Breaking(m: Payload) { m.Raises? || (m.Undecodable? && !m.reported) }

  /** The position of the first message that makes deserialization raise. */
  function FirstRaising(msgs: seq<Payload>): (f: nat)
    ensures f <= |msgs| && (f < |msgs| ==> Breaking(msgs[f]))
    ensures forall i :: 0 <= i < f ==> !Breaking(msgs[i])
  {
    if msgs == [] || Breaking(msgs[0]) then 0 else 1 + FirstRaising(msgs[1..])
  }

  /** The batch never gets to the pipeline. */
  predicate Breaks(msgs: seq<Payload>, pollFailed: bool) { pollFailed || FirstRaising(msgs) < |msgs| }

  /** How many messages deserialization got to. */
  function Reached(msgs: seq<Payload>, pollFailed: bool): (n: nat)
    ensures n <= |msgs|
  {
    if pollFailed then 0 else if FirstRaising(msgs) < |msgs| then FirstRaising(msgs) + 1 else |msgs|
  }

  /** The records of a batch, stamped with their offsets. */
  function Records(msgs: seq<Payload>, base: nat): seq<P.Record> {
    if msgs == [] then []
    else
      var n := |msgs| - 1;
      Records(msgs[..n], base) + (if msgs[n].Object? then [msgs[n].record.(offset := base + n)] else [])
  }

  function OfFate(fate: P.Fate): Ending {
    match fate
    case Succeeds => Succeeded
    case Dead(_, _) => DeadLettered
    case Vanishes(_) => Vanished
  }

  /** How a message of a batch that is processed ends. */
  function Processed(policies: P.Policies, m: Payload): Ending {
    match m
    case NullValue => Null
    case Undecodable(_) => BadPayload
    case Raises => Lost
    case Object(r) => OfFate(P.FateOf(policies, r))
  }

  /** How a message ends whose batch raised after `f` messages. */
  function Aborted(m: Payload, i: nat, f: nat): Ending {
    if i >= f then Lost
    else
      match m
      case NullValue => Null
      case Undecodable(_) => BadPayload
      case _ => Lost
  }

  function ProcessedAll(policies: P.Policies, msgs: seq<Payload>): (es: seq<Ending>)
    ensures |es| == |msgs|
  {
    if msgs == [] then [] else ProcessedAll(policies, msgs[..|msgs| - 1]) + [Processed(policies, msgs[|msgs| - 1])]
  }

  function AbortedAll(msgs: seq<Payload>, f: nat): (es: seq<Ending>)
    ensures |es| == |msgs|
  {
    if msgs == [] then [] else AbortedAll(msgs[..|msgs| - 1], f) + [Aborted(msgs[|msgs| - 1], |msgs| - 1, f)]
  }

  function BatchEndings(policies: P.Policies, msgs: seq<Payload>, pollFailed: bool): (es: seq<Ending>)
    ensures |es| == |msgs|
  {
    if Breaks(msgs, pollFailed) then AbortedAll(msgs, Reached(msgs, pollFailed)) else ProcessedAll(policies, msgs)
  }

  function BadCount(msgs: seq<Payload>): nat {
    if msgs == [] then 0 else BadCount(msgs[..|msgs| - 1]) + (if msgs[|msgs| - 1].Undecodable? then 1 else 0)
  }

  /** What the messages of one batch do to the state. */
  function Absorb(cfg: Config, st: State, msgs: seq<Payload>, pollFailed: bool, commitOk: bool): State {
    var records := Records(msgs, st.position);
    var polled := st.(position := st.position + |msgs|,
                      endings := st.endings + BatchEndings(cfg.policies, msgs, pollFailed),
                      decodeErrors := st.decodeErrors + BadCount(msgs[..Reached(msgs, pollFailed)]));
    if Breaks(msgs, pollFailed) || records == [] then polled
    else
      polled.(dlq := st.dlq + P.Letters(cfg.policies, records),
              succeeded := st.succeeded + P.Count(cfg.policies, records, P.IsSuccess()),
              failed := st.failed + P.Count(cfg.policies, records, P.IsFailure()),
              committed := if commitOk then polled.position else st.committed)
  }

  function Batch(cfg: Config, st: State, polls: seq<Poll>): (msgs: seq<Payload>)
    requires st.position <= |cfg.log|
  {
    cfg.log[st.position..st.position + Taken(polls, cfg.batchSize, |cfg.log| - st.position)]
  }

  predicate Failed(cfg: Config, st: State, polls: seq<Poll>)
    requires st.position <= |cfg.log|
  {
    PollFails(polls, cfg.batchSize, |cfg.log| - st.position)
  }

  function Step(cfg: Config, st: State, op: Op): State
    requires st.position <= |cfg.log|
  {
    match op
    case Commit(ok) => if ok then st.(committed := st.position) else st
    case Consume(polls, commitOk) => Absorb(cfg, st, Batch(cfg, st, polls), Failed(cfg, st, polls), commitOk)
  }

  ghost predicate Bounded(cfg: Config, st: State) { st.committed <= st.position <= |cfg.log| }

  function Run(cfg: Config, ops: seq<Op>): (st: State)
    ensures Bounded(cfg, st)
  {
    if ops == [] then INIT else Step(cfg, Run(cfg, ops[..|ops| - 1]), ops[|ops| - 1])
  }

  // ----- counting endings -----

  function Tally(es: seq<Ending>, e: Ending): nat {
    if es == [] then 0 else Tally(es[..|es| - 1], e) + (if es[|es| - 1] == e then 1 else 0)
  }

  lemma {:induction false} TallyConcat(a: seq<Ending>, b: seq<Ending>, e: Ending)
    ensures Tally(a + b, e) == Tally(a, e) + Tally(b, e)
  {
    if b == [] {
      assert a + b == a;
    } else {
      TallyConcat(a, b[..|b| - 1], e);
      assert (a + b)[..|a + b| - 1] == a + b[..|b| - 1];
    }
  }

  /** Every message ends exactly once. */
  lemma {:induction false} EndingsPartition(es: seq<Ending>)
    ensures Tally(es, Succeeded) + Tally(es, DeadLettered) + Tally(es, Vanished) + Tally(es, BadPayload)
            + Tally(es, Null) + Tally(es, Lost) == |es|
  {
    if es == [] {
    } else {
      EndingsPartition(es[..|es| - 1]);
      match es[|es| - 1] {
        case Succeeded => case DeadLettered => case Vanished => case BadPayload => case Null => case Lost =>
      }
    }
  }

  lemma TallyAppend(es: seq<Ending>, x: Ending, e: Ending)
    ensures Tally(es + [x], e) == Tally(es, e) + (if x == e then 1 else 0)
  {
    assert (es + [x])[..|es + [x]| - 1] == es;
  }

  /** The kind of ending a predicate on fates counts. */
  ghost predicate Matches(p: P.Fate -> bool, good: set<Ending>) {
    forall f :: p(f) <==> OfFate(f) in good
  }

  function TallyIn(es: seq<Ending>, good: set<Ending>): nat {
    if es == [] then 0 else TallyIn(es[..|es| - 1], good) + (if es[|es| - 1] in good then 1 else 0)
  }

  /** The pipeline's counts for the records of a clean batch are the counts of
      its endings. */
  lemma {:induction false} CountsMatch(policies: P.Policies, msgs: seq<Payload>, base: nat, p: P.Fate -> bool,
                                       good: set<Ending>)
    requires Matches(p, good) && good <= {Succeeded, DeadLettered, Vanished}
    requires forall i :: 0 <= i < |msgs| ==> !Breaking(msgs[i])
    ensures P.Count(policies, Records(msgs, base), p) == TallyIn(ProcessedAll(policies, msgs), good)
  {
    hide P.FateOf, Records, ProcessedAll, TallyIn, P.Count;
    if msgs == [] {
      EmptySums(policies, base, p, good);
    } else {
      var n := |msgs| - 1;
      var init, m := msgs[..n], msgs[n];
      assert msgs == init + [m];
      CountsMatch(policies, init, base, p, good);
      BatchAppend(policies, init, m, base);
      TallyInAppend(ProcessedAll(policies, init), Processed(policies, m), good);
      if m.Object? {
        OffsetsDoNotMatter(policies, m.record, base + n);
        P.CountAppend(policies, Records(init, base), m.record.(offset := base + n), p);
      }
    }
  }

  lemma EmptySums(policies: P.Policies, base: nat, p: P.Fate -> bool, good: set<Ending>)
    ensures P.Count(policies, Records([], base), p) == 0 && TallyIn(ProcessedAll(policies, []), good) == 0
  {
  }

  lemma TallyInAppend(es: seq<Ending>, x: Ending, good: set<Ending>)
    ensures TallyIn(es + [x], good) == TallyIn(es, good) + (if x in good then 1 else 0)
  {
    assert (es + [x])[..|es + [x]| - 1] == es;
  }

  lemma BatchAppend(policies: P.Policies, init: seq<Payload>, m: Payload, base: nat)
    ensures Records(init + [m], base) ==
            if m.Object? then Records(init, base) + [m.record.(offset := base + |init|)] else Records(init, base)
    ensures ProcessedAll(policies, init + [m]) == ProcessedAll(policies, init) + [Processed(policies, m)]
  {
    hide P.FateOf;
    assert (init + [m])[..|init + [m]| - 1] == init;
  }

  lemma OffsetsDoNotMatter(policies: P.Policies, r: P.Record, o: nat)
    ensures P.FateOf(policies, r.(offset := o)) == P.FateOf(policies, r)
  {
  }

  lemma {:induction false} TallyInSplits(es: seq<Ending>)
    ensures TallyIn(es, {Succeeded}) == Tally(es, Succeeded)
    ensures TallyIn(es, {DeadLettered, Vanished}) == Tally(es, DeadLettered) + Tally(es, Vanished)
  {
    if es == [] {
    } else {
      TallyInSplits(es[..|es| - 1]);
    }
  }

  lemma {:induction false} CleanBatchDecodes(policies: P.Policies, msgs: seq<Payload>)
    requires forall i :: 0 <= i < |msgs| ==> !Breaking(msgs[i])
    ensures BadCount(msgs) == Tally(ProcessedAll(policies, msgs), BadPayload)
  {
    hide P.FateOf, Tally;
    if msgs == [] {
      EmptyLetters(policies, 0);
    } else {
      var n := |msgs| - 1;
      CleanBatchDecodes(policies, msgs[..n]);
      TallyAppend(ProcessedAll(policies, msgs[..n]), Processed(policies, msgs[n]), BadPayload);
    }
  }

  lemma CleanBatchCounts(policies: P.Policies, msgs: seq<Payload>, base: nat)
    requires forall i :: 0 <= i < |msgs| ==> !Breaking(msgs[i])
    ensures var es, rs := ProcessedAll(policies, msgs), Records(msgs, base);
            && P.Count(policies, rs, P.IsSuccess()) == Tally(es, Succeeded)
            && P.Count(policies, rs, P.IsFailure()) == Tally(es, DeadLettered) + Tally(es, Vanished)
            && BadCount(msgs) == Tally(es, BadPayload)
  {
    hide P.FateOf, ProcessedAll, Records, Tally, TallyIn, P.Count, BadCount;
    CountsMatch(policies, msgs, base, P.IsSuccess(), {Succeeded});
    CountsMatch(policies, msgs, base, P.IsFailure(), {DeadLettered, Vanished});
    TallyInSplits(ProcessedAll(policies, msgs));
    CleanBatchDecodes(policies, msgs);
  }

  /** A raising batch counts its decode errors up to the failure. */
  lemma {:induction false} AbortedBatchCounts(msgs: seq<Payload>, f: nat)
    ensures var es := AbortedAll(msgs, f);
            && Tally(es, BadPayload) == BadCount(msgs[..if |msgs| < f then |msgs| else f])
            && Tally(es, Succeeded) == Tally(es, DeadLettered) == Tally(es, Vanished) == 0
  {
    if msgs == [] {
    } else {
      var n := |msgs| - 1;
      AbortedBatchCounts(msgs[..n], f);
      var es := AbortedAll(msgs, f);
      assert es[..n] == AbortedAll(msgs[..n], f);
      if n < f {
        assert msgs[..n + 1] == msgs && msgs[..n][..n] == msgs[..n];
      } else {
        assert msgs[..n][..f] == msgs[..f];
      }
    }
  }

  // ----- the dead-letter queue -----

  /** The queue lists the offsets that ended there, each once, in order. */
  ghost predicate QueueExact(dlq: seq<P.DeadLetter>, endings: seq<Ending>) {
    && Ascending(dlq) && Names(dlq, 0, endings)
    && |dlq| == Tally(endings, DeadLettered)
  }

  ghost predicate Ascending(ls: seq<P.DeadLetter>) {
    forall i, j :: 0 <= i < j < |ls| ==> ls[i].offset < ls[j].offset
  }

  /** The letters name offsets from `base` on that ended as dead letters. */
  ghost predicate Names(ls: seq<P.DeadLetter>, base: nat, es: seq<Ending>) {
    forall i :: 0 <= i < |ls| ==> base <= ls[i].offset < base + |es| && es[ls[i].offset - base] == DeadLettered
  }

  lemma {:induction false} LettersOfBatch(policies: P.Policies, msgs: seq<Payload>, base: nat)
    requires forall i :: 0 <= i < |msgs| ==> !Breaking(msgs[i])
    ensures var ls, es := P.Letters(policies, Records(msgs, base)), ProcessedAll(policies, msgs);
            Ascending(ls) && Names(ls, base, es) && |ls| == Tally(es, DeadLettered)
  {
    hide P.FateOf, Tally, Records, ProcessedAll, P.Letters, Ascending, Names;
    if msgs == [] {
      EmptyLetters(policies, base);
    } else {
      var n := |msgs| - 1;
      var init, m := msgs[..n], msgs[n];
      var es := ProcessedAll(policies, init);
      assert msgs == init + [m];
      LettersOfBatch(policies, init, base);
      BatchAppend(policies, init, m, base);
      TallyAppend(es, Processed(policies, m), DeadLettered);
      if m.Object? {
        OffsetsDoNotMatter(policies, m.record, base + n);
        P.LettersAppend(policies, Records(init, base), m.record.(offset := base + n));
      }
      NamesGrow(P.Letters(policies, Records(init, base)), base, es, Processed(policies, m),
                P.Letters(policies, Records(msgs, base)));
    }
  }

  lemma NamesGrow(ls: seq<P.DeadLetter>, base: nat, es: seq<Ending>, x: Ending, more: seq<P.DeadLetter>)
    requires Ascending(ls) && Names(ls, base, es)
    requires if x.DeadLettered? then |more| == |ls| + 1 && more[..|ls|] == ls && more[|ls|].offset == base + |es|
             else more == ls
    ensures Ascending(more) && Names(more, base, es + [x])
  {
    forall i | 0 <= i < |ls|
      ensures more[i] == ls[i]
    {
      assert more[..|ls|][i] == more[i];
    }
  }

  lemma EmptyLetters(policies: P.Policies, base: nat)
    ensures P.Letters(policies, Records([], base)) == []
    ensures ProcessedAll(policies, []) == [] && forall e :: Tally([], e) == 0
    ensures Ascending([]) && Names([], base, [])
  {
  }

  lemma QueueGrows(dlq: seq<P.DeadLetter>, endings: seq<Ending>, ls: seq<P.DeadLetter>, es: seq<Ending>)
    requires QueueExact(dlq, endings)
    requires Ascending(ls) && Names(ls, |endings|, es) && |ls| == Tally(es, DeadLettered)
    ensures QueueExact(dlq + ls, endings + es)
  {
    hide Tally;
    TallyConcat(endings, es, DeadLettered);
    var all, ends := dlq + ls, endings + es;
    forall i | 0 <= i < |all|
      ensures 0 <= all[i].offset < |ends| && ends[all[i].offset] == DeadLettered
      ensures i >= |dlq| ==> all[i].offset >= |endings|
      ensures i < |dlq| ==> all[i].offset < |endings|
    {
      if i < |dlq| {
        assert all[i] == dlq[i];
      } else {
        assert all[i] == ls[i - |dlq|];
      }
    }
  }

  // ----- what every run keeps -----

  /** A message that its batch took but did not bring to an end: all of them when
      polling raised, otherwise those after the message at which deserializing
      raised, and the objects before it. */
  predicate SkippedIn(msgs: seq<Payload>, pollFailed: bool, i: nat)
    requires i < |msgs|
  {
    Breaks(msgs, pollFailed) && (i >= Reached(msgs, pollFailed) || msgs[i].Raises? || msgs[i].Object?)
  }

  /** The offset was skipped so by the batch of the run that took it. */
  predicate Skipped(cfg: Config, ops: seq<Op>, o: nat) {
    ops != [] &&
    var init, op := ops[..|ops| - 1], ops[|ops| - 1];
    var st := Run(cfg, init);
    if op.Consume? && st.position <= o < st.position + |Batch(cfg, st, op.polls)|
    then SkippedIn(Batch(cfg, st, op.polls), Failed(cfg, st, op.polls), o - st.position)
    else Skipped(cfg, init, o)
  }

  ghost predicate Inv(cfg: Config, ops: seq<Op>) {
    var st := Run(cfg, ops);
    && |st.endings| == st.position
    && forall o :: 0 <= o < st.position ==>
         && st.endings[o] == (if Skipped(cfg, ops, o) then Lost else Processed(cfg.policies, cfg.log[o]))
         && (cfg.log[o].Raises? ==> Skipped(cfg, ops, o))
  }

  ghost predicate Counted(st: State) {
    && st.decodeErrors == Tally(st.endings, BadPayload)
    && st.succeeded == Tally(st.endings, Succeeded)
    && st.failed == Tally(st.endings, DeadLettered) + Tally(st.endings, Vanished)
    && QueueExact(st.dlq, st.endings)
  }

  lemma {:induction false} EndingAt(policies: P.Policies, msgs: seq<Payload>, f: nat, i: nat)
    requires i < |msgs|
    ensures ProcessedAll(policies, msgs)[i] == Processed(policies, msgs[i])
    ensures AbortedAll(msgs, f)[i] == Aborted(msgs[i], i, f)
  {
    if i == |msgs| - 1 {
    } else {
      EndingAt(policies, msgs[..|msgs| - 1], f, i);
    }
  }

  lemma BatchEndingAt(policies: P.Policies, msgs: seq<Payload>, pollFailed: bool, i: nat)
    requires i < |msgs|
    ensures BatchEndings(policies, msgs, pollFailed)[i]
            == if SkippedIn(msgs, pollFailed, i) then Lost else Processed(policies, msgs[i])
    ensures msgs[i].Raises? ==> SkippedIn(msgs, pollFailed, i)
  {
    hide P.FateOf, ProcessedAll, AbortedAll;
    EndingAt(policies, msgs, Reached(msgs, pollFailed), i);
    if msgs[i].Raises? {
      assert Breaking(msgs[i]);
    }
  }

  lemma StepEndings(cfg: Config, st: State, op: Op)
    requires st.position <= |cfg.log|
    ensures var after := Step(cfg, st, op);
            if op.Commit? then after.position == st.position && after.endings == st.endings
            else
              var msgs := Batch(cfg, st, op.polls);
              && after.position == st.position + |msgs|
              && after.endings == st.endings + BatchEndings(cfg.policies, msgs, Failed(cfg, st, op.polls))
  {
    hide Taken, PollFails, BatchEndings, P.Letters, P.Count, Records, BadCount, Reached;
  }

  lemma {:induction false} RunInv(cfg: Config, ops: seq<Op>)
    ensures Inv(cfg, ops)
  {
    hide Step, Taken, PollFails, BatchEndings, Processed, SkippedIn;
    if ops == [] {
    } else {
      var init, op := ops[..|ops| - 1], ops[|ops| - 1];
      var st, after := Run(cfg, init), Run(cfg, ops);
      RunInv(cfg, init);
      StepEndings(cfg, st, op);
      forall o: nat | o < after.position
        ensures after.endings[o] == (if Skipped(cfg, ops, o) then Lost else Processed(cfg.policies, cfg.log[o]))
        ensures cfg.log[o].Raises? ==> Skipped(cfg, ops, o)
      {
        if o >= st.position {
          var msgs := Batch(cfg, st, op.polls);
          assert msgs[o - st.position] == cfg.log[o];
          BatchEndingAt(cfg.policies, msgs, Failed(cfg, st, op.polls), o - st.position);
        }
      }
    }
  }

  lemma ConsumeKeepsCounts(cfg: Config, st: State, op: Op)
    requires Bounded(cfg, st) && |st.endings| == st.position && Counted(st) && op.Consume?
    ensures Counted(Step(cfg, st, op))
  {
    hide P.FateOf, Processed, Taken, PollFails, Tally, QueueExact, BadCount, P.Letters, P.Count, P.LettersOf, Records,
         ProcessedAll, AbortedAll, Batch, Failed;
    var msgs, pollFailed := Batch(cfg, st, op.polls), Failed(cfg, st, op.polls);
    var es := BatchEndings(cfg.policies, msgs, pollFailed);
    TallyConcat(st.endings, es, BadPayload);
    TallyConcat(st.endings, es, Succeeded);
    TallyConcat(st.endings, es, DeadLettered);
    TallyConcat(st.endings, es, Vanished);
    assert st.dlq + [] == st.dlq;
    if Breaks(msgs, pollFailed) {
      AbortedBatchCounts(msgs, Reached(msgs, pollFailed));
      QueueGrows(st.dlq, st.endings, [], es);
    } else {
      assert msgs[..|msgs|] == msgs;
      CleanBatchCounts(cfg.policies, msgs, st.position);
      LettersOfBatch(cfg.policies, msgs, st.position);
      QueueGrows(st.dlq, st.endings, P.Letters(cfg.policies, Records(msgs, st.position)), es);
      P.EmptyCounts(cfg.policies);
    }
  }

  lemma {:induction false} RunCounted(cfg: Config, ops: seq<Op>)
    ensures Counted(Run(cfg, ops))
  {
    if ops == [] {
    } else {
      var st, op := Run(cfg, ops[..|ops| - 1]), ops[|ops| - 1];
      RunCounted(cfg, ops[..|ops| - 1]);
      RunInv(cfg, ops[..|ops| - 1]);
      if op.Consume? {
        ConsumeKeepsCounts(cfg, st, op);
      }
    }
  }

  /** A message accounted for: processed to success or to the dead-letter
      queue, a counted decode error, or a null value. */
  predicate Accounted(e: Ending) { e.Succeeded? || e.DeadLettered? || e.BadPayload? || e.Null? }

  /** An object for which a stage of the pipeline returns nothing. */
  predicate Withheld(policies: P.Policies, m: Payload) { m.Object? && P.Withheld(policies, m.record) }

  lemma WithheldIsVanished(policies: P.Policies, m: Payload)
    ensures Withheld(policies, m) <==> Processed(policies, m) == Vanished
  {
    hide P.FateOf, P.Withheld;
    if m.Object? {
      P.VanishesIffWithheld(policies, m.record);
    }
  }

  /** Conservation of messages. In every run each polled offset has exactly one
      ending, the counters and the dead-letter queue are exactly the endings,
      and an offset is accounted for if and only if its batch did not skip it
      and it is no object that cleaning or normalization withholds; so all
      committed offsets are if and only if that holds of each of them. */
  lemma {:induction false} CommittedMessagesAreAccounted(cfg: Config, ops: seq<Op>)
    ensures var st := Run(cfg, ops);
            && |st.endings| == st.position && Counted(st)
            && st.succeeded + st.failed + st.decodeErrors + Tally(st.endings, Null) + Tally(st.endings, Lost)
               == st.position
    ensures var st := Run(cfg, ops);
            forall o :: 0 <= o < st.position ==>
              (Accounted(st.endings[o]) <==> !Skipped(cfg, ops, o) && !Withheld(cfg.policies, cfg.log[o]))
    ensures var st := Run(cfg, ops);
            (forall o :: 0 <= o < st.committed ==> Accounted(st.endings[o])) <==>
            forall o :: 0 <= o < st.committed ==> !Skipped(cfg, ops, o) && !Withheld(cfg.policies, cfg.log[o])
  {
    hide Run, Processed, QueueExact, Tally, Withheld, Skipped;
    var st := Run(cfg, ops);
    RunInv(cfg, ops);
    RunCounted(cfg, ops);
    EndingsPartition(st.endings);
    forall o | 0 <= o < st.position
      ensures Accounted(st.endings[o]) <==> !Skipped(cfg, ops, o) && !Withheld(cfg.policies, cfg.log[o])
    {
      WithheldIsVanished(cfg.policies, cfg.log[o]);
      OnlyRaisingIsLost(cfg.policies, cfg.log[o]);
    }
  }

  lemma OnlyRaisingIsLost(policies: P.Policies, m: Payload)
    ensures Processed(policies, m) == Lost <==> m.Raises?
  {
    hide P.FateOf;
  }

  // ----- what each operation does -----

  /** The messages delivered before the client has nothing more, or raises. */
  function DeliveredBefore(polls: seq<Poll>): nat {
    if polls == [] || polls[0] in {NothingPending, BrokersDown, PollRaises} then 0
    else DeliveredBefore(polls[1..]) + (if polls[0] == Delivered then 1 else 0)
  }

  /** A batch takes what is delivered, up to its size and the end of the log. */
  lemma {:induction false} TakenMeans(polls: seq<Poll>, room: nat, available: nat)
    ensures Taken(polls, room, available) <= DeliveredBefore(polls)
    ensures Taken(polls, room, available) == room || Taken(polls, room, available) == available
            || Taken(polls, room, available) == DeliveredBefore(polls)
  {
    if room == 0 || polls == [] {
    } else {
      TakenMeans(polls[1..], room, available);
      if available > 0 {
        TakenMeans(polls[1..], room - 1, available - 1);
      }
    }
  }

  /** A commit that succeeds moves to the poll position. A batch moves the poll
      position past what it took, and commits there if it got to the pipeline
      and its commit succeeds; otherwise nothing is committed. */
  lemma OffsetsMean(cfg: Config, st: State, polls: seq<Poll>, commitOk: bool)
    requires st.position <= |cfg.log|
    ensures Step(cfg, st, Commit(commitOk)) == if commitOk then st.(committed := st.position) else st
    ensures var after := Step(cfg, st, Consume(polls, commitOk));
            var n := Taken(polls, cfg.batchSize, |cfg.log| - st.position);
            var msgs := cfg.log[st.position..st.position + n];
            && after.position == st.position + n
            && after.committed ==
               if !PollFails(polls, cfg.batchSize, |cfg.log| - st.position) && commitOk
                  && (forall i :: 0 <= i < n ==> !msgs[i].Raises? && !(msgs[i].Undecodable? && !msgs[i].reported))
                  && (exists i :: 0 <= i < n && msgs[i].Object?)
               then after.position else st.committed
  {
    hide Taken, PollFails, BatchEndings, BadCount, P.Letters, P.Count, FirstRaising, Records, Reached, Absorb;
    var msgs := Batch(cfg, st, polls);
    RecordsExist(msgs, st.position);
    CleanIff(msgs);
    AbsorbCases(cfg, st, msgs, Failed(cfg, st, polls), commitOk);
    if Records(msgs, st.position) != [] {
      var i :| 0 <= i < |msgs| && msgs[i].Object?;
      assert msgs[i].Object?;
    }
  }

  lemma CleanIff(msgs: seq<Payload>)
    ensures FirstRaising(msgs) < |msgs| <==>
            !forall i :: 0 <= i < |msgs| ==> !msgs[i].Raises? && !(msgs[i].Undecodable? && !msgs[i].reported)
    ensures FirstRaising(msgs) <= |msgs|
  {
    if FirstRaising(msgs) < |msgs| {
      assert Breaking(msgs[FirstRaising(msgs)]);
    } else {
      forall i | 0 <= i < |msgs|
        ensures !msgs[i].Raises? && !(msgs[i].Undecodable? && !msgs[i].reported)
      {
        assert !Breaking(msgs[i]);
      }
    }
  }

  lemma {:induction false} RecordsExist(msgs: seq<Payload>, base: nat)
    ensures Records(msgs, base) == [] <==> forall i :: 0 <= i < |msgs| ==> !msgs[i].Object?
  {
    if msgs == [] {
    } else {
      var init := msgs[..|msgs| - 1];
      RecordsExist(init, base);
      assert forall i :: 0 <= i < |init| ==> init[i] == msgs[i];
    }
  }

  /** What a batch skips: all of it when polling raised; otherwise, from the first
      message `f` on which deserializing raised, that message unless it is a
      counted decode error, all later ones, and the objects before it. */
  lemma SkippedMeans(msgs: seq<Payload>, i: nat, f: nat)
    requires i < |msgs| && f <= |msgs|
    requires forall j :: 0 <= j < f ==> !msgs[j].Raises? && !(msgs[j].Undecodable? && !msgs[j].reported)
    requires f < |msgs| ==> msgs[f].Raises? || (msgs[f].Undecodable? && !msgs[f].reported)
    ensures SkippedIn(msgs, true, i)
    ensures SkippedIn(msgs, false, i) <==>
            f < |msgs| && (i > f || (i == f && msgs[i].Raises?) || (i < f && msgs[i].Object?))
  {
    FirstRaisingIs(msgs, f);
  }

  lemma {:induction false} FirstRaisingIs(msgs: seq<Payload>, f: nat)
    requires f <= |msgs| && (f < |msgs| ==> Breaking(msgs[f]))
    requires forall j :: 0 <= j < f ==> !Breaking(msgs[j])
    ensures FirstRaising(msgs) == f
  {
    if f == 0 {
    } else {
      FirstRaisingIs(msgs[1..], f - 1);
    }
  }

  /** How an offset ends that its batch did not skip. */
  lemma {:induction false} EndingMeans(cfg: Config, ops: seq<Op>, o: nat)
    requires o < Run(cfg, ops).position && !Skipped(cfg, ops, o)
    ensures |Run(cfg, ops).endings| == Run(cfg, ops).position && !cfg.log[o].Raises?
    ensures Run(cfg, ops).endings[o] ==
            match cfg.log[o]
            case NullValue => Null
            case Undecodable(_) => BadPayload
            case Raises => Lost
            case Object(r) => (
              match P.FateOf(cfg.policies, r)
              case Succeeds => Succeeded
              case Dead(_, _) => DeadLettered
              case Vanishes(_) => Vanished)
  {
    hide Run, Skipped, P.FateOf;
    RunInv(cfg, ops);
  }

  // ----- when nothing is skipped -----

  /** The clients do not raise: polling returns, and decode errors are reported. */
  ghost predicate ClientsWork(cfg: Config, ops: seq<Op>) {
    && (forall i, j :: 0 <= i < |ops| && ops[i].Consume? && 0 <= j < |ops[i].polls| ==> !ops[i].polls[j].PollRaises?)
    && (forall o :: 0 <= o < |cfg.log| && cfg.log[o].Undecodable? ==> cfg.log[o].reported)
  }

  lemma {:induction false} PollsReturn(polls: seq<Poll>, room: nat, available: nat)
    requires forall j :: 0 <= j < |polls| ==> !polls[j].PollRaises?
    ensures !PollFails(polls, room, available)
  {
    if room == 0 || polls == [] {
    } else {
      PollsReturn(polls[1..], room, available);
      if room > 0 && available > 0 {
        PollsReturn(polls[1..], room - 1, available - 1);
      }
    }
  }

  /** Nothing below `bound` is skipped unless a message below it raises. */
  ghost predicate SkipsExplained(cfg: Config, ops: seq<Op>, bound: nat) {
    bound <= |cfg.log| && (forall o :: 0 <= o < bound ==> !cfg.log[o].Raises?) ==>
      forall o :: 0 <= o < bound ==> !Skipped(cfg, ops, o)
  }

  /** A batch only decides about the offsets it takes. */
  lemma SkippedStep(cfg: Config, init: seq<Op>, op: Op, o: nat)
    requires o < Run(cfg, init).position || op.Commit?
    ensures Skipped(cfg, init + [op], o) == Skipped(cfg, init, o)
  {
    hide Run, Batch, SkippedIn;
    assert (init + [op])[..|init + [op]| - 1] == init;
  }

  lemma SkipsExtend(cfg: Config, init: seq<Op>, op: Op, bound: nat)
    requires SkipsExplained(cfg, init, bound) && (bound <= Run(cfg, init).position || op.Commit?)
    ensures SkipsExplained(cfg, init + [op], bound)
  {
    hide Run, Skipped;
    forall o: nat | o < bound
      ensures Skipped(cfg, init + [op], o) == Skipped(cfg, init, o)
    {
      SkippedStep(cfg, init, op, o);
    }
  }

  lemma BatchExplained(cfg: Config, init: seq<Op>, op: Op)
    requires op.Consume? && ClientsWork(cfg, init + [op]) && SkipsExplained(cfg, init, Run(cfg, init).position)
    ensures var st := Run(cfg, init);
            SkipsExplained(cfg, init + [op], st.position + |Batch(cfg, st, op.polls)|)
  {
    hide Run, Taken, PollFails, FirstRaising;
    var ops, st := init + [op], Run(cfg, init);
    var msgs := Batch(cfg, st, op.polls);
    assert ops[..|ops| - 1] == init && ops[|init|] == op;
    PollsReturn(op.polls, cfg.batchSize, |cfg.log| - st.position);
    SkipsExtend(cfg, init, op, st.position);
    if forall o :: 0 <= o < st.position + |msgs| ==> !cfg.log[o].Raises? {
      NoneFound(cfg, st.position, msgs);
      forall o: nat | o < st.position + |msgs|
        ensures !Skipped(cfg, ops, o)
      {
      }
    }
  }

  lemma {:induction false} SkipsAreExplained(cfg: Config, ops: seq<Op>)
    requires ClientsWork(cfg, ops)
    ensures SkipsExplained(cfg, ops, Run(cfg, ops).position) && SkipsExplained(cfg, ops, Run(cfg, ops).committed)
  {
    hide SkipsExplained, Taken, PollFails, BatchEndings, P.Letters, P.Count, Records, BadCount, Reached, Breaks;
    if ops == [] {
      NothingSkipped(cfg);
    } else {
      var init, op := ops[..|ops| - 1], ops[|ops| - 1];
      var st := Run(cfg, init);
      assert ops == init + [op];
      assert ClientsWork(cfg, init) by {
        assert forall i :: 0 <= i < |init| ==> init[i] == ops[i];
      }
      SkipsAreExplained(cfg, init);
      SkipsExtend(cfg, init, op, st.committed);
      if op.Consume? {
        BatchExplained(cfg, init, op);
      } else {
        SkipsExtend(cfg, init, op, st.position);
      }
    }
  }

  lemma NothingSkipped(cfg: Config)
    ensures SkipsExplained(cfg, [], 0)
  {
  }

  lemma NoneFound(cfg: Config, base: nat, msgs: seq<Payload>)
    requires base + |msgs| <= |cfg.log| && msgs == cfg.log[base..base + |msgs|]
    requires forall o :: 0 <= o < |cfg.log| && cfg.log[o].Undecodable? ==> cfg.log[o].reported
    requires forall i :: 0 <= i < |msgs| ==> !msgs[i].Raises?
    ensures FirstRaising(msgs) == |msgs|
  {
    forall i | 0 <= i < |msgs|
      ensures !Breaking(msgs[i])
    {
      assert msgs[i] == cfg.log[base + i];
    }
  }

  /** A failed poll also loses whatever it had collected: one message, polled and
      then committed past, ends as lost. */
  lemma FailedPollLoses(record: P.Record, batchSize: nat, policies: P.Policies)
    requires batchSize >= 2
    ensures var cfg := Config([Object(record)], batchSize, policies);
            var st := Run(cfg, [Consume([Delivered, PollRaises], true), Commit(true)]);
            st.committed == 1 && st.endings == [Lost]
  {
    var cfg := Config([Object(record)], batchSize, policies);
    var polls := [Delivered, PollRaises];
    var take := Consume(polls, true);
    assert polls[1..] == [PollRaises];
    assert Taken(polls, batchSize, 1) == 1 && PollFails(polls, batchSize, 1);
    assert cfg.log[0..1] == cfg.log;
    assert AbortedAll(cfg.log, 0) == [Lost];
    assert [take][..0] == [] && [take, Commit(true)][..1] == [take];
    assert Run(cfg, [take]).endings == [Lost] && Run(cfg, [take]).position == 1;
  }

  /** When the clients work: every offset below the committed position is
      accounted for if and only if none of those messages raises in decoding or
      is an object that cleaning or normalization withholds. */
  lemma {:induction false} CommittedIffDecodable(cfg: Config, ops: seq<Op>)
    requires ClientsWork(cfg, ops)
    ensures var st := Run(cfg, ops);
            st.committed <= |st.endings| && st.committed <= |cfg.log| &&
            ((forall o :: 0 <= o < st.committed ==> Accounted(st.endings[o])) <==>
             forall o :: 0 <= o < st.committed ==> !cfg.log[o].Raises? && !Withheld(cfg.policies, cfg.log[o]))
  {
    hide Run, Withheld, Skipped, ClientsWork, Accounted, Tally, QueueExact;
    var st := Run(cfg, ops);
    CommittedMessagesAreAccounted(cfg, ops);
    RunInv(cfg, ops);
    SkipsAreExplained(cfg, ops);
  }

  // ----- the consumer itself -----

  datatype Outcome = NoMessages | NoRecordsLeft | Raised | BatchDone(result: P.BatchResult)

  class TransactionConsumer {
    const cfg: Config
    const pipeline: P.Orchestrator
    var position: nat
    var committed: nat
    var decodeErrors: nat
    var succeeded: nat
    var failed: nat
    ghost var endings: seq<Ending>

    ghost predicate Valid()
      reads this, pipeline
    {
      committed <= position <= |cfg.log| && pipeline.policies == cfg.policies
    }

    ghost function Abstract(): State
      reads this, pipeline
    {
      State(position, committed, endings, pipeline.dlq, decodeErrors, succeeded, failed)
    }

    constructor (config: Config)
      ensures Valid() && cfg == config && Abstract() == INIT && fresh(pipeline)
    {
      cfg := config;
      pipeline := new P.Orchestrator(config.policies);
      position, committed, decodeErrors, succeeded, failed := 0, 0, 0, 0, 0;
      endings := [];
    }

    /** Polls until the batch is full or the client has nothing more, or raises. */
    method PollBatch(polls: seq<Poll>) returns (msgs: seq<Payload>, raised: bool)
      requires Valid()
      modifies this`position
      ensures Valid() && position == old(position) + Taken(polls, cfg.batchSize, |cfg.log| - old(position))
      ensures msgs == cfg.log[old(position)..position]
      ensures raised == PollFails(polls, cfg.batchSize, |cfg.log| - old(position))
    {
      msgs, raised := [], false;
      var i := 0;
      while |msgs| < cfg.batchSize && i < |polls|
        invariant 0 <= i <= |polls| && |msgs| <= cfg.batchSize
        invariant old(position) + |msgs| == position <= |cfg.log| && msgs == cfg.log[old(position)..position]
        invariant |msgs| + Taken(polls[i..], cfg.batchSize - |msgs|, |cfg.log| - position)
                  == Taken(polls, cfg.batchSize, |cfg.log| - old(position))
        invariant PollFails(polls[i..], cfg.batchSize - |msgs|, |cfg.log| - position)
                  == PollFails(polls, cfg.batchSize, |cfg.log| - old(position))
      {
        var poll := polls[i];
        assert polls[i..][1..] == polls[i + 1..];
        i := i + 1;
        if poll.PollRaises? {
          return msgs, true;
        }
        if poll.NothingPending? || poll.BrokersDown? || (poll.Delivered? && position == |cfg.log|) {
          break;
        }
        if poll.Delivered? {
          msgs := msgs + [cfg.log[position]];
          position := position + 1;
        }
      }
    }

    /** Decodes a batch, up to the first message that raises. */
    method DeserializeMessages(msgs: seq<Payload>, base: nat) returns (records: seq<P.Record>, raised: bool)
      modifies this`decodeErrors
      ensures raised <==> FirstRaising(msgs) < |msgs|
      ensures decodeErrors == old(decodeErrors) + BadCount(msgs[..Reached(msgs, false)])
      ensures !raised ==> records == Records(msgs, base)
    {
      records, raised := [], false;
      for i := 0 to |msgs|
        invariant i <= FirstRaising(msgs) && records == Records(msgs[..i], base)
        invariant decodeErrors == old(decodeErrors) + BadCount(msgs[..i])
      {
        var msg := msgs[i];
        assert msgs[..i + 1][..i] == msgs[..i];
        match msg
        case NullValue =>
        case Undecodable(reported) =>
          decodeErrors := decodeErrors + 1;
          if !reported {
            return records, true;
          }
        case Raises => return records, true;
        case Object(r) => records := records + [r.(offset := base + i)];
      }
      assert msgs[..|msgs|] == msgs;
    }

    method CommitOffsets(ok: bool)
      requires Valid()
      modifies this`committed
      ensures Valid() && Abstract() == Step(cfg, old(Abstract()), Commit(ok))
    {
      if ok {
        committed := position;
      }
    }

    method ConsumeBatch(polls: seq<Poll>, commitOk: bool) returns (r: Outcome)
      requires Valid()
      modifies this, pipeline
      ensures Valid() && Abstract() == Step(cfg, old(Abstract()), Consume(polls, commitOk))
      ensures var msgs := Batch(cfg, old(Abstract()), polls);
              && (r.Raised? <==> Breaks(msgs, Failed(cfg, old(Abstract()), polls)))
              && (r.NoMessages? <==> !r.Raised? && msgs == [])
              && (r.BatchDone? ==>
                    && r.result.total == |Records(msgs, old(position))|
                    && r.result.succeeded + r.result.failed == r.result.total)
    {
      hide Absorb, Batch, BatchEndings, FirstRaising, Taken, PollFails, Failed, Records, BadCount, P.Count, P.Letters,
           P.FateOf, P.ResultOf;
      ghost var st := Abstract();
      var base := position;
      var msgs, failing := PollBatch(polls);
      assert msgs == Batch(cfg, st, polls) && failing == Failed(cfg, st, polls) by { BatchIs(cfg, st, polls); }
      AbsorbCases(cfg, st, msgs, failing, commitOk);
      endings := endings + BatchEndings(cfg.policies, msgs, failing);
      if failing {
        return Raised;
      }
      if msgs == [] {
        return NoMessages;
      }
      var records, raised := DeserializeMessages(msgs, base);
      if raised {
        return Raised;
      }
      if records == [] {
        return NoRecordsLeft;
      }
      var result := pipeline.ProcessBatch(records);
      succeeded := succeeded + result.succeeded;
      failed := failed + result.failed;
      if commitOk {
        committed := position;
      }
      return BatchDone(result);
    }
  }

  lemma BatchIs(cfg: Config, st: State, polls: seq<Poll>)
    requires st.position <= |cfg.log|
    ensures Batch(cfg, st, polls)
            == cfg.log[st.position..st.position + Taken(polls, cfg.batchSize, |cfg.log| - st.position)]
    ensures Failed(cfg, st, polls) == PollFails(polls, cfg.batchSize, |cfg.log| - st.position)
  {
  }

  /** The ways a batch can go. */
  lemma AbsorbCases(cfg: Config, st: State, msgs: seq<Payload>, pollFailed: bool, commitOk: bool)
    ensures var records := Records(msgs, st.position);
            var after := Absorb(cfg, st, msgs, pollFailed, commitOk);
            && after.position == st.position + |msgs|
            && after.endings == st.endings + BatchEndings(cfg.policies, msgs, pollFailed)
            && after.decodeErrors == st.decodeErrors + BadCount(msgs[..Reached(msgs, pollFailed)])
            && (pollFailed || msgs == [] ==> after.decodeErrors == st.decodeErrors)
            && (Breaks(msgs, pollFailed) || records == [] ==>
                  after.(position := st.position, endings := st.endings, decodeErrors := st.decodeErrors) == st)
            && (msgs == [] ==> records == [])
            && (!Breaks(msgs, pollFailed) && records != [] ==>
                  && after.dlq == st.dlq + P.Letters(cfg.policies, records)
                  && after.succeeded == st.succeeded + P.Count(cfg.policies, records, P.IsSuccess())
                  && after.failed == st.failed + P.Count(cfg.policies, records, P.IsFailure())
                  && after.committed == if commitOk then after.position else st.committed)
  {
    EmptyBatch();
  }

  lemma EmptyBatch()
    ensures BadCount([]) == 0 && forall base :: Records([], base) == []
  {
  }
}
