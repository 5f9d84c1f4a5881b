/** The model registry: versions of named models, promotion between stages,
    rollback, and the promotion history as an event log. */
module ModelRegistry {
  import opened Options

  datatype Stage = Development | Staging | Production | Archived

  datatype Status = Inactive | ActiveStatus

  datatype Info = Info(stage: Stage, status: Status, updatedAt: real)

  /** The versions of one model, in order of registration. */
  datatype Model = Model(order: seq<string>, info: map<string, Info>)

  datatype Promotion = Promotion(name: string, version: string, from: Stage, to: Stage)

  datatype Registry = Registry(models: map<string, Model>, history: seq<Promotion>)

  /** Each operation with the clock readings it takes. */
  datatype Op =
    | Register(name: string, version: string, now: real)
    | Promote(name: string, version: string, target: Stage, archiveAt: real, now: real)
    | Rollback(name: string, archiveAt: real, now: real)

  const EMPTY := Registry(map[], [])
  const NO_VERSIONS := Model([], map[])

  function Archive(i: Info, at: real): Info { i.(stage := Archived, updatedAt := at) }

  /** Every other production version is archived. */
  function ArchiveOthers(m: Model, version: string, at: real): Model {
    m.(info := map v | v in m.info ::
                 if m.info[v].stage.Production? && v != version then Archive(m.info[v], at) else m.info[v])
  }

  function PromoteVersion(m: Model, version: string, target: Stage, archiveAt: real, now: real): Model {
    var cleared := if target.Production? then ArchiveOthers(m, version, archiveAt) else m;
    cleared.(info := cleared.info[version := Info(target, ActiveStatus, now)])
  }

  predicate InStage(m: Model, v: string, s: Stage) { v in m.info && m.info[v].stage == s }

  /** The production version found by scanning `vs`: the last one. */
  function Current(m: Model, vs: seq<string>): Option<string> {
    if vs == [] then None
    else if InStage(m, vs[|vs| - 1], Production) then Some(vs[|vs| - 1])
    else Current(m, vs[..|vs| - 1])
  }

  /** The archived version with the latest update; among equals, the first. */
  function Latest(m: Model, vs: seq<string>): (r: Option<string>)
    ensures r.Some? ==> InStage(m, r.value, Archived)
  {
    if vs == [] then None
    else
      var v, best := vs[|vs| - 1], Latest(m, vs[..|vs| - 1]);
      if InStage(m, v, Archived) && (best.None? || m.info[v].updatedAt > m.info[best.value].updatedAt) then Some(v)
      else best
  }

  function RollbackModel(m: Model, archiveAt: real, now: real): Model {
    var restore, current := Latest(m, m.order), Current(m, m.order);
    if restore.None? then m
    else
      var cleared := if current.None? || current.value !in m.info then m
                     else m.(info := m.info[current.value := Archive(m.info[current.value], archiveAt)]);
      cleared.(info := cleared.info[restore.value := Info(Production, ActiveStatus, now)])
  }

  function Step(r: Registry, op: Op): Registry {
    match op
    case Register(name, version, now) =>
      var m := if name in r.models then r.models[name] else NO_VERSIONS;
      if version in m.info then r
      else
        var added := Model(m.order + [version], m.info[version := Info(Development, Inactive, now)]);
        r.(models := r.models[name := added])
    case Promote(name, version, target, archiveAt, now) =>
      if name !in r.models || version !in r.models[name].info then r
      else
        Registry(r.models[name := PromoteVersion(r.models[name], version, target, archiveAt, now)],
                 r.history + [Promotion(name, version, r.models[name].info[version].stage, target)])
    case Rollback(name, archiveAt, now) =>
      if name !in r.models || Latest(r.models[name], r.models[name].order).None? then r
      else
        var m := r.models[name];
        Registry(r.models[name := RollbackModel(m, archiveAt, now)],
                 r.history + [Promotion(name, Latest(m, m.order).value, Archived, Production)])
  }

  function Run(ops: seq<Op>): Registry {
    if ops == [] then EMPTY else Step(Run(ops[..|ops| - 1]), ops[|ops| - 1])
  }

  // ----- the event log -----

  /** What one log entry does to the stages: a version entering production
      takes the place of any other. */
  function Apply(stages: map<string, Stage>, version: string, to: Stage): map<string, Stage> {
    (map v | v in stages :: if to.Production? && v != version && stages[v].Production? then Archived else stages[v])
    [version := to]
  }

  /** The stages of one model's versions, replayed from all-DEVELOPMENT. */
  function Replay(history: seq<Promotion>, name: string, versions: set<string>): map<string, Stage> {
    if history == [] then map v | v in versions :: Development
    else
      var before, e := Replay(history[..|history| - 1], name, versions), history[|history| - 1];
      if e.name == name then Apply(before, e.version, e.to) else before
  }

  function Stages(m: Model): map<string, Stage> { map v | v in m.info :: m.info[v].stage }

  ghost predicate OneProduction(m: Model) {
    forall v, w :: InStage(m, v, Production) && InStage(m, w, Production) ==> v == w
  }

  ghost predicate Listed(m: Model) { forall v :: v in m.order <==> v in m.info }

  /** Each entry of the log that concerns the model says truthfully where the
      version came from. */
  ghost predicate FromIsReplayed(history: seq<Promotion>, name: string, versions: set<string>) {
    forall i :: 0 <= i < |history| && history[i].name == name ==>
      && history[i].version in versions
      && var before := Replay(history[..i], name, versions);
         history[i].version in before && before[history[i].version] == history[i].from
  }

  ghost predicate Faithful(r: Registry, name: string) {
    var m := if name in r.models then r.models[name] else NO_VERSIONS;
    && Listed(m) && OneProduction(m)
    && Stages(m) == Replay(r.history, name, m.info.Keys)
    && FromIsReplayed(r.history, name, m.info.Keys)
  }

  lemma ReplayAppend(history: seq<Promotion>, e: Promotion, name: string, versions: set<string>)
    ensures Replay(history + [e], name, versions) ==
            var before := Replay(history, name, versions);
            if e.name == name then Apply(before, e.version, e.to) else before
  {
    assert (history + [e])[..|history + [e]| - 1] == history;
  }

  lemma FromAppend(history: seq<Promotion>, e: Promotion, name: string, versions: set<string>)
    requires FromIsReplayed(history, name, versions)
    requires e.name == name ==>
               var before := Replay(history, name, versions);
               e.version in versions && e.version in before && before[e.version] == e.from
    ensures FromIsReplayed(history + [e], name, versions)
  {
    var longer := history + [e];
    forall i | 0 <= i < |longer|
      ensures longer[..i] == history[..i]
    {
    }
    assert history[..|history|] == history;
  }

  lemma FromInit(history: seq<Promotion>, e: Promotion, name: string, versions: set<string>)
    requires FromIsReplayed(history + [e], name, versions)
    ensures FromIsReplayed(history, name, versions)
    ensures e.name == name ==>
              var before := Replay(history, name, versions);
              e.version in versions && e.version in before && before[e.version] == e.from
  {
    hide Replay;
    var longer := history + [e];
    assert longer[..|history|] == history && longer[|history|] == e;
    forall i | 0 <= i < |history|
      ensures longer[..i] == history[..i] && longer[i] == history[i]
    {
    }
  }

  lemma ApplyGrows(stages: map<string, Stage>, version: string, to: Stage, v: string)
    requires v !in stages && version in stages
    ensures Apply(stages[v := Development], version, to) == Apply(stages, version, to)[v := Development]
    ensures Apply(stages, version, to).Keys == stages.Keys
  {
  }

  lemma ReplayNothing(name: string, versions: set<string>, v: string)
    ensures Replay([], name, versions + {v}) == Replay([], name, versions)[v := Development]
    ensures Replay([], name, versions).Keys == versions
  {
  }

  /** Registering a version adds one DEVELOPMENT entry to every replay. */
  lemma {:induction false} ReplayGrows(history: seq<Promotion>, name: string, versions: set<string>, v: string)
    requires v !in versions && FromIsReplayed(history, name, versions)
    ensures Replay(history, name, versions + {v}) == Replay(history, name, versions)[v := Development]
    ensures Replay(history, name, versions).Keys == versions
    ensures FromIsReplayed(history, name, versions + {v})
  {
    hide Replay, Apply;
    if history == [] {
      ReplayNothing(name, versions, v);
    } else {
      hide FromIsReplayed;
      var init, e := history[..|history| - 1], history[|history| - 1];
      assert history == init + [e];
      FromInit(init, e, name, versions);
      ReplayGrows(init, name, versions, v);
      ReplayAppend(init, e, name, versions);
      ReplayAppend(init, e, name, versions + {v});
      if e.name == name {
        ApplyGrows(Replay(init, name, versions), e.version, e.to, v);
      }
      FromAppend(init, e, name, versions + {v});
    }
  }

  lemma RegisterKeeps(m: Model, version: string, now: real)
    requires Listed(m) && OneProduction(m) && version !in m.info
    ensures var after := Model(m.order + [version], m.info[version := Info(Development, Inactive, now)]);
            && Listed(after) && OneProduction(after)
            && after.info.Keys == m.info.Keys + {version}
            && Stages(after) == Stages(m)[version := Development]
  {
    var after := Model(m.order + [version], m.info[version := Info(Development, Inactive, now)]);
    forall v | InStage(after, v, Production)
      ensures InStage(m, v, Production)
    {
    }
  }

  lemma RegisterFaithful(r: Registry, name: string, version: string, now: real, other: string)
    requires Faithful(r, other)
    ensures Faithful(Step(r, Register(name, version, now)), other)
  {
    hide Replay, FromIsReplayed, Listed, OneProduction, Stages;
    var m := if name in r.models then r.models[name] else NO_VERSIONS;
    if other == name && version !in m.info {
      RegisterKeeps(m, version, now);
      ReplayGrows(r.history, name, m.info.Keys, version);
    }
  }

  /** What a promotion leaves under each version. */
  lemma PromotedInfo(m: Model, version: string, target: Stage, archiveAt: real, now: real, v: string)
    requires version in m.info && v in m.info
    ensures var after := PromoteVersion(m, version, target, archiveAt, now);
            && after.order == m.order && after.info.Keys == m.info.Keys
            && after.info[v] == if v == version then Info(target, ActiveStatus, now)
                                else if target.Production? && m.info[v].stage.Production?
                                then Archive(m.info[v], archiveAt)
                                else m.info[v]
  {
  }

  lemma PromoteKeeps(m: Model, version: string, target: Stage, archiveAt: real, now: real)
    requires Listed(m) && OneProduction(m) && version in m.info
    ensures var after := PromoteVersion(m, version, target, archiveAt, now);
            && Listed(after) && OneProduction(after) && after.info.Keys == m.info.Keys
            && Stages(after) == Apply(Stages(m), version, target)
  {
    hide PromoteVersion;
    var after := PromoteVersion(m, version, target, archiveAt, now);
    PromotedInfo(m, version, target, archiveAt, now, version);
    forall v | v in m.info
      ensures v in after.info && after.info[v].stage == Apply(Stages(m), version, target)[v]
      ensures InStage(after, v, Production) ==> v == version || (!target.Production? && InStage(m, v, Production))
    {
      PromotedInfo(m, version, target, archiveAt, now, v);
    }
  }

  lemma PromoteFaithful(r: Registry, name: string, version: string, target: Stage, archiveAt: real, now: real,
                        other: string)
    requires Faithful(r, other) && Faithful(r, name)
    ensures Faithful(Step(r, Promote(name, version, target, archiveAt, now)), other)
  {
    hide Replay, FromIsReplayed, Listed, OneProduction, PromoteVersion, Apply;
    if name in r.models && version in r.models[name].info {
      var m := r.models[name];
      var e := Promotion(name, version, m.info[version].stage, target);
      var keys := (if other in r.models then r.models[other] else NO_VERSIONS).info.Keys;
      ReplayAppend(r.history, e, other, keys);
      PromoteKeeps(m, version, target, archiveAt, now);
      FromAppend(r.history, e, other, keys);
    }
  }

  lemma {:induction false} CurrentFinds(m: Model, vs: seq<string>)
    ensures Current(m, vs).Some? ==> InStage(m, Current(m, vs).value, Production)
    ensures Current(m, vs).None? ==> forall v :: v in vs ==> !InStage(m, v, Production)
  {
    if vs == [] {
    } else {
      assert vs == vs[..|vs| - 1] + [vs[|vs| - 1]];
      CurrentFinds(m, vs[..|vs| - 1]);
    }
  }

  /** A rollback is a promotion of the latest archived version. */
  lemma RollbackIsPromotion(m: Model, archiveAt: real, now: real)
    requires Listed(m) && OneProduction(m) && Latest(m, m.order).Some?
    ensures RollbackModel(m, archiveAt, now)
            == PromoteVersion(m, Latest(m, m.order).value, Production, archiveAt, now)
  {
    hide PromoteVersion, Latest;
    CurrentFinds(m, m.order);
    var restore := Latest(m, m.order).value;
    var rolled, promoted := RollbackModel(m, archiveAt, now), PromoteVersion(m, restore, Production, archiveAt, now);
    PromotedInfo(m, restore, Production, archiveAt, now, restore);
    forall v | v in m.info
      ensures v in rolled.info && v in promoted.info && rolled.info[v] == promoted.info[v]
    {
      PromotedInfo(m, restore, Production, archiveAt, now, v);
      if InStage(m, v, Production) {
        assert v in m.order;
      }
    }
    assert rolled.info == promoted.info;
  }

  lemma StepFaithful(r: Registry, op: Op, other: string)
    requires Faithful(r, other)
    requires Faithful(r, op.name)
    ensures Faithful(Step(r, op), other)
  {
    hide Replay, FromIsReplayed, PromoteVersion, RollbackModel;
    match op
    case Register(name, version, now) => RegisterFaithful(r, name, version, now, other);
    case Promote(name, version, target, archiveAt, now) =>
      PromoteFaithful(r, name, version, target, archiveAt, now, other);
    case Rollback(name, archiveAt, now) =>
      if name in r.models && Latest(r.models[name], r.models[name].order).Some? {
        var m := r.models[name];
        RollbackIsPromotion(m, archiveAt, now);
        PromoteFaithful(r, name, Latest(m, m.order).value, Production, archiveAt, now, other);
      }
  }

  /** In every reachable registry each model has at most one PRODUCTION version,
      its stages are exactly the replay of the promotion history, and every
      entry's source stage is the replayed one, rollbacks included. */
  lemma {:induction false} HistoryExplainsStages(ops: seq<Op>, name: string)
    ensures Faithful(Run(ops), name)
  {
    if ops == [] {
    } else {
      var op := ops[|ops| - 1];
      HistoryExplainsStages(ops[..|ops| - 1], name);
      HistoryExplainsStages(ops[..|ops| - 1], op.name);
      StepFaithful(Run(ops[..|ops| - 1]), op, name);
    }
  }

  // ----- what each operation does to a reachable registry -----

  /** Registering a new version adds it last, in DEVELOPMENT and inactive, and
      changes nothing else; a known version changes nothing at all. */
  lemma RegistrationMeans(r: Registry, name: string, version: string, now: real)
    ensures var after := Step(r, Register(name, version, now));
            if name in r.models && version in r.models[name].info then after == r
            else
              && after.history == r.history && after.models.Keys == r.models.Keys + {name}
              && (forall n :: n in r.models && n != name ==> after.models[n] == r.models[n])
              && after.models[name].order == (if name in r.models then r.models[name].order else []) + [version]
              && after.models[name].info == (if name in r.models then r.models[name].info else map[])
                                            [version := Info(Development, Inactive, now)]
  {
  }

  /** A promotion of a known version puts it in the target stage, active from now.
      A production version it displaces is archived; every other version, and
      every other model, stays as it is, and the log gains exactly the one entry
      with the stage the version came from. An unknown version changes nothing. */
  lemma PromotionMeans(ops: seq<Op>, name: string, version: string, target: Stage, archiveAt: real, now: real)
    ensures var r := Run(ops);
            var after := Step(r, Promote(name, version, target, archiveAt, now));
            if name !in r.models || version !in r.models[name].info then after == r
            else
              var m, m' := r.models[name], after.models[name];
              && after.models.Keys == r.models.Keys
              && (forall n :: n in r.models && n != name ==> after.models[n] == r.models[n])
              && after.history == r.history + [Promotion(name, version, m.info[version].stage, target)]
              && m'.order == m.order && m'.info.Keys == m.info.Keys
              && m'.info[version].stage == target && m'.info[version].status == ActiveStatus
              && m'.info[version].updatedAt == now
              && forall v :: v in m.info && v != version ==>
                   if target == Production && m.info[v].stage == Production
                   then m'.info[v] == m.info[v].(stage := Archived, updatedAt := archiveAt)
                   else m'.info[v] == m.info[v]
  {
    hide Run;
  }

  /** A rollback restores the archived version that was updated last (of several,
      the one registered first), as a promotion of it to production does. Without
      an archived version it changes nothing. */
  lemma {:induction false} RollbackMeans(ops: seq<Op>, name: string, archiveAt: real, now: real, version: string)
    requires name in Run(ops).models
    ensures var r := Run(ops);
            var m := r.models[name];
            (forall v :: v in m.info ==> m.info[v].stage != Archived) ==> Step(r, Rollback(name, archiveAt, now)) == r
    ensures var r := Run(ops);
            var m := r.models[name];
            (exists i :: 0 <= i < |m.order| && m.order[i] == version && IsLatest(m, i)) ==>
              Step(r, Rollback(name, archiveAt, now)) == Step(r, Promote(name, version, Production, archiveAt, now))
  {
    hide Run, Replay, FromIsReplayed, PromoteVersion, RollbackModel, Latest;
    HistoryExplainsStages(ops, name);
    var m := Run(ops).models[name];
    LatestMember(m, m.order);
    if exists i :: 0 <= i < |m.order| && m.order[i] == version && IsLatest(m, i) {
      var i :| 0 <= i < |m.order| && m.order[i] == version && IsLatest(m, i);
      LatestFound(m, |m.order|, i);
      assert m.order[..|m.order|] == m.order;
      RollbackIsPromotion(m, archiveAt, now);
    }
  }

  lemma RollbackOfUnknown(r: Registry, name: string, archiveAt: real, now: real)
    requires name !in r.models
    ensures Step(r, Rollback(name, archiveAt, now)) == r
  {
  }

  /** Version `i` is archived, none before it was updated as late, none later. */
  ghost predicate IsLatest(m: Model, i: nat)
    requires i < |m.order|
  {
    && InStage(m, m.order[i], Archived)
    && (forall j :: 0 <= j < i && InStage(m, m.order[j], Archived) ==>
          m.info[m.order[j]].updatedAt < m.info[m.order[i]].updatedAt)
    && (forall j :: i < j < |m.order| && InStage(m, m.order[j], Archived) ==>
          m.info[m.order[j]].updatedAt <= m.info[m.order[i]].updatedAt)
  }

  lemma {:induction false} LatestFound(m: Model, n: nat, i: nat)
    requires i < n <= |m.order| && IsLatest(m, i)
    ensures Latest(m, m.order[..n]) == Some(m.order[i])
  {
    var init := m.order[..n][..n - 1];
    assert init == m.order[..n - 1] && m.order[..n][n - 1] == m.order[n - 1];
    if i == n - 1 {
      LatestMember(m, init);
      if Latest(m, init).Some? {
        var j :| 0 <= j < |init| && init[j] == Latest(m, init).value;
        assert m.order[j] == init[j];
      }
    } else {
      LatestFound(m, n - 1, i);
    }
  }

  // ----- rollback undoes -----

  function Readings(op: Op): (real, real) {
    match op
    case Register(_, _, now) => (now, now)
    case Promote(_, _, _, archiveAt, now) => (archiveAt, now)
    case Rollback(_, archiveAt, now) => (archiveAt, now)
  }

  ghost predicate Before(ops: seq<Op>, t: real) {
    forall i :: 0 <= i < |ops| ==> Readings(ops[i]).0 < t && Readings(ops[i]).1 < t
  }

  ghost predicate Stamped(m: Model, t: real) { forall v :: v in m.info ==> m.info[v].updatedAt < t }

  lemma {:induction false} RunStamped(ops: seq<Op>, t: real)
    requires Before(ops, t)
    ensures forall name :: name in Run(ops).models ==> Stamped(Run(ops).models[name], t)
  {
    if ops == [] {
    } else {
      var init := ops[..|ops| - 1];
      assert forall i :: 0 <= i < |init| ==> init[i] == ops[i];
      RunStamped(init, t);
      StepStamped(Run(init), ops[|ops| - 1], t);
    }
  }

  lemma StepStamped(r: Registry, op: Op, t: real)
    requires forall name :: name in r.models ==> Stamped(r.models[name], t)
    requires Readings(op).0 < t && Readings(op).1 < t
    ensures forall name :: name in Step(r, op).models ==> Stamped(Step(r, op).models[name], t)
  {
  }

  /** The latest archived version wins when its update is strictly the newest. */
  lemma {:induction false} LatestIsNewest(m: Model, vs: seq<string>, v: string)
    requires v in vs && InStage(m, v, Archived)
    requires forall w :: w in vs && w != v && InStage(m, w, Archived) ==> m.info[w].updatedAt < m.info[v].updatedAt
    ensures Latest(m, vs) == Some(v)
  {
    var init, last := vs[..|vs| - 1], vs[|vs| - 1];
    assert vs == init + [last];
    if v in init {
      LatestIsNewest(m, init, v);
    } else {
      LatestMember(m, init);
    }
  }

  lemma {:induction false} LatestMember(m: Model, vs: seq<string>)
    ensures Latest(m, vs).Some? ==> Latest(m, vs).value in vs
    ensures Latest(m, vs).None? <==> forall v :: v in vs ==> !InStage(m, v, Archived)
  {
    if vs == [] {
    } else {
      assert vs == vs[..|vs| - 1] + [vs[|vs| - 1]];
      LatestMember(m, vs[..|vs| - 1]);
    }
  }

  /** Promoting over the production version `current` makes it the latest
      archived one. */
  lemma PromotedOver(m: Model, current: string, version: string, t1: real, t2: real)
    requires Listed(m) && OneProduction(m) && InStage(m, current, Production)
    requires version in m.info && version != current && Stamped(m, t1)
    ensures var promoted := PromoteVersion(m, version, Production, t1, t2);
            && Latest(promoted, promoted.order) == Some(current)
            && Stages(promoted) == Stages(m)[current := Archived][version := Production]
  {
    hide PromoteVersion, Latest;
    var promoted := PromoteVersion(m, version, Production, t1, t2);
    PromotedInfo(m, version, Production, t1, t2, version);
    forall v | v in m.info
      ensures v in promoted.info
      ensures promoted.info[v] == if v == version then Info(Production, ActiveStatus, t2)
                                  else if v == current then Archive(m.info[v], t1) else m.info[v]
    {
      PromotedInfo(m, version, Production, t1, t2, v);
      assert m.info[v].stage.Production? ==> InStage(m, v, Production);
    }
    LatestIsNewest(promoted, promoted.order, current);
  }

  lemma PromoteThenRollback(m: Model, current: string, version: string, t1: real, t2: real, t3: real, t4: real)
    requires Listed(m) && OneProduction(m) && InStage(m, current, Production)
    requires version in m.info && version != current && Stamped(m, t1)
    ensures var promoted := PromoteVersion(m, version, Production, t1, t2);
            && Latest(promoted, promoted.order) == Some(current)
            && Stages(RollbackModel(promoted, t3, t4)) == Stages(m)[version := Archived]
  {
    hide PromoteVersion, RollbackModel, Latest, Listed, Stamped;
    var promoted := PromoteVersion(m, version, Production, t1, t2);
    PromoteKeeps(m, version, Production, t1, t2);
    PromotedOver(m, current, version, t1, t2);
    RollbackIsPromotion(promoted, t3, t4);
    PromoteKeeps(promoted, current, Production, t3, t4);
    var restored := Apply(Stages(promoted), current, Production);
    forall v | v in m.info
      ensures v in restored && restored[v] == Stages(m)[version := Archived][v]
    {
      assert m.info[v].stage.Production? ==> InStage(m, v, Production);
    }
    assert restored == Stages(m)[version := Archived];
  }

  /** With a strictly increasing clock, a rollback right after promoting
      `version` over production version `current` restores `current`. */
  lemma {:induction false} RollbackUndoesPromotion(ops: seq<Op>, name: string, current: string, version: string,
                                                   t1: real, t2: real, t3: real, t4: real)
    requires Before(ops, t1) && name in Run(ops).models
    requires InStage(Run(ops).models[name], current, Production)
    requires version in Run(ops).models[name].info && version != current
    ensures var after := Step(Step(Run(ops), Promote(name, version, Production, t1, t2)), Rollback(name, t3, t4));
            && after.models.Keys == Run(ops).models.Keys
            && Stages(after.models[name]) == Stages(Run(ops).models[name])[version := Archived]
            && forall n :: n in after.models && n != name ==> after.models[n] == Run(ops).models[n]
  {
    hide Run, PromoteVersion, RollbackModel, Replay, FromIsReplayed;
    HistoryExplainsStages(ops, name);
    RunStamped(ops, t1);
    PromoteThenRollback(Run(ops).models[name], current, version, t1, t2, t3, t4);
  }

  lemma TwoRollbacksOfModel(m: Model, current: string, t1: real, t2: real, t3: real, t4: real)
    requires Listed(m) && OneProduction(m) && InStage(m, current, Production)
    requires Latest(m, m.order).Some? && Stamped(m, t1)
    ensures var once := RollbackModel(m, t1, t2);
            && Latest(once, once.order) == Some(current)
            && Stages(RollbackModel(once, t3, t4)) == Stages(m)
  {
    var version := Latest(m, m.order).value;
    RollbackIsPromotion(m, t1, t2);
    PromoteThenRollback(m, current, version, t1, t2, t3, t4);
    assert Stages(m)[version := Archived] == Stages(m);
  }

  /** With a production version and some archived version, two rollbacks in a
      row restore every stage. */
  lemma {:induction false} TwoRollbacksCancel(ops: seq<Op>, name: string, current: string, archived: string,
                                              t1: real, t2: real, t3: real, t4: real)
    requires Before(ops, t1) && name in Run(ops).models
    requires InStage(Run(ops).models[name], current, Production)
    requires InStage(Run(ops).models[name], archived, Archived)
    ensures var after := Step(Step(Run(ops), Rollback(name, t1, t2)), Rollback(name, t3, t4));
            && after.models.Keys == Run(ops).models.Keys
            && forall n :: n in after.models ==> Stages(after.models[n]) == Stages(Run(ops).models[n])
  {
    hide Run, RollbackModel, Replay, FromIsReplayed, Latest;
    var m := Run(ops).models[name];
    HistoryExplainsStages(ops, name);
    RunStamped(ops, t1);
    LatestMember(m, m.order);
    TwoRollbacksOfModel(m, current, t1, t2, t3, t4);
  }

  // ----- the registry itself -----

  datatype Outcome = Done | NotFound | AlreadyExists | NothingArchived

  class ModelStore {
    var models: map<string, Model>
    var history: seq<Promotion>
    ghost var log: seq<Op>

    ghost function Abstract(): Registry
      reads this
    {
      Registry(models, history)
    }

    /** The state is that of the run of all calls so far, and so has all the
        properties of reachable registries. */
    ghost predicate Valid()
      reads this
    {
      Abstract() == Run(log)
    }

    constructor ()
      ensures Valid() && log == []
    {
      models, history, log := map[], [], [];
    }

    ghost method Note(op: Op)
      requires Abstract() == Step(Run(log), op)
      modifies this`log
      ensures Valid() && log == old(log) + [op]
    {
      log := log + [op];
      assert log[..|log| - 1] == old(log);
    }

    method RegisterModel(name: string, version: string, now: real) returns (r: Outcome)
      requires Valid()
      modifies this
      ensures Valid() && log == old(log) + [Register(name, version, now)]
      ensures r == if name in old(models) && version in old(models)[name].info then AlreadyExists else Done
    {
      var m := if name in models then models[name] else NO_VERSIONS;
      if version in m.info {
        Note(Register(name, version, now));
        return AlreadyExists;
      }
      models := models[name := Model(m.order + [version], m.info[version := Info(Development, Inactive, now)])];
      Note(Register(name, version, now));
      return Done;
    }

    /** Archives the production versions one by one, then moves the version. */
    method PromoteModel(name: string, version: string, target: Stage, archiveAt: real, now: real) returns (r: Outcome)
      requires Valid()
      modifies this
      ensures Valid() && log == old(log) + [Promote(name, version, target, archiveAt, now)]
      ensures r == if name in old(models) && version in old(models)[name].info then Done else NotFound
    {
      hide Run;
      if name !in models || version !in models[name].info {
        Note(Promote(name, version, target, archiveAt, now));
        return NotFound;
      }
      HistoryExplainsStages(log, name);
      ghost var m := models[name];
      var info := models[name].info;
      var order := models[name].order;
      if target.Production? {
        for i := 0 to |order|
          invariant info.Keys == m.info.Keys
          invariant forall v :: v in m.info ==>
                      info[v] == if v in order[..i] then ArchiveOthers(m, version, archiveAt).info[v] else m.info[v]
        {
          var v := order[i];
          assert order[..i + 1] == order[..i] + [v];
          if info[v].stage.Production? && v != version {
            info := info[v := Archive(info[v], archiveAt)];
          }
        }
        assert order[..|order|] == order;
        assert info == ArchiveOthers(m, version, archiveAt).info;
      }
      var previous := info[version].stage;
      info := info[version := Info(target, ActiveStatus, now)];
      models := models[name := Model(order, info)];
      history := history + [Promotion(name, version, previous, target)];
      Note(Promote(name, version, target, archiveAt, now));
      return Done;
    }

    /** One scan finds the production version and the archived ones; the
        latest of those is restored. */
    method RollbackLatest(name: string, archiveAt: real, now: real) returns (r: Outcome)
      requires Valid()
      modifies this
      ensures Valid() && log == old(log) + [Rollback(name, archiveAt, now)]
      ensures r == if name !in old(models) then NotFound
                   else if Latest(old(models)[name], old(models)[name].order).None? then NothingArchived else Done
    {
      hide Run;
      if name !in models {
        Note(Rollback(name, archiveAt, now));
        return NotFound;
      }
      HistoryExplainsStages(log, name);
      var m := models[name];
      var current, restore := None, None;
      for i := 0 to |m.order|
        invariant current == Current(m, m.order[..i]) && restore == Latest(m, m.order[..i])
      {
        var v := m.order[i];
        assert m.order[..i + 1][..i] == m.order[..i];
        if m.info[v].stage.Production? {
          current := Some(v);
        } else if m.info[v].stage.Archived? {
          if restore.None? || m.info[v].updatedAt > m.info[restore.value].updatedAt {
            restore := Some(v);
          }
        }
      }
      assert m.order[..|m.order|] == m.order;
      if restore.None? {
        Note(Rollback(name, archiveAt, now));
        return NothingArchived;
      }
      CurrentFinds(m, m.order);
      var info := m.info;
      if current.Some? {
        info := info[current.value := Archive(info[current.value], archiveAt)];
      }
      info := info[restore.value := Info(Production, ActiveStatus, now)];
      models := models[name := m.(info := info)];
      history := history + [Promotion(name, restore.value, Archived, Production)];
      Note(Rollback(name, archiveAt, now));
      return Done;
    }
  }
}
