/** The adapter promotion gate of agent_registry_usecase.go: evaluation reports, the adapter status
    machine, and the rule that a new champion does not regress. */
module Promotion {
  import opened Options
  import Text

  type Id = nat

  // ---- evaluation reports ----

  datatype TaskResult = TaskResult(task: bool, tool: bool, grounded: bool)

  datatype Rates = Rates(task: real, tool: real, grounded: real)

  datatype Aspect = TaskAspect | ToolAspect | GroundedAspect

  predicate Good(r: TaskResult, aspect: Aspect) {
    match aspect
    case TaskAspect => r.task
    case ToolAspect => r.tool
    case GroundedAspect => r.grounded
  }

  function GoodCount(results: seq<TaskResult>, aspect: Aspect): (n: nat)
    ensures n <= |results|
  {
    if results == [] then 0
    else GoodCount(results[..|results| - 1], aspect) + if Good(results[|results| - 1], aspect) then 1 else 0
  }

  function Ratio(numerator: nat, denominator: nat): real {
    if denominator == 0 then 0.0 else numerator as real / denominator as real
  }

  function RatesOf(results: seq<TaskResult>): Rates {
    Rates(Ratio(GoodCount(results, TaskAspect), |results|), Ratio(GoodCount(results, ToolAspect), |results|),
          Ratio(GoodCount(results, GroundedAspect), |results|))
  }

  /** A threshold of exactly zero means the default, one. */
  function Threshold(min: real): real {
    if min == 0.0 then 1.0 else min
  }

  predicate Passes(rates: Rates, mins: Rates) {
    rates.task >= Threshold(mins.task) && rates.tool >= Threshold(mins.tool) &&
    rates.grounded >= Threshold(mins.grounded)
  }

  const RUBRIC := "trajectory_answer_contains_v1"

  /** `adapter` is None for a report about a specification alone. */
  datatype Report = Report(adapter: Option<Id>, specHash: string, splitVersion: int, rubric: string,
                           results: seq<TaskResult>, rates: Rates, passed: bool)

  function ReportOn(adapter: Option<Id>, specHash: string, splitVersion: int, mins: Rates,
                    results: seq<TaskResult>): Report {
    Report(adapter, specHash, splitVersion, RUBRIC, results, RatesOf(results), Passes(RatesOf(results), mins))
  }

  method ReportFromTaskResults(adapter: Option<Id>, specHash: string, splitVersion: int, mins: Rates,
                               results: seq<TaskResult>)
    returns (report: Report)
    ensures report == ReportOn(adapter, specHash, splitVersion, mins, results)
    ensures report.adapter == adapter && report.specHash == specHash && report.splitVersion == splitVersion
    ensures report.rubric == "trajectory_answer_contains_v1" && report.results == results
    ensures results == [] ==> report.rates == Rates(0.0, 0.0, 0.0)
    ensures results != [] ==>
              && report.rates.task == |set i: nat | i < |results| && results[i].task| as real / |results| as real
              && report.rates.tool == |set i: nat | i < |results| && results[i].tool| as real / |results| as real
              && report.rates.grounded
                 == |set i: nat | i < |results| && results[i].grounded| as real / |results| as real
    ensures report.passed <==>
            && report.rates.task >= (if mins.task == 0.0 then 1.0 else mins.task)
            && report.rates.tool >= (if mins.tool == 0.0 then 1.0 else mins.tool)
            && report.rates.grounded >= (if mins.grounded == 0.0 then 1.0 else mins.grounded)
  {
    CountsAreCardinalities(results);
    var taskSuccesses, toolSuccesses, grounded := 0, 0, 0;
    for i := 0 to |results|
      invariant taskSuccesses == GoodCount(results[..i], TaskAspect)
      invariant toolSuccesses == GoodCount(results[..i], ToolAspect)
      invariant grounded == GoodCount(results[..i], GroundedAspect)
    {
      assert results[..i + 1][..i] == results[..i];
      if results[i].task {
        taskSuccesses := taskSuccesses + 1;
      }
      if results[i].tool {
        toolSuccesses := toolSuccesses + 1;
      }
      if results[i].grounded {
        grounded := grounded + 1;
      }
    }
    assert results[..|results|] == results;
    var rates := Rates(Ratio(taskSuccesses, |results|), Ratio(toolSuccesses, |results|), Ratio(grounded, |results|));
    var passed := rates.task >= Threshold(mins.task) && rates.tool >= Threshold(mins.tool) &&
                  rates.grounded >= Threshold(mins.grounded);
    report := Report(adapter, specHash, splitVersion, RUBRIC, results, rates, passed);
  }

  function GoodOnes(results: seq<TaskResult>, aspect: Aspect): set<nat> {
    set i: nat | i < |results| && Good(results[i], aspect)
  }

  lemma {:induction false} GoodCardinality(results: seq<TaskResult>, aspect: Aspect)
    ensures GoodCount(results, aspect) == |GoodOnes(results, aspect)|
  {
    if results != [] {
      var n := |results| - 1;
      GoodCardinality(results[..n], aspect);
      assert GoodOnes(results, aspect) == GoodOnes(results[..n], aspect) + if Good(results[n], aspect) then {n} else {};
    }
  }

  /** The counters count the results with their flag set. */
  lemma CountsAreCardinalities(results: seq<TaskResult>)
    ensures GoodCount(results, TaskAspect) == |set i: nat | i < |results| && results[i].task|
    ensures GoodCount(results, ToolAspect) == |set i: nat | i < |results| && results[i].tool|
    ensures GoodCount(results, GroundedAspect) == |set i: nat | i < |results| && results[i].grounded|
  {
    GoodCardinality(results, TaskAspect);
    GoodCardinality(results, ToolAspect);
    GoodCardinality(results, GroundedAspect);
    assert (set i: nat | i < |results| && results[i].task) == GoodOnes(results, TaskAspect);
    assert (set i: nat | i < |results| && results[i].tool) == GoodOnes(results, ToolAspect);
    assert (set i: nat | i < |results| && results[i].grounded) == GoodOnes(results, GroundedAspect);
  }

  lemma {:induction false} AllGood(results: seq<TaskResult>, aspect: Aspect)
    ensures GoodCount(results, aspect) == |results| <==> forall r :: r in results ==> Good(r, aspect)
  {
    if results != [] {
      var n := |results| - 1;
      AllGood(results[..n], aspect);
      assert forall r :: r in results <==> r in results[..n] || r == results[n];
    }
  }

  lemma RatioIsOne(k: nat, n: nat)
    requires k <= n
    ensures 0.0 <= Ratio(k, n) <= 1.0 && (Ratio(k, n) >= 1.0 <==> k == n && n > 0)
  {
    if n > 0 && k < n {
      assert k as real < n as real;
      assert Ratio(k, n) < 1.0;
    }
  }

  /** With the default thresholds an adapter passes exactly when there are tasks and every one of
      them succeeded, without a tool failure, on grounded context. */
  lemma DefaultGateWantsEverything(results: seq<TaskResult>)
    ensures Passes(RatesOf(results), Rates(0.0, 0.0, 0.0))
            <==> results != [] && forall r :: r in results ==> r.task && r.tool && r.grounded
  {
    AllGood(results, TaskAspect);
    AllGood(results, ToolAspect);
    AllGood(results, GroundedAspect);
    RatioIsOne(GoodCount(results, TaskAspect), |results|);
    RatioIsOne(GoodCount(results, ToolAspect), |results|);
    RatioIsOne(GoodCount(results, GroundedAspect), |results|);
    assert (forall r :: r in results ==> r.task && r.tool && r.grounded)
        <==> (forall r :: r in results ==> Good(r, TaskAspect)) && (forall r :: r in results ==> Good(r, ToolAspect))
             && (forall r :: r in results ==> Good(r, GroundedAspect));
  }

  // ---- the registry ----

  datatype Status = Training | Candidate | Evaluated | Promoted | Rejected | Failed

  datatype Adapter = Adapter(lineage: string, specHash: string, splitVersion: int, rubric: string, status: Status)

  /** A running evaluation: the adapter as it was read, and once the report is recorded whether it
      passed. The status is written after that, in a transaction of its own. */
  datatype Evaluation = Evaluation(id: Id, adapter: Adapter, passed: Option<bool>)

  /** How far a promotion has come: its four reads happen one after the other, outside any
      transaction. `against` is what the candidate was compared with, if anything. */
  datatype Stage =
    | AdapterRead
    | ReportRead(evaluation: Report)
    | ChampionRead(evaluation: Report, champion: Id)
    | Judged(evaluation: Report, against: Option<Rates>)

  /** A promotion command and what it has read. */
  datatype Promoting = Promoting(id: Id, lineage: string, report: nat, minDelta: real, adapter: Adapter, stage: Stage)

  /** Reports are in the order they were recorded. A lineage whose champion is a specification alone
      maps to None. `promoted` is history: the promotions written so far. */
  datatype State = State(adapters: map<Id, Adapter>, reports: seq<Report>, champions: map<string, Option<Id>>,
                         evaluating: seq<Evaluation>, promoting: seq<Promoting>, promoted: seq<Promoting>)

  const Init := State(map[], [], map[], [], [], [])

  /** The index of the adapter's latest report. */
  function Latest(reports: seq<Report>, id: Id): (r: Option<nat>)
    ensures r.Some? ==> r.value < |reports| && reports[r.value].adapter == Some(id)
    ensures forall j :: 0 <= j < |reports| && reports[j].adapter == Some(id) ==> r.Some? && j <= r.value
  {
    if reports == [] then None
    else if reports[|reports| - 1].adapter == Some(id) then Some(|reports| - 1)
    else Latest(reports[..|reports| - 1], id)
  }

  /** Report r is the adapter's latest. */
  ghost predicate LastAbout(reports: seq<Report>, id: Id, r: nat) {
    && r < |reports| && reports[r].adapter == Some(id)
    && forall j :: r < j < |reports| ==> reports[j].adapter != Some(id)
  }

  predicate Compatible(id: Id, adapter: Adapter, report: Report) {
    && report.adapter == Some(id) && Text.TrimSpace(report.specHash) == Text.TrimSpace(adapter.specHash)
    && report.splitVersion == adapter.splitVersion && Text.TrimSpace(report.rubric) == Text.TrimSpace(adapter.rubric)
  }

  predicate Regresses(candidate: Rates, champion: Rates, minDelta: real) {
    || candidate.task + minDelta < champion.task
    || candidate.tool + minDelta < champion.tool
    || candidate.grounded + minDelta < champion.grounded
  }

  /** The rates a promotion in a lineage is measured against at this moment, if any. */
  function ChampionRates(s: State, lineage: string): Option<Rates> {
    if lineage !in s.champions || s.champions[lineage].None? then None
    else
      match Latest(s.reports, s.champions[lineage].value)
      case None => None
      case Some(r) => Some(s.reports[r].rates)
  }

  datatype Event =
    | Record(id: Id, adapter: Adapter)
    | TrainingCompleted(id: Id)
    | TrainingFailed(id: Id)
    | BeginEvaluation(id: Id, lineage: string)
    | RecordReport(k: nat, splitVersion: int, mins: Rates, results: seq<TaskResult>)
    | SaveStatus(k: nat)
    | AbandonEvaluation(k: nat)
    | BeginPromotion(id: Id, lineage: string, report: nat, minDelta: real)
    | ReadReport(k: nat)
    | ReadChampion(k: nat)
    | Compare(k: nat)
    | WritePromotion(k: nat)
    | AbandonPromotion(k: nat)
    | SpecReport(specHash: string, splitVersion: int, mins: Rates, results: seq<TaskResult>, lineage: string)
    | SpecPromoted(lineage: string)

  predicate Share(x: real) {
    0.0 <= x <= 1.0
  }

  predicate Shares(r: Rates) {
    Share(r.task) && Share(r.tool) && Share(r.grounded)
  }

  /** What the training dispatch and the table's checks let through. */
  predicate Recordable(adapter: Adapter) {
    && (adapter.status.Training? || adapter.status.Candidate?)
    && adapter.lineage != "" && !Text.Blank(adapter.specHash) && adapter.splitVersion >= 1 && adapter.rubric == RUBRIC
  }

  /** Thresholds and tolerances are shares and split versions start at 1: other requests are refused
      before they get here. */
  predicate Enabled(s: State, e: Event) {
    match e
    case Record(id, adapter) => id !in s.adapters && Recordable(adapter)
    case RecordReport(k, splitVersion, mins, results) =>
      k < |s.evaluating| && s.evaluating[k].passed.None? && results != [] && Shares(mins) && splitVersion >= 1
    case SaveStatus(k) => k < |s.evaluating| && s.evaluating[k].passed.Some?
    case AbandonEvaluation(k) => k < |s.evaluating|
    case ReadReport(k) => k < |s.promoting| && s.promoting[k].stage.AdapterRead?
    case ReadChampion(k) => k < |s.promoting| && s.promoting[k].stage.ReportRead?
    case Compare(k) => k < |s.promoting| && s.promoting[k].stage.ChampionRead?
    case WritePromotion(k) => k < |s.promoting| && s.promoting[k].stage.Judged?
    case AbandonPromotion(k) => k < |s.promoting|
    case BeginPromotion(_, lineage, _, minDelta) => lineage != "" && Share(minDelta)
    case SpecReport(specHash, splitVersion, mins, results, lineage) =>
      results != [] && Shares(mins) && splitVersion >= 1 && !Text.Blank(specHash) && lineage != ""
    case SpecPromoted(lineage) => lineage != ""
    case _ => true
  }

  function Without<T>(xs: seq<T>, k: nat): seq<T>
    requires k < |xs|
  {
    xs[..k] + xs[k + 1..]
  }

  /** An update by adapter identifier; of no row, it changes nothing. */
  function WithStatus(adapters: map<Id, Adapter>, id: Id, status: Status): map<Id, Adapter> {
    if id in adapters then adapters[id := adapters[id].(status := status)] else adapters
  }

  function Next(s: State, e: Event): State
    requires Enabled(s, e)
  {
    match e
    case Record(id, adapter) => s.(adapters := s.adapters[id := adapter])
    case TrainingCompleted(id) => TrainingEnded(s, id, Candidate)
    case TrainingFailed(id) => TrainingEnded(s, id, Failed)
    case BeginEvaluation(id, lineage) =>
      if id in s.adapters && s.adapters[id].lineage == lineage &&
         (s.adapters[id].status.Candidate? || s.adapters[id].status.Evaluated?)
      then s.(evaluating := s.evaluating + [Evaluation(id, s.adapters[id], None)])
      else s
    case RecordReport(k, splitVersion, mins, results) => Recorded(s, k, splitVersion, mins, results)
    case SaveStatus(k) =>
      var v := s.evaluating[k];
      s.(adapters := WithStatus(s.adapters, v.id, if v.passed.value then Evaluated else Rejected),
         evaluating := Without(s.evaluating, k))
    case AbandonEvaluation(k) => s.(evaluating := Without(s.evaluating, k))
    case BeginPromotion(id, lineage, report, minDelta) =>
      if id in s.adapters && s.adapters[id].status.Evaluated?
      then s.(promoting := s.promoting + [Promoting(id, lineage, report, minDelta, s.adapters[id], AdapterRead)])
      else s
    case ReadReport(k) => Proceed(s, k, AfterReport(s, s.promoting[k]))
    case ReadChampion(k) => Proceed(s, k, Some(AfterChampion(s, s.promoting[k])))
    case Compare(k) => Proceed(s, k, AfterCompare(s, s.promoting[k]))
    case WritePromotion(k) => Written(s, k)
    case AbandonPromotion(k) => s.(promoting := Without(s.promoting, k))
    case SpecReport(specHash, splitVersion, mins, results, lineage) =>
      var report := ReportOn(None, specHash, splitVersion, mins, results);
      var t := s.(reports := s.reports + [report]);
      if report.passed then t.(champions := s.champions[lineage := None]) else t
    case SpecPromoted(lineage) => s.(champions := s.champions[lineage := None])
  }

  function TrainingEnded(s: State, id: Id, status: Status): State {
    if id in s.adapters && s.adapters[id].status.Training? then s.(adapters := WithStatus(s.adapters, id, status))
    else s
  }

  function Recorded(s: State, k: nat, splitVersion: int, mins: Rates, results: seq<TaskResult>): State
    requires k < |s.evaluating|
  {
    var v := s.evaluating[k];
    var report := ReportOn(Some(v.id), v.adapter.specHash, splitVersion, mins, results);
    s.(reports := s.reports + [report], evaluating := s.evaluating[k := v.(passed := Some(report.passed))])
  }

  /** What a read leads to; None is a refusal, which ends the promotion. */
  function AfterReport(s: State, p: Promoting): Option<Stage> {
    if p.report >= |s.reports| || !Compatible(p.id, p.adapter, s.reports[p.report]) ||
       !s.reports[p.report].passed then None
    else Some(ReportRead(s.reports[p.report]))
  }

  function AfterChampion(s: State, p: Promoting): Stage
    requires p.stage.ReportRead?
  {
    if p.adapter.lineage !in s.champions || s.champions[p.adapter.lineage].None? then Judged(p.stage.evaluation, None)
    else ChampionRead(p.stage.evaluation, s.champions[p.adapter.lineage].value)
  }

  function AfterCompare(s: State, p: Promoting): Option<Stage>
    requires p.stage.ChampionRead?
  {
    match Latest(s.reports, p.stage.champion)
    case None => Some(Judged(p.stage.evaluation, None))
    case Some(r) =>
      if Regresses(p.stage.evaluation.rates, s.reports[r].rates, p.minDelta) then None
      else Some(Judged(p.stage.evaluation, Some(s.reports[r].rates)))
  }

  function Proceed(s: State, k: nat, stage: Option<Stage>): State
    requires k < |s.promoting|
  {
    match stage
    case None => s.(promoting := Without(s.promoting, k))
    case Some(st) => s.(promoting := s.promoting[k := s.promoting[k].(stage := st)])
  }

  /** Both writes of the transaction, which test nothing of what was read. Without the adapter's row
      the first one fails. */
  function Written(s: State, k: nat): State
    requires k < |s.promoting|
  {
    var p := s.promoting[k];
    var t := s.(promoting := Without(s.promoting, k));
    if p.id !in s.adapters then t
    else t.(adapters := WithStatus(s.adapters, p.id, Promoted), champions := s.champions[p.lineage := Some(p.id)],
            promoted := s.promoted + [p])
  }

  predicate Possible(s: State, es: seq<Event>)
    decreases |es|
  {
    es == [] || (Enabled(s, es[0]) && Possible(Next(s, es[0]), es[1..]))
  }

  function After(s: State, es: seq<Event>): State
    requires Possible(s, es)
    decreases |es|
  {
    if es == [] then s else After(Next(s, es[0]), es[1..])
  }

  // ---- the use cases ----

  /** Every method is one atomic piece of a use case; others may run in between. */
  class Registry {
    var state: State

    constructor ()
      ensures state == Init
    {
      state := Init;
    }

    /** The first read of PromoteAgentAdapter. */
    method StartPromoting(id: Id, lineage: string, report: nat, minDelta: real) returns (ok: bool)
      requires Enabled(state, BeginPromotion(id, lineage, report, minDelta))
      modifies this
      ensures ok <==> id in old(state).adapters && old(state).adapters[id].status.Evaluated?
      ensures state == Next(old(state), BeginPromotion(id, lineage, report, minDelta))
      ensures state == if !ok then old(state)
                       else old(state).(promoting := old(state).promoting + [Promoting(id, lineage, report, minDelta,
                                                                                       old(state).adapters[id],
                                                                                       AdapterRead)])
    {
      if id !in state.adapters {
        return false;
      }
      var adapter := state.adapters[id];
      if adapter.status != Evaluated {
        return false;
      }
      state := state.(promoting := state.promoting + [Promoting(id, lineage, report, minDelta, adapter, AdapterRead)]);
      return true;
    }

    method CheckReport(k: nat) returns (ok: bool)
      requires Enabled(state, ReadReport(k))
      modifies this
      ensures var p := old(state).promoting[k];
              ok <==> p.report < |old(state).reports| &&
                      var r := old(state).reports[p.report];
                      && r.adapter == Some(p.id) && r.passed && r.splitVersion == p.adapter.splitVersion
                      && Text.TrimSpace(r.specHash) == Text.TrimSpace(p.adapter.specHash)
                      && Text.TrimSpace(r.rubric) == Text.TrimSpace(p.adapter.rubric)
      ensures var p := old(state).promoting[k];
              state.promoting == if ok
                                 then old(state).promoting[k := p.(stage := ReportRead(old(state).reports[p.report]))]
                                 else old(state).promoting[..k] + old(state).promoting[k + 1..]
      ensures state == Next(old(state), ReadReport(k)) == old(state).(promoting := state.promoting)
    {
      var p := state.promoting[k];
      ok := false;
      if p.report < |state.reports| {
        var evaluation := state.reports[p.report];
        ok := Compatible(p.id, p.adapter, evaluation) && evaluation.passed;
        if ok {
          state := state.(promoting := state.promoting[k := p.(stage := ReportRead(evaluation))]);
          return;
        }
      }
      state := state.(promoting := Without(state.promoting, k));
    }

    /** The first read of enforceChampionNoRegression: without an adapter champion there is nothing
        to compare with. */
    method FindChampion(k: nat)
      requires Enabled(state, ReadChampion(k))
      modifies this
      ensures state == Next(old(state), ReadChampion(k)) == old(state).(promoting := state.promoting)
      ensures var (p, champions) := (old(state).promoting[k], old(state).champions);
              state.promoting == old(state).promoting[
                k := p.(stage := if p.adapter.lineage in champions && champions[p.adapter.lineage].Some?
                                 then ChampionRead(p.stage.evaluation, champions[p.adapter.lineage].value)
                                 else Judged(p.stage.evaluation, None))]
    {
      var p := state.promoting[k];
      var stage := Judged(p.stage.evaluation, None);
      if p.adapter.lineage in state.champions {
        var champion := state.champions[p.adapter.lineage];
        if champion.Some? {
          stage := ChampionRead(p.stage.evaluation, champion.value);
        }
      }
      state := state.(promoting := state.promoting[k := p.(stage := stage)]);
    }

    /** Its second read and its test: true when the promotion may go on. */
    method EnforceNoRegression(k: nat) returns (ok: bool)
      requires Enabled(state, Compare(k))
      modifies this
      ensures var (p, reports) := (old(state).promoting[k], old(state).reports);
              var candidate := p.stage.evaluation.rates;
              ok <==> forall r: nat :: LastAbout(reports, p.stage.champion, r) ==>
                        && candidate.task + p.minDelta >= reports[r].rates.task
                        && candidate.tool + p.minDelta >= reports[r].rates.tool
                        && candidate.grounded + p.minDelta >= reports[r].rates.grounded
      ensures !ok ==> state.promoting == old(state).promoting[..k] + old(state).promoting[k + 1..]
      ensures var (p, reports) := (old(state).promoting[k], old(state).reports);
              ok ==> |state.promoting| == |old(state).promoting| &&
                     exists against :: state.promoting == old(state).promoting[
                         k := p.(stage := Judged(p.stage.evaluation, against))] &&
                         (against.None? ==> forall r: nat :: !LastAbout(reports, p.stage.champion, r)) &&
                         (forall r: nat :: LastAbout(reports, p.stage.champion, r) ==>
                           against == Some(reports[r].rates))
      ensures state == old(state).(promoting := state.promoting)
      ensures state == Next(old(state), Compare(k))
    {
      var p := state.promoting[k];
      var candidate := p.stage.evaluation.rates;
      var latest := Latest(state.reports, p.stage.champion);
      if latest.None? {
        state := state.(promoting := state.promoting[k := p.(stage := Judged(p.stage.evaluation, None))]);
        return true;
      }
      var rates := state.reports[latest.value].rates;
      if candidate.task + p.minDelta < rates.task || candidate.tool + p.minDelta < rates.tool ||
         candidate.grounded + p.minDelta < rates.grounded {
        state := state.(promoting := Without(state.promoting, k));
        return false;
      }
      state := state.(promoting := state.promoting[k := p.(stage := Judged(p.stage.evaluation, Some(rates)))]);
      return true;
    }

    /** The transaction at the end of PromoteAgentAdapter. */
    method CommitPromotion(k: nat) returns (ok: bool)
      requires Enabled(state, WritePromotion(k))
      modifies this
      ensures ok <==> old(state).promoting[k].id in old(state).adapters
      ensures state == Next(old(state), WritePromotion(k))
      ensures state.promoting == old(state).promoting[..k] + old(state).promoting[k + 1..]
      ensures var p := old(state).promoting[k];
              && (ok ==>
                    && state.adapters == old(state).adapters[p.id := old(state).adapters[p.id].(status := Promoted)]
                    && state.champions == old(state).champions[p.lineage := Some(p.id)])
              && (!ok ==> state.adapters == old(state).adapters && state.champions == old(state).champions)
      ensures state.reports == old(state).reports && state.evaluating == old(state).evaluating
    {
      var p := state.promoting[k];
      ok := p.id in state.adapters;
      if ok {
        var adapter := state.adapters[p.id];
        state := state.(adapters := state.adapters[p.id := adapter.(status := Promoted)],
                        champions := state.champions[p.lineage := Some(p.id)],
                        promoted := state.promoted + [p]);
      }
      state := state.(promoting := Without(state.promoting, k));
    }

    /** EvaluateAdapterCandidate once its tasks have run: the report's transaction. */
    method RecordEvaluation(k: nat, splitVersion: int, mins: Rates, results: seq<TaskResult>) returns (report: Report)
      requires Enabled(state, RecordReport(k, splitVersion, mins, results))
      modifies this
      ensures var v := old(state).evaluating[k];
              report == ReportOn(Some(v.id), v.adapter.specHash, splitVersion, mins, results)
      ensures state == Next(old(state), RecordReport(k, splitVersion, mins, results))
      ensures state == old(state).(reports := old(state).reports + [report],
                                   evaluating := old(state).evaluating[
                                     k := old(state).evaluating[k].(passed := Some(report.passed))])
    {
      var v := state.evaluating[k];
      report := ReportFromTaskResults(Some(v.id), v.adapter.specHash, splitVersion, mins, results);
      state := state.(reports := state.reports + [report],
                      evaluating := state.evaluating[k := v.(passed := Some(report.passed))]);
    }

    /** And the status's transaction. */
    method SaveEvaluationStatus(k: nat)
      requires Enabled(state, SaveStatus(k))
      modifies this
      ensures state == Next(old(state), SaveStatus(k))
      ensures var v := old(state).evaluating[k];
              state.adapters == if v.id !in old(state).adapters then old(state).adapters
                                else old(state).adapters[
                                       v.id := old(state).adapters[v.id].(
                                         status := if v.passed == Some(true) then Evaluated else Rejected)]
      ensures state == old(state).(adapters := state.adapters,
                                   evaluating := old(state).evaluating[..k] + old(state).evaluating[k + 1..])
    {
      var v := state.evaluating[k];
      var status := if v.passed == Some(true) then Evaluated else Rejected;
      if v.id in state.adapters {
        state := state.(adapters := state.adapters[v.id := state.adapters[v.id].(status := status)]);
      }
      state := state.(evaluating := Without(state.evaluating, k));
    }
  }
}
