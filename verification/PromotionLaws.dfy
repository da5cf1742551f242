/** What the promotion gate guarantees over whole runs, whatever happens between its reads and its
    writes. */
module PromotionLaws {
  import opened Options
  import opened Promotion
  import Text

  // ---- what a promotion has read stays true, but for the adapter's status ----

  predicate SameButStatus(a: Adapter, b: Adapter) {
    a.(status := b.status) == b
  }

  /** The comparison with the champion, where there is nothing to compare with if `against` is None. */
  predicate Accepts(against: Option<Rates>, candidate: Rates, minDelta: real) {
    against.Some? ==> !Regresses(candidate, against.value, minDelta)
  }

  /** The promotion's report is about its adapter, matches what it was trained against, and passed. */
  predicate Earned(s: State, p: Promoting, evaluation: Report) {
    && p.report < |s.reports| && s.reports[p.report] == evaluation
    && Compatible(p.id, p.adapter, evaluation) && evaluation.passed
  }

  predicate Backed(s: State, p: Promoting) {
    && p.id in s.adapters && SameButStatus(p.adapter, s.adapters[p.id]) && p.adapter.status.Evaluated?
    && p.lineage != ""
    && (!p.stage.AdapterRead? ==> Earned(s, p, p.stage.evaluation))
    && (p.stage.Judged? ==> Accepts(p.stage.against, p.stage.evaluation.rates, p.minDelta))
  }

  predicate Positive(r: Rates) {
    r.task > 0.0 && r.tool > 0.0 && r.grounded > 0.0
  }

  /** A report is measured on its results, and passes only with all rates above zero. */
  predicate Measured(r: Report) {
    r.results != [] && r.rates == RatesOf(r.results) && (r.passed ==> Positive(r.rates))
  }

  /** The last promotion written in a lineage. */
  function LastIn(promoted: seq<Promoting>, lineage: string): (p: Option<Promoting>)
    ensures p.Some? ==> p.value in promoted && p.value.lineage == lineage
  {
    if promoted == [] then None
    else if promoted[|promoted| - 1].lineage == lineage then Some(promoted[|promoted| - 1])
    else LastIn(promoted[..|promoted| - 1], lineage)
  }

  predicate AdapterChampion(s: State, lineage: string) {
    lineage in s.champions && s.champions[lineage].Some?
  }

  ghost predicate PromotionsSound(s: State) {
    && (forall i {:trigger s.promoting[i]} :: 0 <= i < |s.promoting| ==> Backed(s, s.promoting[i]))
    && (forall i {:trigger s.promoted[i]} :: 0 <= i < |s.promoted| ==>
          Backed(s, s.promoted[i]) && s.promoted[i].stage.Judged?)
  }

  ghost predicate EvaluationsSound(s: State) {
    forall i {:trigger s.evaluating[i]} :: 0 <= i < |s.evaluating| ==>
      s.evaluating[i].id in s.adapters && SameButStatus(s.evaluating[i].adapter, s.adapters[s.evaluating[i].id])
  }

  ghost predicate ReportsSound(s: State) {
    forall i {:trigger s.reports[i]} :: 0 <= i < |s.reports| ==> Measured(s.reports[i])
  }

  ghost predicate ChampionsSound(s: State) {
    forall lineage {:trigger s.champions[lineage]} :: AdapterChampion(s, lineage) ==>
      LastIn(s.promoted, lineage).Some? && LastIn(s.promoted, lineage).value.id == s.champions[lineage].value
  }

  ghost predicate Sound(s: State) {
    PromotionsSound(s) && EvaluationsSound(s) && ReportsSound(s) && ChampionsSound(s)
  }

  /** Adapters stay, and but for their status unchanged; reports are only added. */
  ghost predicate Extends(s: State, t: State) {
    && (forall id {:trigger t.adapters[id]} {:trigger s.adapters[id]} ::
          id in s.adapters ==> id in t.adapters && SameButStatus(s.adapters[id], t.adapters[id]))
    && s.reports <= t.reports
  }

  lemma StepExtends(s: State, e: Event)
    requires Enabled(s, e)
    ensures Extends(s, Next(s, e))
  {
  }

  lemma BackedStays(s: State, t: State, p: Promoting)
    requires Extends(s, t) && Backed(s, p)
    ensures Backed(t, p)
  {
    assert SameButStatus(s.adapters[p.id], t.adapters[p.id]);
  }

  lemma PromotionsStep(s: State, e: Event)
    requires PromotionsSound(s) && Enabled(s, e)
    ensures PromotionsSound(Next(s, e))
  {
    var t := Next(s, e);
    StepExtends(s, e);
    forall i | 0 <= i < |t.promoting|
      ensures Backed(t, t.promoting[i])
    {
      PromotingStep(s, e, i);
    }
    forall i | 0 <= i < |t.promoted|
      ensures Backed(t, t.promoted[i]) && t.promoted[i].stage.Judged?
    {
      BackedStays(s, t, if i < |s.promoted| then s.promoted[i] else s.promoting[e.k]);
    }
  }

  lemma ReadBacked(s: State, k: nat, e: Event) returns (stage: Option<Stage>)
    requires PromotionsSound(s) && Enabled(s, e) && (e == ReadReport(k) || e == ReadChampion(k) || e == Compare(k))
    ensures Next(s, e) == Proceed(s, k, stage)
    ensures stage.Some? ==> Backed(s, s.promoting[k].(stage := stage.value))
  {
    var p := s.promoting[k];
    assert Backed(s, p);
    stage := if e.ReadReport? then AfterReport(s, p) else if e.ReadChampion? then Some(AfterChampion(s, p))
                                                          else AfterCompare(s, p);
  }

  /** A promotion in progress was already there, or has just begun, or has read one thing more. */
  lemma PromotingStep(s: State, e: Event, i: nat)
    requires PromotionsSound(s) && Enabled(s, e) && i < |Next(s, e).promoting|
    ensures Backed(Next(s, e), Next(s, e).promoting[i])
  {
    var t := Next(s, e);
    if e.ReadReport? || e.ReadChampion? || e.Compare? {
      var stage := ReadBacked(s, e.k, e);
      ProceedBacked(s, e.k, stage, i);
    } else if !(e.BeginPromotion? && i == |s.promoting|) {
      StepExtends(s, e);
      var gone := (e.WritePromotion? || e.AbandonPromotion?) && i >= e.k;
      BackedStays(s, t, s.promoting[if gone then i + 1 else i]);
    }
  }

  lemma ProceedBacked(s: State, k: nat, stage: Option<Stage>, i: nat)
    requires PromotionsSound(s) && k < |s.promoting|
    requires (stage.Some? ==> Backed(s, s.promoting[k].(stage := stage.value)))
    requires i < |Proceed(s, k, stage).promoting|
    ensures Backed(Proceed(s, k, stage), Proceed(s, k, stage).promoting[i])
  {
    var t := Proceed(s, k, stage);
    BackedStays(s, t, if stage.None? then s.promoting[if i < k then i else i + 1]
                      else if i == k then s.promoting[k].(stage := stage.value) else s.promoting[i]);
  }

  lemma EvaluationsStep(s: State, e: Event)
    requires EvaluationsSound(s) && Enabled(s, e)
    ensures EvaluationsSound(Next(s, e))
  {
  }

  lemma ReportsStep(s: State, e: Event)
    requires ReportsSound(s) && Enabled(s, e)
    ensures ReportsSound(Next(s, e))
  {
  }

  lemma ChampionsStep(s: State, e: Event)
    requires ChampionsSound(s) && Enabled(s, e)
    ensures ChampionsSound(Next(s, e))
  {
    var t := Next(s, e);
    if t.promoted != s.promoted {
      assert t.promoted[..|t.promoted| - 1] == s.promoted;
    }
    forall lineage | AdapterChampion(t, lineage)
      ensures LastIn(t.promoted, lineage).Some? && LastIn(t.promoted, lineage).value.id == t.champions[lineage].value
    {
      assert AdapterChampion(s, lineage) || t.promoted != s.promoted;
    }
  }

  lemma StepSound(s: State, e: Event)
    requires Sound(s) && Enabled(s, e)
    ensures Sound(Next(s, e))
  {
    PromotionsStep(s, e);
    EvaluationsStep(s, e);
    ReportsStep(s, e);
    ChampionsStep(s, e);
  }

  lemma InitSound()
    ensures Sound(Init)
  {
    assert Init.champions.Keys == {};
    assert forall lineage :: !AdapterChampion(Init, lineage);
  }

  lemma {:induction false} RunSound(s: State, es: seq<Event>)
    requires Possible(s, es) && Sound(s)
    ensures Sound(After(s, es))
    decreases |es|
  {
    if es != [] {
      StepSound(s, es[0]);
      RunSound(Next(s, es[0]), es[1..]);
    }
  }

  lemma ReachableSound(es: seq<Event>)
    requires Possible(Init, es)
    ensures Sound(After(Init, es))
  {
    InitSound();
    RunSound(Init, es);
  }

  // ---- every promotion was earned ----

  /** In every run every promoted adapter was EVALUATED when it was read, and had a passing report
      about itself for the specification, split and rubric it was trained against. The report stays
      on record, and the candidate did not fall behind what it was compared with. */
  lemma PromotionsAreEarned(es: seq<Event>, i: nat)
    requires Possible(Init, es) && i < |After(Init, es).promoted|
    ensures var s := After(Init, es);
            var p := s.promoted[i];
            && p.id in s.adapters && SameButStatus(p.adapter, s.adapters[p.id]) && p.adapter.status.Evaluated?
            && p.report < |s.reports|
            && var (r, a) := (s.reports[p.report], s.adapters[p.id]);
            && r.adapter == Some(p.id) && r.passed && r.splitVersion == a.splitVersion
            && Text.TrimSpace(r.specHash) == Text.TrimSpace(a.specHash)
            && Text.TrimSpace(r.rubric) == Text.TrimSpace(a.rubric)
            && p.stage.Judged? && p.stage.evaluation == r
            && (p.stage.against.Some? ==>
                  && r.rates.task + p.minDelta >= p.stage.against.value.task
                  && r.rates.tool + p.minDelta >= p.stage.against.value.tool
                  && r.rates.grounded + p.minDelta >= p.stage.against.value.grounded)
  {
    ReachableSound(es);
    assert Backed(After(Init, es), After(Init, es).promoted[i]);
  }

  /** Every report on record is of an evaluation or of a specification, and passed or failed on the results
      it was given. */
  lemma {:induction false} ReportsAreGiven(s: State, es: seq<Event>, r: nat) returns (i: nat)
    requires Possible(s, es) && |s.reports| <= r < |After(s, es).reports|
    ensures var report := After(s, es).reports[r];
            && i < |es|
            && (report.adapter.Some? ==> es[i].RecordReport?) && (report.adapter.None? ==> es[i].SpecReport?)
            && (es[i].RecordReport? || es[i].SpecReport?)
            && report.results == es[i].results && report.splitVersion == es[i].splitVersion
            && (report.passed <==> Passes(RatesOf(es[i].results), es[i].mins))
    decreases |es|
  {
    var t := Next(s, es[0]);
    if r < |t.reports| {
      i := 0;
      RunExtends(t, es[1..]);
      assert After(t, es[1..]).reports[r] == t.reports[r];
    } else {
      var j := ReportsAreGiven(t, es[1..], r);
      i := j + 1;
    }
  }

  lemma {:induction false} RunExtends(s: State, es: seq<Event>)
    requires Possible(s, es)
    ensures s.reports <= After(s, es).reports
    decreases |es|
  {
    if es != [] {
      StepExtends(s, es[0]);
      RunExtends(Next(s, es[0]), es[1..]);
    }
  }

  /** The adapter's status machine: training ends once, an evaluation decides by its own report, and a
      promotion promotes, each whatever the status has become by then; nothing else moves it. */
  lemma StatusMoves(s: State, e: Event, id: Id)
    requires Enabled(s, e) && id in s.adapters
    ensures id in Next(s, e).adapters
    ensures var (a, b) := (s.adapters[id].status, Next(s, e).adapters[id].status);
            if e.SaveStatus? && s.evaluating[e.k].id == id
            then b == if s.evaluating[e.k].passed == Some(true) then Evaluated else Rejected
            else if e.WritePromotion? && s.promoting[e.k].id == id then b == Promoted
            else if e == TrainingCompleted(id) && a == Training then b == Candidate
            else if e == TrainingFailed(id) && a == Training then b == Failed
            else b == a
  {
  }

  /** An evaluation begins with a candidate or evaluated adapter of the lineage asked for, as it is read then;
      giving up removes what was given up and changes nothing else. */
  lemma EvaluationsBegin(s: State, id: Id, lineage: string, k: nat)
    ensures var t := Next(s, BeginEvaluation(id, lineage));
            && t == s.(evaluating := t.evaluating)
            && (if id in s.adapters && s.adapters[id].lineage == lineage &&
                   s.adapters[id].status in {Candidate, Evaluated}
                then t.evaluating == s.evaluating + [Evaluation(id, s.adapters[id], None)] else t == s)
    ensures k < |s.evaluating| ==>
              Next(s, AbandonEvaluation(k)) == s.(evaluating := s.evaluating[..k] + s.evaluating[k + 1..])
    ensures k < |s.promoting| ==>
              Next(s, AbandonPromotion(k)) == s.(promoting := s.promoting[..k] + s.promoting[k + 1..])
  {
  }

  /** A specification alone becomes champion on its own passing report, or outright; a report that fails
      is only recorded. */
  lemma SpecificationsTake(s: State, specHash: string, splitVersion: int, mins: Rates, results: seq<TaskResult>,
                           lineage: string)
    requires Enabled(s, SpecReport(specHash, splitVersion, mins, results, lineage))
    ensures var t := Next(s, SpecReport(specHash, splitVersion, mins, results, lineage));
            && |t.reports| == |s.reports| + 1 && t.reports[..|s.reports|] == s.reports
            && var r := t.reports[|s.reports|];
            && r.adapter == None && r.specHash == specHash && r.results == results
            && t == s.(reports := t.reports,
                       champions := if Passes(RatesOf(results), mins) then s.champions[lineage := None]
                                    else s.champions)
    ensures Next(s, SpecPromoted(lineage)) == s.(champions := s.champions[lineage := None])
  {
  }

  /** There is a report about the adapter with that verdict. */
  ghost predicate HasReport(s: State, id: Id, passed: bool) {
    exists r: nat :: r < |s.reports| && s.reports[r].adapter == Some(id) && s.reports[r].passed == passed
  }

  ghost predicate VerdictsSound(s: State) {
    && (forall k {:trigger s.evaluating[k]} :: 0 <= k < |s.evaluating| && s.evaluating[k].passed.Some? ==>
          HasReport(s, s.evaluating[k].id, s.evaluating[k].passed.value))
    && (forall id {:trigger s.adapters[id]} :: id in s.adapters ==> StatusBacked(s, s.adapters[id].status, id))
  }

  lemma HasReportStays(s: State, t: State, id: Id, passed: bool)
    requires s.reports <= t.reports && HasReport(s, id, passed)
    ensures HasReport(t, id, passed)
  {
    var r: nat :| r < |s.reports| && s.reports[r].adapter == Some(id) && s.reports[r].passed == passed;
    assert t.reports[r] == s.reports[r];
  }

  lemma RunningVerdict(s: State, e: Event, k: nat)
    requires VerdictsSound(s) && Enabled(s, e) && k < |Next(s, e).evaluating| && Next(s, e).evaluating[k].passed.Some?
    ensures HasReport(Next(s, e), Next(s, e).evaluating[k].id, Next(s, e).evaluating[k].passed.value)
  {
    var t := Next(s, e);
    if e.RecordReport? && e.k == k {
      assert t.reports[|s.reports|].adapter == Some(t.evaluating[k].id);
    } else {
      StepExtends(s, e);
      var gone := (e.SaveStatus? || e.AbandonEvaluation?) && k >= e.k;
      var was := s.evaluating[if gone then k + 1 else k];
      assert t.evaluating[k] == was;
      HasReportStays(s, t, was.id, was.passed.value);
    }
  }

  /** What a status says about the reports on record. */
  ghost predicate StatusBacked(s: State, status: Status, id: Id) {
    && (status.Evaluated? || status.Promoted? ==> HasReport(s, id, true))
    && (status.Rejected? ==> HasReport(s, id, false))
  }

  lemma StatusStays(s: State, t: State, status: Status, id: Id)
    requires s.reports <= t.reports && StatusBacked(s, status, id)
    ensures StatusBacked(t, status, id)
  {
    if HasReport(s, id, true) {
      HasReportStays(s, t, id, true);
    }
    if HasReport(s, id, false) {
      HasReportStays(s, t, id, false);
    }
  }

  /** What the adapter's status becomes is backed by what is on record already. */
  lemma NewStatusBacked(s: State, e: Event, id: Id)
    requires VerdictsSound(s) && PromotionsSound(s) && Enabled(s, e) && id in s.adapters
    ensures id in Next(s, e).adapters && StatusBacked(s, Next(s, e).adapters[id].status, id)
  {
    StatusMoves(s, e, id);
    if e.SaveStatus? && s.evaluating[e.k].id == id {
      assert HasReport(s, id, s.evaluating[e.k].passed.value);
    } else if e.WritePromotion? && s.promoting[e.k].id == id {
      assert Backed(s, s.promoting[e.k]);
      assert HasReport(s, id, true);
    } else {
      assert StatusBacked(s, s.adapters[id].status, id);
    }
  }

  lemma AdapterVerdict(s: State, e: Event, id: Id)
    requires VerdictsSound(s) && PromotionsSound(s) && Enabled(s, e) && id in Next(s, e).adapters
    ensures StatusBacked(Next(s, e), Next(s, e).adapters[id].status, id)
  {
    StepExtends(s, e);
    if id in s.adapters {
      NewStatusBacked(s, e, id);
      StatusStays(s, Next(s, e), Next(s, e).adapters[id].status, id);
    }
  }

  lemma {:induction false} RunVerdicts(s: State, es: seq<Event>)
    requires Possible(s, es) && Sound(s) && VerdictsSound(s)
    ensures VerdictsSound(After(s, es))
    decreases |es|
  {
    if es != [] {
      var t := Next(s, es[0]);
      forall k | 0 <= k < |t.evaluating| && t.evaluating[k].passed.Some?
        ensures HasReport(t, t.evaluating[k].id, t.evaluating[k].passed.value)
      {
        RunningVerdict(s, es[0], k);
      }
      forall id | id in t.adapters
        ensures StatusBacked(t, t.adapters[id].status, id)
      {
        AdapterVerdict(s, es[0], id);
      }
      StepSound(s, es[0]);
      RunVerdicts(t, es[1..]);
    }
  }

  /** In every run, whatever interleaves: an EVALUATED or PROMOTED adapter has a passing report about itself
      on record, and a REJECTED one a failing report. */
  lemma StatusHasReport(es: seq<Event>, id: Id)
    requires Possible(Init, es) && id in After(Init, es).adapters
    ensures var s := After(Init, es);
            && (s.adapters[id].status.Evaluated? || s.adapters[id].status.Promoted? ==>
                  exists r: nat :: r < |s.reports| && s.reports[r].adapter == Some(id) && s.reports[r].passed)
            && (s.adapters[id].status.Rejected? ==>
                  exists r: nat :: r < |s.reports| && s.reports[r].adapter == Some(id) && !s.reports[r].passed)
  {
    InitSound();
    assert Init.adapters.Keys == {};
    RunVerdicts(Init, es);
    var s := After(Init, es);
    assert StatusBacked(s, s.adapters[id].status, id);
    if HasReport(s, id, false) {
      var r: nat :| r < |s.reports| && s.reports[r].adapter == Some(id) && s.reports[r].passed == false;
    }
    if HasReport(s, id, true) {
      var r: nat :| r < |s.reports| && s.reports[r].adapter == Some(id) && s.reports[r].passed == true;
    }
  }

  // ---- how far a champion can fall, in any run ----

  function Rate(r: Rates, x: Aspect): real {
    match x
    case TaskAspect => r.task
    case ToolAspect => r.tool
    case GroundedAspect => r.grounded
  }

  predicate AtLeast(a: Rates, b: Rates, loss: real) {
    a.task >= b.task - loss && a.tool >= b.tool - loss && a.grounded >= b.grounded - loss
  }

  /** The rates on which the lineage's last promotion was made. */
  function PromotedOn(s: State, lineage: string): Option<Rates> {
    match LastIn(s.promoted, lineage)
    case None => None
    case Some(p) => if p.stage.Judged? then Some(p.stage.evaluation.rates) else None
  }

  /** The promotion this event writes into the lineage, if it does. */
  function WrittenIn(s: State, e: Event, lineage: string): (p: Option<Promoting>)
    requires Enabled(s, e)
    ensures p.Some? ==> p.value.stage.Judged? && p.value in s.promoting
  {
    if e.WritePromotion? && s.promoting[e.k].id in s.adapters &&
       s.promoting[e.k].lineage == lineage then Some(s.promoting[e.k]) else None
  }

  /** The tolerance the promotion made use of: none when it was compared with nothing. */
  function Tolerance(p: Promoting): real
    requires p.stage.Judged?
  {
    if p.stage.against.Some? then p.minDelta else 0.0
  }

  /** By how much the rates it was compared with lie below those the champion had been promoted on. */
  function Shortfall(p: Promoting, was: Rates, x: Aspect): real
    requires p.stage.Judged?
  {
    var against := if p.stage.against.Some? then Rate(p.stage.against.value, x) else 0.0;
    if against < Rate(was, x) then Rate(was, x) - against else 0.0
  }

  /** The tolerances used by the promotions written in the lineage. */
  function Spent(s: State, es: seq<Event>, lineage: string): real
    requires Possible(s, es)
    decreases |es|
  {
    if es == [] then 0.0
    else
      var p := WrittenIn(s, es[0], lineage);
      (if p.Some? then Tolerance(p.value) else 0.0) + Spent(Next(s, es[0]), es[1..], lineage)
  }

  /** What was lost by comparing with too little: with a champion that had been replaced meanwhile,
      with a report worse than the one the champion was promoted on, or with nothing. */
  function Slack(s: State, es: seq<Event>, lineage: string, x: Aspect): real
    requires Possible(s, es)
    decreases |es|
  {
    if es == [] then 0.0
    else
      var (p, was) := (WrittenIn(s, es[0], lineage), PromotedOn(s, lineage));
      (if p.Some? && was.Some? then Shortfall(p.value, was.value, x) else 0.0) +
      Slack(Next(s, es[0]), es[1..], lineage, x)
  }

  lemma RatesNotNegative(r: Report, x: Aspect)
    requires Measured(r)
    ensures 0.0 <= Rate(r.rates, x)
  {
    RatioIsOne(GoodCount(r.results, x), |r.results|);
  }

  /** The only event that changes who was promoted in the lineage. */
  lemma PromotedAfter(s: State, e: Event, lineage: string)
    requires Enabled(s, e)
    ensures var p := WrittenIn(s, e, lineage);
            PromotedOn(Next(s, e), lineage) == if p.Some? then Some(p.value.stage.evaluation.rates)
                                               else PromotedOn(s, lineage)
  {
    var t := Next(s, e);
    if e.WritePromotion? && t.promoted != s.promoted {
      assert t.promoted[..|s.promoted|] == s.promoted;
    } else {
      assert t.promoted == s.promoted;
    }
  }

  lemma WrittenFall(s: State, p: Promoting, was: Rates, x: Aspect)
    requires Backed(s, p) && p.stage.Judged? && ReportsSound(s)
    ensures Rate(p.stage.evaluation.rates, x) >= Rate(was, x) - Tolerance(p) - Shortfall(p, was, x)
  {
    assert Measured(s.reports[p.report]);
    RatesNotNegative(p.stage.evaluation, x);
  }

  lemma {:induction false} FallFrom(s: State, es: seq<Event>, lineage: string, x: Aspect)
    requires Possible(s, es) && Sound(s) && PromotedOn(s, lineage).Some?
    ensures PromotedOn(After(s, es), lineage).Some?
    ensures Rate(PromotedOn(After(s, es), lineage).value, x)
         >= Rate(PromotedOn(s, lineage).value, x) - Spent(s, es, lineage) - Slack(s, es, lineage, x)
    decreases |es|
  {
    if es != [] {
      PromotedAfter(s, es[0], lineage);
      if WrittenIn(s, es[0], lineage).Some? {
        WrittenFall(s, s.promoting[es[0].k], PromotedOn(s, lineage).value, x);
      }
      StepSound(s, es[0]);
      FallFrom(Next(s, es[0]), es[1..], lineage, x);
    }
  }

  /** In every run, with any interleaving of promotions, evaluations and specification champions, and
      however tolerances and lineages are chosen: from one promotion of a lineage to a later one no
      rate falls by more than the tolerances used and the slack of the comparisons. */
  lemma FallBounded(before: seq<Event>, es: seq<Event>, lineage: string, x: Aspect)
    requires Possible(Init, before) && Possible(After(Init, before), es)
    requires PromotedOn(After(Init, before), lineage).Some?
    ensures var s := After(Init, before);
            && PromotedOn(After(s, es), lineage).Some?
            && Rate(PromotedOn(After(s, es), lineage).value, x)
               >= Rate(PromotedOn(s, lineage).value, x) - Spent(s, es, lineage) - Slack(s, es, lineage, x)
  {
    ReachableSound(before);
    FallFrom(After(Init, before), es, lineage, x);
  }

  // ---- when the comparison protects the champion ----

  /** The comparison keeps every candidate it accepts within the tolerance of the rates `was` exactly
      when there was something to compare with and it is nowhere below `was`. */
  lemma ComparisonProtectsIff(against: Option<Rates>, minDelta: real, was: Rates)
    ensures (forall c :: Accepts(against, c, minDelta) ==> AtLeast(c, was, minDelta))
            <==> against.Some? && AtLeast(against.value, was, 0.0)
  {
    var a := if against.Some? then against.value else Rates(was.task - 1.0, was.tool, was.grounded);
    var lowest := Rates(a.task - minDelta, a.tool - minDelta, a.grounded - minDelta);
    assert Accepts(against, lowest, minDelta);
  }

  // ---- careful runs ----

  /** What is written into the lineage was compared with the champion's latest report as it still is,
      and was made on the adapter's own latest report with no evaluation of it running. A caller can
      check this before writing. */
  predicate Careful(s: State, e: Event, lineage: string)
    requires Enabled(s, e)
  {
    var p := WrittenIn(s, e, lineage);
    p.Some? ==>
      && p.value.stage.against == ChampionRates(s, lineage)
      && Latest(s.reports, p.value.id) == Some(p.value.report)
      && forall v :: v in s.evaluating ==> v.id != p.value.id
  }

  /** The lineage does not get a champion that is a specification alone. */
  predicate KeepsAdapterChampion(e: Event, lineage: string) {
    && (e.SpecPromoted? ==> e.lineage != lineage)
    && (e.SpecReport? ==> e.lineage != lineage || !Passes(RatesOf(e.results), e.mins))
  }

  predicate CarefulRun(s: State, es: seq<Event>, lineage: string)
    requires Possible(s, es)
    decreases |es|
  {
    es == [] || (Careful(s, es[0], lineage) && KeepsAdapterChampion(es[0], lineage) &&
                 CarefulRun(Next(s, es[0]), es[1..], lineage))
  }

  /** The lineage's champion is a promoted adapter with a report and no evaluation running. */
  predicate Seated(s: State, lineage: string) {
    && AdapterChampion(s, lineage) && ChampionRates(s, lineage).Some?
    && var id := s.champions[lineage].value;
       id in s.adapters && s.adapters[id].status.Promoted? && forall v :: v in s.evaluating ==> v.id != id
  }

  lemma LatestSnoc(reports: seq<Report>, r: Report, id: Id)
    ensures Latest(reports + [r], id) == if r.adapter == Some(id) then Some(|reports|) else Latest(reports, id)
  {
    assert (reports + [r])[..|reports|] == reports;
  }

  /** A report is about a specification alone, or about an adapter whose evaluation was running. */
  lemma LatestAfter(s: State, e: Event, id: Id)
    requires Enabled(s, e) && forall v :: v in s.evaluating ==> v.id != id
    ensures var (a, b) := (s.reports, Next(s, e).reports);
            a <= b && Latest(b, id) == Latest(a, id)
  {
    var t := Next(s, e);
    if e.RecordReport? || e.SpecReport? {
      var r := t.reports[|s.reports|];
      assert t.reports == s.reports + [r];
      assert e.RecordReport? ==> s.evaluating[e.k] in s.evaluating;
      LatestSnoc(s.reports, r, id);
    }
  }

  /** A promoted adapter stays promoted unless an evaluation of it is running, and none can begin. */
  lemma StaysPromoted(s: State, e: Event, id: Id)
    requires Enabled(s, e) && id in s.adapters && s.adapters[id].status.Promoted?
    requires forall v :: v in s.evaluating ==> v.id != id
    ensures var t := Next(s, e);
            id in t.adapters && t.adapters[id].status.Promoted? && forall v :: v in t.evaluating ==> v.id != id
  {
    if e.SaveStatus? || e.RecordReport? {
      assert s.evaluating[e.k] in s.evaluating;
    }
  }

  /** Steps that write nothing into the lineage leave its champion and its rates alone. */
  lemma StepSeated(s: State, e: Event, lineage: string)
    requires Enabled(s, e) && Seated(s, lineage) && KeepsAdapterChampion(e, lineage) && WrittenIn(s, e, lineage).None?
    ensures Seated(Next(s, e), lineage) && ChampionRates(Next(s, e), lineage) == ChampionRates(s, lineage)
    ensures PromotedOn(Next(s, e), lineage) == PromotedOn(s, lineage)
  {
    var (t, id) := (Next(s, e), s.champions[lineage].value);
    LatestAfter(s, e, id);
    StaysPromoted(s, e, id);
    PromotedAfter(s, e, lineage);
    assert lineage in t.champions && t.champions[lineage] == Some(id);
  }

  /** A careful write seats the new champion, whoever was champion before. */
  lemma WriteSeats(s: State, e: Event, lineage: string)
    requires Sound(s) && Enabled(s, e) && Careful(s, e, lineage) && WrittenIn(s, e, lineage).Some?
    ensures Seated(Next(s, e), lineage) && ChampionRates(Next(s, e), lineage) == PromotedOn(Next(s, e), lineage)
    ensures ChampionRates(s, lineage).Some? ==>
              AtLeast(ChampionRates(Next(s, e), lineage).value, ChampionRates(s, lineage).value,
                      Tolerance(s.promoting[e.k]))
  {
    var (t, p) := (Next(s, e), s.promoting[e.k]);
    assert Backed(s, p);
    assert t.promoted[..|t.promoted| - 1] == s.promoted;
    assert t.reports == s.reports && t.champions[lineage] == Some(p.id);
  }

  lemma StepCareful(s: State, e: Event, lineage: string)
    requires Sound(s) && Enabled(s, e) && Seated(s, lineage) && Careful(s, e, lineage)
    requires KeepsAdapterChampion(e, lineage)
    ensures var (t, p) := (Next(s, e), WrittenIn(s, e, lineage));
            && Seated(t, lineage)
            && (p.None? ==> ChampionRates(t, lineage) == ChampionRates(s, lineage) &&
                            PromotedOn(t, lineage) == PromotedOn(s, lineage))
            && (p.Some? ==> PromotedOn(t, lineage) == ChampionRates(t, lineage)
                            && AtLeast(ChampionRates(t, lineage).value, ChampionRates(s, lineage).value,
                                       Tolerance(p.value)))
  {
    if WrittenIn(s, e, lineage).Some? {
      WriteSeats(s, e, lineage);
    } else {
      StepSeated(s, e, lineage);
    }
  }

  /** The champion's rates are those it was promoted on, or nothing has been written since. */
  predicate Unmoved(s: State, es: seq<Event>, lineage: string)
    requires Possible(s, es)
  {
    var t := After(s, es);
    || PromotedOn(t, lineage) == ChampionRates(t, lineage)
    || (PromotedOn(t, lineage) == PromotedOn(s, lineage) && ChampionRates(t, lineage) == ChampionRates(s, lineage) &&
        Spent(s, es, lineage) == 0.0)
  }

  lemma {:induction false} CarefulFrom(s: State, es: seq<Event>, lineage: string)
    requires Possible(s, es) && Sound(s) && Seated(s, lineage) && CarefulRun(s, es, lineage)
    ensures var t := After(s, es);
            Seated(t, lineage) && AtLeast(ChampionRates(t, lineage).value, ChampionRates(s, lineage).value,
                                          Spent(s, es, lineage))
    ensures Unmoved(s, es, lineage)
    decreases |es|
  {
    if es != [] {
      StepCareful(s, es[0], lineage);
      StepSound(s, es[0]);
      CarefulFrom(Next(s, es[0]), es[1..], lineage);
    }
  }

  /** Once a lineage has a seated champion, over any careful run each of the champion's rates falls by
      at most the sum of the tolerances used, however many promotions it has. */
  lemma NoRegressionBeyondTolerance(before: seq<Event>, es: seq<Event>, lineage: string)
    requires Possible(Init, before) && Possible(After(Init, before), es)
    requires Seated(After(Init, before), lineage) && CarefulRun(After(Init, before), es, lineage)
    ensures var s := After(Init, before);
            var t := After(s, es);
            Seated(t, lineage) && AtLeast(ChampionRates(t, lineage).value, ChampionRates(s, lineage).value,
                                          Spent(s, es, lineage))
  {
    ReachableSound(before);
    CarefulFrom(After(Init, before), es, lineage);
  }
}
