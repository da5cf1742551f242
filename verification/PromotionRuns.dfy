/** Runs of the promotion gate, put together step by step: evaluations and promotions of adapters with
    given results, within what the service admits. */
module PromotionRuns {
  import opened Options
  import opened Promotion
  import opened PromotionLaws

  // ---- building runs ----

  /** Neither a promotion is written nor a specification made champion. */
  predicate Quiet(es: seq<Event>) {
    forall i {:trigger es[i]} :: 0 <= i < |es| ==> !es[i].WritePromotion? && !es[i].SpecReport? && !es[i].SpecPromoted?
  }

  lemma {:induction false} Concatenate(s: State, a: seq<Event>, b: seq<Event>, lineage: string)
    requires Possible(s, a) && Possible(After(s, a), b)
    ensures Possible(s, a + b) && After(s, a + b) == After(After(s, a), b)
    ensures Spent(s, a + b, lineage) == Spent(s, a, lineage) + Spent(After(s, a), b, lineage)
    ensures CarefulRun(s, a, lineage) && CarefulRun(After(s, a), b, lineage) ==> CarefulRun(s, a + b, lineage)
    decreases |a|
  {
    if a == [] {
      assert a + b == b;
    } else {
      assert (a + b)[0] == a[0] && (a + b)[1..] == a[1..] + b;
      Concatenate(Next(s, a[0]), a[1..], b, lineage);
    }
  }

  lemma {:induction false} Snoc(s: State, es: seq<Event>, e: Event)
    requires Possible(s, es) && Enabled(After(s, es), e)
    ensures Possible(s, es + [e]) && After(s, es + [e]) == Next(After(s, es), e)
  {
    assert [e][1..] == [];
    assert Possible(Next(After(s, es), e), []);
    Concatenate(s, es, [e], "");
  }

  lemma OneStep(s: State, e: Event, lineage: string)
    requires Enabled(s, e)
    ensures Possible(s, [e]) && After(s, [e]) == Next(s, e)
    ensures Spent(s, [e], lineage) == if WrittenIn(s, e, lineage).Some?
                                      then Tolerance(WrittenIn(s, e, lineage).value) else 0.0
    ensures Careful(s, e, lineage) && KeepsAdapterChampion(e, lineage) ==> CarefulRun(s, [e], lineage)
  {
    assert [e][1..] == [];
    assert Possible(Next(s, e), []);
    assert Spent(Next(s, e), [], lineage) == 0.0;
  }

  lemma {:induction false} QuietRun(s: State, es: seq<Event>, lineage: string)
    requires Possible(s, es) && Quiet(es)
    ensures CarefulRun(s, es, lineage) && Spent(s, es, lineage) == 0.0
    decreases |es|
  {
    if es != [] {
      assert WrittenIn(s, es[0], lineage).None?;
      QuietRun(Next(s, es[0]), es[1..], lineage);
    }
  }

  // ---- one adapter ----

  const SPEC := "s"

  function Fresh(lineage: string, status: Status): Adapter {
    Adapter(lineage, SPEC, 1, RUBRIC, status)
  }

  /** A report whose thresholds are what its results reach. */
  function FreshReport(id: Id, results: seq<TaskResult>): Report {
    ReportOn(Some(id), SPEC, 1, RatesOf(results), results)
  }

  lemma FreshRecordable(lineage: string)
    requires lineage != ""
    ensures Recordable(Fresh(lineage, Candidate))
  {
    assert SPEC[0..1] == SPEC;
  }

  lemma RatesAreShares(results: seq<TaskResult>)
    ensures Shares(RatesOf(results))
  {
    RatioIsOne(GoodCount(results, TaskAspect), |results|);
    RatioIsOne(GoodCount(results, ToolAspect), |results|);
    RatioIsOne(GoodCount(results, GroundedAspect), |results|);
  }

  function WithReport(s: State, id: Id, report: Report): State
    requires id in s.adapters
  {
    s.(adapters := WithStatus(s.adapters, id, if report.passed then Evaluated else Rejected),
       reports := s.reports + [report])
  }

  /** An evaluation that nothing interrupts. */
  lemma Evaluate(s: State, id: Id, mins: Rates, results: seq<TaskResult>) returns (es: seq<Event>)
    requires id in s.adapters && (s.adapters[id].status.Candidate? || s.adapters[id].status.Evaluated?)
    requires results != [] && Shares(mins) && s.adapters[id].splitVersion >= 1
    ensures Possible(s, es) && Quiet(es)
    ensures After(s, es) == WithReport(s, id, ReportOn(Some(id), s.adapters[id].specHash, s.adapters[id].splitVersion,
                                                       mins, results))
  {
    var (a, n) := (s.adapters[id], |s.evaluating|);
    var (e, f, g) := (BeginEvaluation(id, a.lineage), RecordReport(n, a.splitVersion, mins, results), SaveStatus(n));
    Snoc(s, [], e);
    var t := Next(s, e);
    assert [] + [e] == [e];
    Snoc(s, [e], f);
    var u := Next(t, f);
    Snoc(s, [e] + [f], g);
    assert Without(u.evaluating, n) == s.evaluating;
    es := [e] + [f] + [g];
  }

  /** A new adapter that passes its evaluation with the given results. */
  lemma NewCandidate(s: State, id: Id, lineage: string, results: seq<TaskResult>) returns (es: seq<Event>)
    requires id !in s.adapters && lineage != "" && results != [] && Positive(RatesOf(results))
    ensures Possible(s, es) && Quiet(es)
    ensures After(s, es) == s.(adapters := s.adapters[id := Fresh(lineage, Evaluated)],
                               reports := s.reports + [FreshReport(id, results)])
  {
    var e := Record(id, Fresh(lineage, Candidate));
    FreshRecordable(lineage);
    RatesAreShares(results);
    Snoc(s, [], e);
    assert [] + [e] == [e];
    var rest := Evaluate(Next(s, e), id, RatesOf(results), results);
    Concatenate(s, [e], rest, lineage);
    es := [e] + rest;
  }

  function Asked(s: State, id: Id, report: nat): Promoting
    requires id in s.adapters && report < |s.reports|
  {
    Promoting(id, s.adapters[id].lineage, report, 0.0, s.adapters[id],
              Judged(s.reports[report], ChampionRates(s, s.adapters[id].lineage)))
  }

  /** The first two reads of a promotion, of the adapter and of its report. */
  lemma AskReport(s: State, id: Id, report: nat) returns (es: seq<Event>)
    requires id in s.adapters && s.adapters[id].status.Evaluated? && s.adapters[id].lineage != ""
    requires report < |s.reports| && Compatible(id, s.adapters[id], s.reports[report]) && s.reports[report].passed
    ensures Possible(s, es) && Quiet(es)
    ensures After(s, es) == s.(promoting := s.promoting +
                                            [Asked(s, id, report).(stage := ReportRead(s.reports[report]))])
  {
    var (n, lineage) := (|s.promoting|, s.adapters[id].lineage);
    var e := BeginPromotion(id, lineage, report, 0.0);
    Snoc(s, [], e);
    assert [] + [e] == [e];
    Snoc(s, [e], ReadReport(n));
    es := [e] + [ReadReport(n)];
  }

  /** All the reads of a promotion without tolerance, uninterrupted, that is accepted. */
  lemma Ask(s: State, id: Id, report: nat) returns (es: seq<Event>)
    requires id in s.adapters && s.adapters[id].status.Evaluated? && s.adapters[id].lineage != ""
    requires report < |s.reports| && Compatible(id, s.adapters[id], s.reports[report]) && s.reports[report].passed
    requires Accepts(ChampionRates(s, s.adapters[id].lineage), s.reports[report].rates, 0.0)
    ensures Possible(s, es) && Quiet(es)
    ensures After(s, es) == s.(promoting := s.promoting + [Asked(s, id, report)])
  {
    var (n, lineage, p) := (|s.promoting|, s.adapters[id].lineage, Asked(s, id, report));
    es := AskReport(s, id, report);
    Snoc(s, es, ReadChampion(n));
    es := es + [ReadChampion(n)];
    if AdapterChampion(s, lineage) {
      var found := p.(stage := ChampionRead(s.reports[report], s.champions[lineage].value));
      assert After(s, es) == s.(promoting := s.promoting + [found]);
      Snoc(s, es, Compare(n));
      es := es + [Compare(n)];
    }
  }

  // ---- challengers of a champion ----

  lemma {:induction false} Above(ids: set<Id>) returns (bound: nat)
    ensures forall id :: id in ids ==> id < bound
  {
    bound := 0;
    if ids != {} {
      var id :| id in ids;
      bound := Above(ids - {id});
      assert forall other :: other in ids ==> other == id || other in ids - {id};
      bound := if bound <= id then id + 1 else bound;
    }
  }

  lemma FreshId(ids: set<Id>) returns (id: Id)
    ensures id !in ids
  {
    id := Above(ids);
  }

  /** The results behind the promotion in force. */
  lemma PromotedResults(s: State, lineage: string) returns (results: seq<TaskResult>)
    requires Sound(s) && LastIn(s.promoted, lineage).Some?
    ensures PromotedOn(s, lineage) == Some(RatesOf(results)) && results != [] && Positive(RatesOf(results))
    ensures lineage != ""
    ensures LastIn(s.promoted, lineage).value.id in s.adapters
  {
    var p := LastIn(s.promoted, lineage).value;
    var i :| 0 <= i < |s.promoted| && s.promoted[i] == p;
    assert Backed(s, s.promoted[i]);
    assert Measured(s.reports[p.report]);
    results := p.stage.evaluation.results;
  }

  /** The results behind the champion's latest report. */
  lemma LatestResults(s: State, lineage: string) returns (results: seq<TaskResult>)
    requires Sound(s) && Seated(s, lineage)
    ensures ChampionRates(s, lineage) == Some(RatesOf(results)) && results != []
    ensures lineage != "" && s.champions[lineage].value in s.adapters
  {
    assert s.champions[lineage].Some?;
    var earned := PromotedResults(s, lineage);
    var latest := s.reports[Latest(s.reports, s.champions[lineage].value).value];
    assert Measured(latest);
    results := latest.results;
  }

  lemma EvaluatesOthers(s: State, id: Id)
    requires EvaluationsSound(s) && id !in s.adapters
    ensures forall v :: v in s.evaluating ==> v.id != id
  {
  }

  lemma ChampionRatesKept(s: State, t: State, id: Id, results: seq<TaskResult>, lineage: string)
    requires t.champions == s.champions && t.reports == s.reports + [FreshReport(id, results)]
    requires AdapterChampion(s, lineage) ==> s.champions[lineage].value != id
    ensures ChampionRates(t, lineage) == ChampionRates(s, lineage)
  {
    if AdapterChampion(s, lineage) {
      LatestSnoc(s.reports, FreshReport(id, results), s.champions[lineage].value);
    }
  }

  /** A new adapter with the given results. */
  lemma Challenger(s: State, lineage: string, results: seq<TaskResult>) returns (es: seq<Event>, id: Id)
    requires Sound(s) && Seated(s, lineage) && results != [] && Positive(RatesOf(results))
    ensures Possible(s, es) && Quiet(es)
    ensures var t := After(s, es);
            && id in t.adapters && t.adapters[id] == Fresh(lineage, Evaluated) && t.promoting == s.promoting
            && lineage != ""
            && Latest(t.reports, id) == Some(|s.reports|) && (forall v :: v in t.evaluating ==> v.id != id)
            && t.reports[|s.reports|] == FreshReport(id, results)
            && ChampionRates(t, lineage) == ChampionRates(s, lineage)
  {
    var earned := LatestResults(s, lineage);
    id := FreshId(s.adapters.Keys);
    es := NewCandidate(s, id, lineage, results);
    ChampionRatesKept(s, After(s, es), id, results, lineage);
    LatestSnoc(s.reports, FreshReport(id, results), id);
    EvaluatesOthers(s, id);
  }

  /** A promotion of an adapter with the given results, ready to be written into the lineage. */
  predicate Ready(s: State, p: Promoting, lineage: string, results: seq<TaskResult>) {
    && p.lineage == lineage && p.minDelta == 0.0 && p.id in s.adapters
    && p.stage.Judged? && p.stage.evaluation.rates == RatesOf(results)
  }

  lemma ChallengerAsked(s: State, lineage: string, results: seq<TaskResult>) returns (es: seq<Event>)
    requires Sound(s) && Seated(s, lineage) && results != [] && Positive(RatesOf(results))
    requires Accepts(ChampionRates(s, lineage), RatesOf(results), 0.0)
    ensures Possible(s, es) && Quiet(es)
    ensures var (t, n) := (After(s, es), |s.promoting|);
            && |t.promoting| == n + 1 && Ready(t, t.promoting[n], lineage, results)
            && Careful(t, WritePromotion(n), lineage)
  {
    var a, id := Challenger(s, lineage, results);
    var t := After(s, a);
    var b := Ask(t, id, |s.reports|);
    assert After(t, b).promoting[|t.promoting|] == Asked(t, id, |s.reports|);
    Concatenate(s, a, b, lineage);
    es := a + b;
  }

  lemma TwoCandidates(s: State, lineage: string, better: seq<TaskResult>, worse: seq<TaskResult>)
      returns (es: seq<Event>, i: Id, j: Id)
    requires Sound(s) && lineage != ""
    requires better != [] && worse != [] && Positive(RatesOf(better)) && Positive(RatesOf(worse))
    ensures Possible(s, es) && Quiet(es) && i != j && ChampionRates(After(s, es), lineage) == ChampionRates(s, lineage)
    ensures var t := After(s, es);
            && t.promoting == s.promoting && t.reports == s.reports + [FreshReport(i, better)] + [FreshReport(j, worse)]
            && i in t.adapters && t.adapters[i] == Fresh(lineage, Evaluated)
            && j in t.adapters && t.adapters[j] == Fresh(lineage, Evaluated)
  {
    i := FreshId(s.adapters.Keys);
    j := FreshId(s.adapters.Keys + {i});
    var a := NewCandidate(s, i, lineage, better);
    var t := After(s, a);
    if AdapterChampion(s, lineage) {
      assert s.champions[lineage].Some?;
      var earned := PromotedResults(s, lineage);
    }
    ChampionRatesKept(s, t, i, better, lineage);
    var b := NewCandidate(t, j, lineage, worse);
    ChampionRatesKept(t, After(t, b), j, worse, lineage);
    Concatenate(s, a, b, lineage);
    es := a + b;
  }

  lemma BothAsked(s: State, lineage: string, better: seq<TaskResult>, worse: seq<TaskResult>) returns (es: seq<Event>)
    requires Sound(s) && lineage != ""
    requires better != [] && worse != [] && Positive(RatesOf(better)) && Positive(RatesOf(worse))
    requires Accepts(ChampionRates(s, lineage), RatesOf(better), 0.0)
    requires Accepts(ChampionRates(s, lineage), RatesOf(worse), 0.0)
    ensures Possible(s, es) && Quiet(es)
    ensures var (t, n) := (After(s, es), |s.promoting|);
            |t.promoting| == n + 2 && Ready(t, t.promoting[n], lineage, better) &&
            Ready(t, t.promoting[n + 1], lineage, worse)
  {
    var a, i, j := TwoCandidates(s, lineage, better, worse);
    var (t, m) := (After(s, a), |s.reports|);
    var b := Ask(t, i, m);
    var u := After(t, b);
    var c := Ask(u, j, m + 1);
    Concatenate(s, a, b, lineage);
    Concatenate(s, a + b, c, lineage);
    es := a + b + c;
  }

  lemma WriteReady(s: State, k: nat, lineage: string, results: seq<TaskResult>)
    requires k < |s.promoting| && Ready(s, s.promoting[k], lineage, results)
    ensures var e := WritePromotion(k);
            && Possible(s, [e]) && After(s, [e]) == Next(s, e) && Spent(s, [e], lineage) == 0.0
            && PromotedOn(Next(s, e), lineage) == Some(RatesOf(results)) && Next(s, e).adapters.Keys == s.adapters.Keys
            && Next(s, e).promoting == Without(s.promoting, k)
  {
    PromotedAfter(s, WritePromotion(k), lineage);
    OneStep(s, WritePromotion(k), lineage);
  }

  // ---- candidates just short of a given rate ----

  lemma RateIsRatio(results: seq<TaskResult>, x: Aspect)
    ensures Rate(RatesOf(results), x) == Ratio(GoodCount(results, x), |results|)
  {
  }

  lemma SameRate(a: seq<TaskResult>, x: Aspect, b: seq<TaskResult>, y: Aspect)
    requires GoodCount(a, x) == GoodCount(b, y) && |a| == |b|
    ensures Rate(RatesOf(a), x) == Rate(RatesOf(b), y)
  {
    RateIsRatio(a, x);
    RateIsRatio(b, y);
  }

  lemma WholeRate(a: seq<TaskResult>, x: Aspect)
    requires GoodCount(a, x) == |a| > 0
    ensures Rate(RatesOf(a), x) == 1.0
  {
    RateIsRatio(a, x);
    RatioIsOne(|a|, |a|);
  }

  /** The results with every aspect but one made good. */
  function OnlyAspect(results: seq<TaskResult>, x: Aspect): seq<TaskResult> {
    if results == [] then []
    else
      var r := results[|results| - 1];
      OnlyAspect(results[..|results| - 1], x)
      + [TaskResult(x.TaskAspect? ==> r.task, x.ToolAspect? ==> r.tool, x.GroundedAspect? ==> r.grounded)]
  }

  lemma {:induction false} OnlyAspectCount(results: seq<TaskResult>, x: Aspect, y: Aspect)
    ensures |OnlyAspect(results, x)| == |results|
    ensures GoodCount(OnlyAspect(results, x), y) == if y == x then GoodCount(results, x) else |results|
  {
    if results != [] {
      var init := results[..|results| - 1];
      OnlyAspectCount(init, x, y);
      assert OnlyAspect(results, x)[..|results| - 1] == OnlyAspect(init, x);
    }
  }

  lemma OnlyAspectRates(results: seq<TaskResult>, x: Aspect, y: Aspect)
    requires results != []
    ensures Rate(RatesOf(OnlyAspect(results, x)), y) == if y == x then Rate(RatesOf(results), x) else 1.0
  {
    OnlyAspectCount(results, x, y);
    if y == x {
      SameRate(OnlyAspect(results, x), y, results, x);
    } else {
      WholeRate(OnlyAspect(results, x), y);
    }
  }

  const GOOD := TaskResult(true, true, true)
  const BAD := TaskResult(false, false, false)

  function OneGood(n: nat): (results: seq<TaskResult>)
    ensures |results| == n + 1
  {
    if n == 0 then [GOOD] else OneGood(n - 1) + [BAD]
  }

  lemma {:induction false} OneGoodCount(n: nat, x: Aspect)
    ensures GoodCount(OneGood(n), x) == 1
  {
    if n > 0 {
      OneGoodCount(n - 1, x);
      assert OneGood(n)[..n] == OneGood(n - 1);
    } else {
      assert [GOOD][..0] == [];
    }
  }

  lemma SmallerShare(k: nat, n: nat)
    requires n > 0 && Ratio(k, n) > 0.0
    ensures Ratio(1, n + 1) < Ratio(k, n)
  {
    assert k >= 1;
    assert 1.0 / (n + 1) as real < 1.0 / n as real;
    assert 1.0 / n as real <= k as real / n as real;
  }

  lemma PositiveShare(k: nat, n: nat)
    requires k > 0 && n > 0
    ensures Ratio(k, n) > 0.0
  {
  }

  lemma InBetween(results: seq<TaskResult>, other: seq<TaskResult>, x: Aspect) returns (base: seq<TaskResult>)
    requires results != [] && other != [] && Rate(RatesOf(results), x) < Rate(RatesOf(other), x)
    ensures base != [] && 0.0 < Rate(RatesOf(base), x)
    ensures Rate(RatesOf(results), x) <= Rate(RatesOf(base), x) < Rate(RatesOf(other), x)
  {
    RateIsRatio(results, x);
    RateIsRatio(other, x);
    RatioIsOne(GoodCount(results, x), |results|);
    if GoodCount(results, x) > 0 {
      base := results;
      PositiveShare(GoodCount(results, x), |results|);
    } else {
      base := OneGood(|other|);
      OneGoodCount(|other|, x);
      RateIsRatio(base, x);
      SmallerShare(GoodCount(other, x), |other|);
      PositiveShare(1, |base|);
    }
  }

  /** When one result list is behind another in some aspect, there is a candidate that passes, is not
      behind the first, and still is behind the other. */
  lemma JustBehind(results: seq<TaskResult>, other: seq<TaskResult>, x: Aspect) returns (c: seq<TaskResult>)
    requires results != [] && other != [] && Rate(RatesOf(results), x) < Rate(RatesOf(other), x)
    ensures c != [] && Positive(RatesOf(c)) && Accepts(Some(RatesOf(results)), RatesOf(c), 0.0)
    ensures Rate(RatesOf(c), x) < Rate(RatesOf(other), x)
  {
    var base := InBetween(results, other, x);
    c := OnlyAspect(base, x);
    OnlyAspectCount(base, x, x);
    RatesAreShares(results);
    var (r, d) := (RatesOf(results), RatesOf(c));
    OnlyAspectRates(base, x, x);
    OnlyAspectRates(base, x, TaskAspect);
    OnlyAspectRates(base, x, ToolAspect);
    OnlyAspectRates(base, x, GroundedAspect);
    assert Rate(d, TaskAspect) == d.task && Rate(d, ToolAspect) == d.tool && Rate(d, GroundedAspect) == d.grounded;
  }
}
