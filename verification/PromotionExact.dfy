/** Exactly when the promotion gate keeps a champion's rates, and the runs in which it does not. */
module PromotionExact {
  import opened Options
  import opened Promotion
  import opened PromotionLaws
  import opened PromotionRuns

  // ---- a champion whose latest report is worse than the one it was promoted on ----

  ghost predicate CarefulPath(s: State, es: seq<Event>, lineage: string) {
    Possible(s, es) && CarefulRun(s, es, lineage)
  }

  /** No rate is below those of the promotion in force at s by more than the tolerances used since. */
  ghost predicate KeepsRule(s: State, es: seq<Event>, lineage: string)
    requires Possible(s, es)
  {
    var (was, now) := (PromotedOn(s, lineage), PromotedOn(After(s, es), lineage));
    was.Some? && now.Some? && AtLeast(now.value, was.value, Spent(s, es, lineage))
  }

  /** A challenger with the given results, evaluated and promoted with nothing in between and no
      tolerance. */
  lemma Replaced(s: State, lineage: string, results: seq<TaskResult>) returns (es: seq<Event>)
    requires Sound(s) && Seated(s, lineage) && results != [] && Positive(RatesOf(results))
    requires Accepts(ChampionRates(s, lineage), RatesOf(results), 0.0)
    ensures CarefulPath(s, es, lineage) && Spent(s, es, lineage) == 0.0
    ensures PromotedOn(After(s, es), lineage) == Some(RatesOf(results))
  {
    var asked := ChallengerAsked(s, lineage, results);
    var (t, e) := (After(s, asked), WritePromotion(|s.promoting|));
    PromotedAfter(t, e, lineage);
    QuietRun(s, asked, lineage);
    OneStep(t, e, lineage);
    Concatenate(s, asked, [e], lineage);
    es := asked + [e];
  }

  function AspectBelow(a: Rates, b: Rates): Aspect {
    if a.task < b.task then TaskAspect else if a.tool < b.tool then ToolAspect else GroundedAspect
  }

  /** In every reachable state: careful runs keep the rule, measured by the rates champions were
      promoted on, exactly when the champion's latest report is nowhere worse than the one it was
      promoted on. */
  lemma RuleHoldsIff(before: seq<Event>, lineage: string)
    requires Possible(Init, before) && Seated(After(Init, before), lineage)
    ensures var s := After(Init, before);
            && PromotedOn(s, lineage).Some?
            && ((forall es :: CarefulPath(s, es, lineage) ==> KeepsRule(s, es, lineage))
                <==> AtLeast(ChampionRates(s, lineage).value, PromotedOn(s, lineage).value, 0.0))
  {
    var s := After(Init, before);
    ReachableSound(before);
    var latest := LatestResults(s, lineage);
    var earned := PromotedResults(s, lineage);
    if AtLeast(RatesOf(latest), RatesOf(earned), 0.0) {
      forall es | CarefulPath(s, es, lineage)
        ensures KeepsRule(s, es, lineage)
      {
        CarefulFrom(s, es, lineage);
      }
    } else {
      var c := JustBehind(latest, earned, AspectBelow(RatesOf(latest), RatesOf(earned)));
      var es := Replaced(s, lineage, c);
      assert !KeepsRule(s, es, lineage);
    }
  }

  // ---- the two ways to lose ----

  const FULL := Rates(1.0, 1.0, 1.0)
  const HALF := Rates(0.5, 0.5, 0.5)

  lemma FullAndHalf()
    ensures RatesOf([GOOD, GOOD]) == FULL && RatesOf([GOOD, BAD]) == HALF
  {
    forall x
      ensures GoodCount([GOOD, GOOD], x) == 2 && GoodCount([GOOD, BAD], x) == 1
    {
      assert [GOOD][..0] == [] && [GOOD, GOOD][..1] == [GOOD] && [GOOD, BAD][..1] == [GOOD];
      assert GoodCount([GOOD], x) == 1;
    }
    assert GoodCount([GOOD, GOOD], TaskAspect) == GoodCount([GOOD, GOOD], ToolAspect) ==
           GoodCount([GOOD, GOOD], GroundedAspect) == 2;
    assert GoodCount([GOOD, BAD], TaskAspect) == GoodCount([GOOD, BAD], ToolAspect) ==
           GoodCount([GOOD, BAD], GroundedAspect) == 1;
  }

  /** An adapter that passed with everything and again with half. */
  lemma EvaluatedTwice(lineage: string) returns (es: seq<Event>)
    requires lineage != ""
    ensures Possible(Init, es)
    ensures After(Init, es) == Init.(adapters := map[0 := Fresh(lineage, Evaluated)],
                                     reports := [FreshReport(0, [GOOD, GOOD]), FreshReport(0, [GOOD, BAD])])
  {
    FullAndHalf();
    es := NewCandidate(Init, 0, lineage, [GOOD, GOOD]);
    var again := Evaluate(After(Init, es), 0, HALF, [GOOD, BAD]);
    Concatenate(Init, es, again, lineage);
    es := es + again;
  }

  lemma PromotedOnOlder(lineage: string) returns (es: seq<Event>)
    requires lineage != ""
    ensures Possible(Init, es) && Seated(After(Init, es), lineage)
    ensures PromotedOn(After(Init, es), lineage) == Some(FULL) && ChampionRates(After(Init, es), lineage) == Some(HALF)
  {
    FullAndHalf();
    es := EvaluatedTwice(lineage);
    var s := After(Init, es);
    var (full, half) := (FreshReport(0, [GOOD, GOOD]), FreshReport(0, [GOOD, BAD]));
    LatestSnoc([full], half, 0);
    assert s.reports == [full] + [half];
    var asked := Ask(s, 0, 0);
    Concatenate(Init, es, asked, lineage);
    PromotedAfter(After(s, asked), WritePromotion(0), lineage);
    Snoc(Init, es + asked, WritePromotion(0));
    es := es + asked + [WritePromotion(0)];
  }

  /** So an adapter can be promoted on an older report than its latest, and then a careful promotion
      without tolerance halves every rate. */
  lemma OlderReportLosesHalf(lineage: string) returns (before: seq<Event>, es: seq<Event>)
    requires lineage != ""
    ensures Possible(Init, before) && CarefulPath(After(Init, before), es, lineage)
    ensures Spent(After(Init, before), es, lineage) == 0.0
    ensures PromotedOn(After(Init, before), lineage) == Some(FULL)
    ensures PromotedOn(After(After(Init, before), es), lineage) == Some(HALF)
  {
    FullAndHalf();
    before := PromotedOnOlder(lineage);
    ReachableSound(before);
    es := Replaced(After(Init, before), lineage, [GOOD, BAD]);
  }

  /** Two runs without tolerance, the second right after the first: the lineage's rates become `up`,
      and then `down`. */
  ghost predicate UpAndDown(s: State, first: seq<Event>, second: seq<Event>, lineage: string, up: Rates, down: Rates) {
    && Possible(s, first) && Possible(After(s, first), second)
    && Spent(s, first, lineage) == 0.0 && Spent(After(s, first), second, lineage) == 0.0
    && PromotedOn(After(s, first), lineage) == Some(up)
    && PromotedOn(After(After(s, first), second), lineage) == Some(down)
  }

  /** Two promotions without tolerance overlap: both are compared with the same champion, or with
      none, and both are written, the worse one last. */
  lemma OverlapLoses(s: State, lineage: string, better: seq<TaskResult>, worse: seq<TaskResult>)
      returns (first: seq<Event>, second: seq<Event>)
    requires Sound(s) && lineage != ""
    requires better != [] && worse != [] && Positive(RatesOf(better)) && Positive(RatesOf(worse))
    requires Accepts(ChampionRates(s, lineage), RatesOf(better), 0.0)
    requires Accepts(ChampionRates(s, lineage), RatesOf(worse), 0.0)
    ensures UpAndDown(s, first, second, lineage, RatesOf(better), RatesOf(worse))
  {
    var es := BothAsked(s, lineage, better, worse);
    var (t, n) := (After(s, es), |s.promoting|);
    var u := Next(t, WritePromotion(n));
    WriteReady(t, n, lineage, better);
    assert u.promoting[n] == t.promoting[n + 1] && u.promoting[n].id in u.adapters.Keys;
    WriteReady(u, n, lineage, worse);
    QuietRun(s, es, lineage);
    Concatenate(s, es, [WritePromotion(n)], lineage);
    first, second := es + [WritePromotion(n)], [WritePromotion(n)];
  }

  /** So the freshness of the comparison cannot be dropped: from every reachable state whose champion
      is not perfect, promotions without tolerance can make it perfect and then less than that. */
  lemma OverlapDrops(before: seq<Event>, lineage: string) returns (first: seq<Event>, second: seq<Event>, down: Rates)
    requires Possible(Init, before) && Seated(After(Init, before), lineage)
    requires ChampionRates(After(Init, before), lineage) != Some(FULL)
    ensures UpAndDown(After(Init, before), first, second, lineage, FULL, down) && !AtLeast(down, FULL, 0.0)
  {
    var s := After(Init, before);
    ReachableSound(before);
    FullAndHalf();
    var latest := LatestResults(s, lineage);
    RatesAreShares(latest);
    var worse := JustBehind(latest, [GOOD, GOOD], AspectBelow(RatesOf(latest), FULL));
    down := RatesOf(worse);
    first, second := OverlapLoses(s, lineage, [GOOD, GOOD], worse);
  }

  ghost predicate TakesBack(s: State, first: seq<Event>, second: seq<Event>, lineage: string)
    requires ChampionRates(s, lineage).Some?
  {
    UpAndDown(s, first, second, lineage, FULL, ChampionRates(s, lineage).value)
  }

  lemma OnlyPositive(s: State, first: seq<Event>, second: seq<Event>, lineage: string)
    requires Sound(s) && Possible(s, first) && Possible(After(s, first), second)
    ensures var now := PromotedOn(After(After(s, first), second), lineage); now.Some? ==> Positive(now.value)
  {
    RunSound(s, first);
    RunSound(After(s, first), second);
    var t := After(After(s, first), second);
    if LastIn(t.promoted, lineage).Some? {
      var results := PromotedResults(t, lineage);
    }
  }

  /** And exactly when none of the champion's rates is zero they can take back all of it: to a zero
      rate no lineage returns, since no report with one passes. */
  lemma TakesBackIff(before: seq<Event>, lineage: string)
    requires Possible(Init, before) && Seated(After(Init, before), lineage)
    ensures var s := After(Init, before);
            (exists first, second :: TakesBack(s, first, second, lineage)) <==>
            Positive(ChampionRates(s, lineage).value)
  {
    var s := After(Init, before);
    ReachableSound(before);
    var latest := LatestResults(s, lineage);
    RatesAreShares(latest);
    FullAndHalf();
    if Positive(RatesOf(latest)) {
      var first, second := OverlapLoses(s, lineage, [GOOD, GOOD], latest);
      assert TakesBack(s, first, second, lineage);
    } else {
      forall first, second
        ensures !TakesBack(s, first, second, lineage)
      {
        if Possible(s, first) && Possible(After(s, first), second) {
          OnlyPositive(s, first, second, lineage);
        }
      }
    }
  }

  /** From the start, a lineage can go from a perfect champion to one half as good. */
  lemma OverlapLosesHalf(lineage: string) returns (first: seq<Event>, second: seq<Event>)
    requires lineage != ""
    ensures UpAndDown(Init, first, second, lineage, FULL, HALF)
  {
    FullAndHalf();
    InitSound();
    first, second := OverlapLoses(Init, lineage, [GOOD, GOOD], [GOOD, BAD]);
  }
}
