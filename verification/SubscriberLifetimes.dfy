/** The commit states of a subscriber run are a run of the commit table. */
module SubscriberLifetimes {
  import opened Assignment
  import opened CommitBuffer
  import opened CommitLifetimes
  import opened Subscriber

  /** What an event does to the table, if anything. */
  function StepsOf(c: Config, s: State, e: Event): seq<TableStep<Msg>>
    requires Shaped(c, s) && Enabled(c, s, e)
  {
    match e
    case Poll(p) =>
      var note := DecidePoll(c, s, p).effect.note;
      if note.Registering? then [Register(note.m.key, note.m.offset)] else []
    case Coordinate(k) =>
      if k.Collect? && s.Current(s.commits[0])
      then [Settle(s.commits[0].key, Request(s.commits[0].offset, s.commits[0]))] else []
    case Rebalance(r) => if r.AssignedCallback? then [] else [Clear(s.Revoked(r.partitions))]
    case _ => []
  }

  function RunSteps(c: Config, s: State, es: seq<Event>): seq<TableStep<Msg>>
    requires Shaped(c, s) && Possible(c, s, es)
    decreases |es|
  {
    if es == [] then [] else StepsOf(c, s, es[0]) + RunSteps(c, Next(c, s, es[0]), es[1..])
  }

  /** Only registering, completing and clearing touch the table. */
  lemma StepStates(c: Config, s: State, e: Event)
    requires Shaped(c, s) && Enabled(c, s, e)
    ensures var (t, steps) := (Next(c, s, e), StepsOf(c, s, e));
            && |steps| <= 1 && t.states == if steps == [] then s.states else TableNext(s.states, steps[0])
  {
    match e
    case Poll(p) =>
      var d := DecidePoll(c, s, p);
      assert NextPoll(c, s, p).states == Apply(c, s, d.effect).states;
    case Work(i, w) =>
      assert !DecideWork(c, s, i, w).effect.note.Registering?;
      assert NextWork(c, s, i, w).states == s.states;
    case Coordinate(k) =>
    case Rebalance(r) =>
    case Cancel =>
  }

  lemma StepTable(c: Config, s: State, e: Event, before: seq<TableStep<Msg>>)
    requires Shaped(c, s) && Enabled(c, s, e) && s.states == TableAfter(before)
    ensures Next(c, s, e).states == TableAfter(before + StepsOf(c, s, e))
  {
    var steps := StepsOf(c, s, e);
    StepStates(c, s, e);
    if steps == [] {
      assert before + steps == before;
    } else {
      assert steps == [steps[0]];
      OneMore(before, steps[0]);
    }
  }

  lemma OneMore(before: seq<TableStep<Msg>>, step: TableStep<Msg>)
    ensures TableAfter(before + [step]) == TableNext(TableAfter(before), step)
  {
    assert (before + [step])[..|before|] == before;
  }

  lemma {:induction false} RunTable(c: Config, s: State, es: seq<Event>, before: seq<TableStep<Msg>>)
    requires Shaped(c, s) && Possible(c, s, es) && s.states == TableAfter(before)
    ensures After(c, s, es).states == TableAfter(before + RunSteps(c, s, es))
    decreases |es|
  {
    if es == [] {
      assert before + [] == before;
    } else {
      var (t, steps) := (Next(c, s, es[0]), StepsOf(c, s, es[0]));
      var rest := RunSteps(c, t, es[1..]);
      assert RunSteps(c, s, es) == steps + rest && After(c, s, es) == After(c, t, es[1..]);
      assert (before + steps) + rest == before + (steps + rest);
      StepTable(c, s, es[0], before);
      RunTable(c, t, es[1..], before + steps);
    }
  }
}
