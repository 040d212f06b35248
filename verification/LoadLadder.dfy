/** The load ladder's two clocks: the load script searches a cumulative schedule for the step of an instant,
    the observer's summary divides. Both read one list of counts, but the load script drops every count that is
    not above zero before it builds its schedule. Durations are milliseconds as reals. */
module LoadLadder {
  /** What `Number` makes of one piece of the list. */
  datatype Number = NaN | Num(value: real)

  /** A count as it is printed, the ramp-down, or (observer only) an instant before the start. */
  datatype Label = Before | Down | Count(count: Number)

  datatype Stage = Stage(duration: real, target: Number)

  datatype Segment = Segment(start: real, end: real, name: Label)

  /** The list as parsed, the step durations both sides are given, and the load script's other settings. */
  datatype Config = Config(
    entries: seq<Number>, stepRamp: real, stepHold: real,
    vus: Number, rampUp: real, hold: real,
    rampDown: real)

  predicate Timed(c: Config) {
    c.stepRamp >= 0.0 && c.stepHold >= 0.0 && c.rampUp >= 0.0 && c.hold >= 0.0 && c.rampDown >= 0.0
  }

  predicate Positive(n: Number) {
    n.Num? && n.value > 0.0
  }

  // ----- the load script -----

  /** The filter of the load script's list. */
  function Kept(entries: seq<Number>): (kept: seq<Number>)
    ensures |kept| <= |entries|
    ensures forall i :: 0 <= i < |kept| ==> Positive(kept[i])
  {
    if entries == [] then []
    else (if Positive(entries[0]) then [entries[0]] else []) + Kept(entries[1..])
  }

  /** It keeps every count above zero as often as it was given, and no other. */
  lemma {:induction false} KeptIsAllPositive(entries: seq<Number>, n: Number)
    ensures multiset(Kept(entries))[n] == if n.Num? && n.value > 0.0 then multiset(entries)[n] else 0
  {
    if entries != [] {
      KeptIsAllPositive(entries[1..], n);
      assert entries == [entries[0]] + entries[1..];
    }
  }

  function Steps(ladder: seq<Number>, ramp: real, hold: real): seq<Stage> {
    if ladder == [] then []
    else [Stage(ramp, ladder[0]), Stage(hold, ladder[0])] + Steps(ladder[1..], ramp, hold)
  }

  /** The ladder of the kept counts, or one plateau of `vus` users when none is kept. */
  function BuildStages(c: Config): seq<Stage> {
    var ladder := Kept(c.entries);
    if ladder == [] then [Stage(c.rampUp, c.vus), Stage(c.hold, c.vus), Stage(c.rampDown, Num(0.0))]
    else Steps(ladder, c.stepRamp, c.stepHold) + [Stage(c.rampDown, Num(0.0))]
  }

  function LabelOf(target: Number): Label {
    if target == Num(0.0) then Down else Count(target)
  }

  /** The reduction: each segment starts where the last one of the accumulator ends. */
  function Schedule(stages: seq<Stage>): seq<Segment> {
    if stages == [] then []
    else
      var acc, stage := Schedule(stages[..|stages| - 1]), stages[|stages| - 1];
      var start := if acc == [] then 0.0 else acc[|acc| - 1].end;
      acc + [Segment(start, start + stage.duration, LabelOf(stage.target))]
  }

  /** The first segment still running, else the ramp-down. */
  function Find(schedule: seq<Segment>, elapsed: real): Label {
    if schedule == [] then Down
    else if elapsed < schedule[0].end then schedule[0].name
    else Find(schedule[1..], elapsed)
  }

  function StageLabel(c: Config, elapsed: real): Label {
    Find(Schedule(BuildStages(c)), elapsed)
  }

  // ----- the observer's summary -----

  /** A zero step makes the quotient infinite or not a number; neither is below the ladder's length. */
  function StageOf(ladder: seq<Number>, ramp: real, hold: real, elapsed: real): Label {
    if elapsed < 0.0 then Before
    else if ramp + hold == 0.0 then Down
    else
      var index := (elapsed / (ramp + hold)).Floor;
      if 0 <= index < |ladder| then Count(ladder[index]) else Down
  }

  // ----- the two agree -----

  /** The schedule laid out from a given start. */
  function ScheduleFrom(stages: seq<Stage>, start: real): seq<Segment> {
    if stages == [] then []
    else
      var end := start + stages[0].duration;
      [Segment(start, end, LabelOf(stages[0].target))] + ScheduleFrom(stages[1..], end)
  }

  function Total(stages: seq<Stage>): real {
    if stages == [] then 0.0 else stages[0].duration + Total(stages[1..])
  }

  lemma {:induction false} ScheduleFromEnds(stages: seq<Stage>, start: real)
    requires stages != []
    ensures var segments := ScheduleFrom(stages, start);
      segments != [] && segments[|segments| - 1].end == start + Total(stages)
  {
    if |stages| > 1 {
      ScheduleFromEnds(stages[1..], start + stages[0].duration);
    }
  }

  lemma {:induction false} ScheduleFromGrows(stages: seq<Stage>, last: Stage, start: real)
    ensures var end := start + Total(stages);
      ScheduleFrom(stages + [last], start)
      == ScheduleFrom(stages, start) + [Segment(end, end + last.duration, LabelOf(last.target))]
  {
    if stages == [] {
      assert stages + [last] == [last];
    } else {
      assert (stages + [last])[1..] == stages[1..] + [last];
      ScheduleFromGrows(stages[1..], last, start + stages[0].duration);
    }
  }

  /** The reduction lays the stages out end to end from zero. */
  lemma {:induction false} ScheduleIsCumulative(stages: seq<Stage>)
    ensures Schedule(stages) == ScheduleFrom(stages, 0.0)
  {
    if stages != [] {
      var front, last := stages[..|stages| - 1], stages[|stages| - 1];
      ScheduleIsCumulative(front);
      ScheduleFromGrows(front, last, 0.0);
      assert stages == front + [last];
      if front != [] {
        ScheduleFromEnds(front, 0.0);
      }
    }
  }

  lemma SignOfProduct(d: real, step: real)
    requires step > 0.0
    ensures d > 0.0 ==> d * step > 0.0
    ensures d < 0.0 ==> d * step < 0.0
  {
  }

  lemma Cancel(a: real, b: real, step: real)
    requires step > 0.0 && a * step == b * step
    ensures a == b
  {
    SignOfProduct(a - b, step);
    assert (a - b) * step == a * step - b * step;
  }

  /** Past the first step the quotient is one more than that of the instant one step earlier. */
  lemma OneStepLater(elapsed: real, step: real)
    requires step > 0.0
    ensures 0.0 <= elapsed < step ==> (elapsed / step).Floor == 0
    ensures (elapsed / step).Floor == ((elapsed - step) / step).Floor + 1
    ensures elapsed >= 0.0 ==> (elapsed / step).Floor >= 0
  {
    var now, earlier := elapsed / step, (elapsed - step) / step;
    assert now * step == elapsed && earlier * step == elapsed - step;
    assert (earlier + 1.0) * step == earlier * step + step;
    Cancel(now, earlier + 1.0, step);
    if elapsed >= 0.0 {
      assert now >= 0.0;
    }
    if elapsed < step {
      assert now < 1.0;
    }
  }

  lemma StageOfLater(ladder: seq<Number>, ramp: real, hold: real, elapsed: real)
    requires ramp >= 0.0 && hold >= 0.0 && elapsed >= 0.0 && ladder != []
    ensures elapsed < ramp + hold ==> StageOf(ladder, ramp, hold, elapsed) == Count(ladder[0])
    ensures var step := ramp + hold;
      elapsed >= step ==> StageOf(ladder, ramp, hold, elapsed) == StageOf(ladder[1..], ramp, hold, elapsed - step)
  {
    var step := ramp + hold;
    if step > 0.0 {
      OneStepLater(elapsed, step);
      if elapsed >= step {
        OneStepLater(elapsed - step, step);
      }
    }
  }

  /** On one and the same ladder, the search from `start` finds the step the division names, up to the label of a
      zero target. */
  lemma {:induction false} FindDivides(ladder: seq<Number>, ramp: real, hold: real, down: real, start: real,
                                       elapsed: real)
    requires ramp >= 0.0 && hold >= 0.0 && elapsed >= start
    ensures var step := StageOf(ladder, ramp, hold, elapsed - start);
      Find(ScheduleFrom(Steps(ladder, ramp, hold) + [Stage(down, Num(0.0))], start), elapsed)
      == if step.Count? then LabelOf(step.count) else Down
    decreases |ladder|
  {
    var step, last := ramp + hold, [Stage(down, Num(0.0))];
    if ladder == [] {
      assert Steps(ladder, ramp, hold) + last == last;
    } else {
      var rest := Steps(ladder[1..], ramp, hold) + last;
      assert Steps(ladder, ramp, hold) + last == [Stage(ramp, ladder[0])] + ([Stage(hold, ladder[0])] + rest);
      assert ([Stage(hold, ladder[0])] + rest)[1..] == rest;
      StageOfLater(ladder, ramp, hold, elapsed - start);
      if elapsed >= start + step {
        FindDivides(ladder[1..], ramp, hold, down, start + ramp + hold, elapsed);
        assert elapsed - (start + ramp + hold) == elapsed - start - step;
      }
    }
  }

  lemma {:induction false} NeverBefore(stages: seq<Stage>, start: real, elapsed: real)
    ensures Find(ScheduleFrom(stages, start), elapsed) != Before
  {
    if stages != [] {
      NeverBefore(stages[1..], start + stages[0].duration, elapsed);
    }
  }

  // ----- when the two agree -----

  /** The step an instant falls into, counted from the start. */
  function StepAt(c: Config, elapsed: real): int
    requires c.stepRamp + c.stepHold != 0.0
  {
    (elapsed / (c.stepRamp + c.stepHold)).Floor
  }

  /** Neither list has a step left, or both have one and it is the same count. */
  predicate SameEntry(entries: seq<Number>, i: int) {
    var kept := Kept(entries);
    0 <= i < |entries| ==> i < |kept| && kept[i] == entries[i]
  }

  ghost predicate Agree(c: Config, elapsed: real) {
    StageLabel(c, elapsed) == StageOf(c.entries, c.stepRamp, c.stepHold, elapsed)
  }

  /** When a ladder is run, the two agree at an instant exactly when the run has started and the counts the load
      script kept have, at the step of that instant, the count the whole list has there. */
  lemma SameStep(c: Config, elapsed: real)
    requires Timed(c) && Kept(c.entries) != []
    ensures Agree(c, elapsed)
      <==> elapsed >= 0.0 && (c.stepRamp + c.stepHold == 0.0 || SameEntry(c.entries, StepAt(c, elapsed)))
  {
    ScheduleIsCumulative(BuildStages(c));
    if elapsed >= 0.0 {
      FindDivides(Kept(c.entries), c.stepRamp, c.stepHold, c.rampDown, 0.0, elapsed);
      if c.stepRamp + c.stepHold > 0.0 {
        OneStepLater(elapsed, c.stepRamp + c.stepHold);
      }
    } else {
      NeverBefore(BuildStages(c), 0.0, elapsed);
    }
  }

  /** When no count is kept the load script holds one plateau, which the observer takes for steps of the list. */
  lemma PlateauStep(c: Config, elapsed: real)
    requires Timed(c) && Kept(c.entries) == [] && elapsed >= 0.0
    ensures StageLabel(c, elapsed) == if elapsed < c.rampUp + c.hold then LabelOf(c.vus) else Down
  {
    var stages, down := BuildStages(c), Stage(c.rampDown, Num(0.0));
    ScheduleIsCumulative(stages);
    assert stages[1..] == [Stage(c.hold, c.vus), down] && stages[1..][1..] == [down];
    assert Find(ScheduleFrom([down], c.rampUp + c.hold), elapsed) == Down;
    assert Find(ScheduleFrom(stages[1..], c.rampUp), elapsed)
      == if elapsed < c.rampUp + c.hold then LabelOf(c.vus) else Down;
  }

  /** The quotient at the very start of a step is the step's index. */
  lemma StepStarts(i: nat, step: real)
    requires step > 0.0
    ensures i as real * step >= 0.0 && (i as real * step / step).Floor == i
  {
    Cancel(i as real * step / step, i as real, step);
  }

  lemma {:induction false} AllPositiveAllKept(entries: seq<Number>)
    requires forall i :: 0 <= i < |entries| ==> Positive(entries[i])
    ensures Kept(entries) == entries
  {
    if entries != [] {
      assert Positive(entries[0]);
      AllPositiveAllKept(entries[1..]);
      assert entries == [entries[0]] + entries[1..];
    }
  }

  /** A run is safe when every step agrees: exactly when nothing was dropped. */
  lemma SameEntries(entries: seq<Number>)
    ensures (forall i | 0 <= i < |entries| :: SameEntry(entries, i))
      <==> forall i | 0 <= i < |entries| :: Positive(entries[i])
  {
    if forall i | 0 <= i < |entries| :: Positive(entries[i]) {
      AllPositiveAllKept(entries);
    } else {
      var i :| 0 <= i < |entries| && !Positive(entries[i]);
      assert !SameEntry(entries, i);
    }
  }

  /** Over a whole run of a ladder the two agree exactly when every count of the list is above zero, or the steps
      take no time. */
  lemma SameStepThroughout(c: Config)
    requires Timed(c) && Kept(c.entries) != []
    ensures (forall elapsed :: elapsed >= 0.0 ==> Agree(c, elapsed))
      <==> c.stepRamp + c.stepHold == 0.0 || forall i | 0 <= i < |c.entries| :: Positive(c.entries[i])
  {
    SameEntries(c.entries);
    var step := c.stepRamp + c.stepHold;
    if step == 0.0 || forall i | 0 <= i < |c.entries| :: Positive(c.entries[i]) {
      forall elapsed | elapsed >= 0.0
        ensures Agree(c, elapsed)
      {
        SameStep(c, elapsed);
      }
    } else {
      var i :| 0 <= i < |c.entries| && !SameEntry(c.entries, i);
      StepStarts(i, step);
      SameStep(c, i as real * step);
      assert !Agree(c, i as real * step);
    }
  }

  /** Over a whole run of a plateau, of a number of users the load tool accepts, the two agree exactly when neither
      side has anything to label but the ramp-down. */
  lemma PlateauThroughout(c: Config)
    requires Timed(c) && Kept(c.entries) == [] && c.entries != [] && c.vus.Num? && c.vus.value >= 0.0
    ensures (forall elapsed :: elapsed >= 0.0 ==> Agree(c, elapsed))
      <==> c.stepRamp + c.stepHold == 0.0 && (c.vus == Num(0.0) || c.rampUp + c.hold == 0.0)
  {
    forall elapsed | elapsed >= 0.0
      ensures StageLabel(c, elapsed) == if elapsed < c.rampUp + c.hold then LabelOf(c.vus) else Down
    {
      PlateauStep(c, elapsed);
    }
    assert c.stepRamp + c.stepHold > 0.0 ==> StageOf(c.entries, c.stepRamp, c.stepHold, 0.0) == Count(c.entries[0]);
    FirstIsDropped(c.entries);
    if c.stepRamp + c.stepHold > 0.0 || (c.vus != Num(0.0) && c.rampUp + c.hold > 0.0) {
      assert !Agree(c, 0.0);
    }
  }

  lemma {:induction false} FirstIsDropped(entries: seq<Number>)
    requires Kept(entries) == [] && entries != []
    ensures !Positive(entries[0])
  {
  }

  lemma EntryAt(ladder: seq<Number>, ramp: real, hold: real, elapsed: real, i: nat)
    requires ramp >= 0.0 && hold >= 0.0 && ramp + hold > 0.0 && elapsed >= 0.0
    requires (elapsed / (ramp + hold)).Floor == i
    ensures StageOf(ladder, ramp, hold, elapsed) == if i < |ladder| then Count(ladder[i]) else Down
  {
  }

  lemma LabelsAt(c: Config, elapsed: real, i: nat)
    requires Timed(c) && c.stepRamp + c.stepHold > 0.0 && Kept(c.entries) != []
    requires elapsed >= 0.0 && StepAt(c, elapsed) == i
    ensures StageLabel(c, elapsed) == if i < |Kept(c.entries)| then Count(Kept(c.entries)[i]) else Down
    ensures StageOf(c.entries, c.stepRamp, c.stepHold, elapsed) == if i < |c.entries| then Count(c.entries[i]) else Down
  {
    ScheduleIsCumulative(BuildStages(c));
    EntryAt(c.entries, c.stepRamp, c.stepHold, elapsed, i);
    EntryAt(Kept(c.entries), c.stepRamp, c.stepHold, elapsed, i);
    FindDivides(Kept(c.entries), c.stepRamp, c.stepHold, c.rampDown, 0.0, elapsed);
  }

  lemma KeptOfExample()
    ensures Kept([Num(50.0), Num(0.0), Num(100.0)]) == [Num(50.0), Num(100.0)]
  {
    assert [Num(50.0), Num(0.0), Num(100.0)][1..] == [Num(0.0), Num(100.0)];
    assert [Num(0.0), Num(100.0)][1..] == [Num(100.0)];
    assert Kept([Num(100.0)]) == [Num(100.0)];
  }

  /** "50,0,100": in its second step the load script already runs 100 users and in its third it ramps down, while
      the observer prints 0 and then 100. */
  lemma DroppedZero(c: Config) returns (second: real, third: real)
    requires Timed(c) && c.stepRamp + c.stepHold > 0.0 && c.entries == [Num(50.0), Num(0.0), Num(100.0)]
    ensures second >= 0.0 && StepAt(c, second) == 1 && third >= 0.0 && StepAt(c, third) == 2
    ensures StageLabel(c, second) == Count(Num(100.0))
    ensures StageOf(c.entries, c.stepRamp, c.stepHold, second) == Count(Num(0.0))
    ensures StageLabel(c, third) == Down
    ensures StageOf(c.entries, c.stepRamp, c.stepHold, third) == Count(Num(100.0))
  {
    var step := c.stepRamp + c.stepHold;
    second, third := 1 as real * step, 2 as real * step;
    KeptOfExample();
    StepStarts(1, step);
    LabelsAt(c, second, 1);
    StepStarts(2, step);
    LabelsAt(c, third, 2);
  }
}
