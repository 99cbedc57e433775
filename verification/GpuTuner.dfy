/**
 * The await-time tuner of the GPU demonstration: four rounds of recording, then tuning.
 *
 * Recording takes the averages of the synchronisation and of the whole round as the time to await
 * and as the base. Tuning raises the time while synchronising takes long against the base, lowers it
 * when it hardly takes any, and otherwise scores the round: a better score keeps the time as the
 * best, a worse one goes back to the best and a little beyond.
 */
module GpuTuner {

  const RECORD_ROUNDS := 4
  const DELTA := 10
  const WORST := -100000

  datatype Tuner = Tuner(record: nat, awaitTime: int, base: int, bestAwait: int, bestScore: int)

  // One round's measurements: how long the synchronisation took, and everything; and rand().
  datatype Round = Round(sync: int, all: int, random: int)

  predicate Measured(r: Round) {
    0 <= r.sync <= r.all && r.random >= 0
  }

  function Initial(): Tuner {
    Tuner(0, 0, 0, 0, WORST)
  }

  // The larger the better.
  function Eval(base: int, cur: int, sync: int): int {
    (base - cur) - sync
  }

  // A right shift of a long rounds down, as division by a positive number does here.
  predicate Raises(t: Tuner, r: Round) {
    r.sync > t.base / 16 && t.awaitTime + r.sync / 2 < t.base
  }

  predicate Scores(t: Tuner, r: Round) {
    t.record >= RECORD_ROUNDS && !Raises(t, r) && r.sync >= 20
  }

  predicate Improves(t: Tuner, r: Round) {
    Scores(t, r) && Eval(t.base, r.all, r.sync) > t.bestScore
  }

  function Step(t: Tuner, r: Round): Tuner {
    var next := t.(record := t.record + 1);
    if t.record < RECORD_ROUNDS then
      if t.record == RECORD_ROUNDS - 1
      then next.(awaitTime := (t.awaitTime + r.sync) / 4, base := (t.base + r.all) / 4)
      else next.(awaitTime := t.awaitTime + r.sync, base := t.base + r.all)
    else if Raises(t, r) then next.(awaitTime := t.awaitTime + r.sync / 2)
    else if r.sync < 20 then next.(awaitTime := t.awaitTime - t.awaitTime / 8)
    else
      var score := Eval(t.base, r.all, r.sync);
      if score > t.bestScore then
        next.(bestAwait := t.awaitTime, bestScore := score,
              awaitTime := if r.sync > t.base / 256 then t.awaitTime + r.random % DELTA else t.awaitTime)
      else next.(awaitTime := t.bestAwait + r.random % DELTA)
  }

  function Run(rounds: seq<Round>): Tuner {
    if rounds == [] then Initial() else Step(Run(rounds[..|rounds| - 1]), rounds[|rounds| - 1])
  }

  class IntraGpuNode {
    var gpuRecord: nat
    var gpuAwaitTimeUs: int
    var gpuBaseLatencyUs: int
    var gpuBestAwaitTimeUs: int
    var gpuBestEvalNum: int

    function State(): Tuner
      reads this
    {
      Tuner(gpuRecord, gpuAwaitTimeUs, gpuBaseLatencyUs, gpuBestAwaitTimeUs, gpuBestEvalNum)
    }

    constructor ()
      ensures State() == Initial()
    {
      gpuRecord, gpuAwaitTimeUs, gpuBaseLatencyUs, gpuBestAwaitTimeUs, gpuBestEvalNum := 0, 0, 0, 0, -100000;
    }

    // What co_callback makes of one round's measurements.
    method CoCallback(r: Round)
      modifies this
      ensures State() == Step(old(State()), r)
    {
      var durationUs, allDurationUs := r.sync, r.all;
      if gpuRecord < 4 {
        if gpuRecord == 3 {
          gpuAwaitTimeUs := (gpuAwaitTimeUs + durationUs) / 4;
          gpuBaseLatencyUs := (gpuBaseLatencyUs + allDurationUs) / 4;
        } else {
          gpuAwaitTimeUs := gpuAwaitTimeUs + durationUs;
          gpuBaseLatencyUs := gpuBaseLatencyUs + allDurationUs;
        }
      } else {
        var delta := 10;
        if durationUs > gpuBaseLatencyUs / 16 && gpuAwaitTimeUs + durationUs / 2 < gpuBaseLatencyUs {
          gpuAwaitTimeUs := gpuAwaitTimeUs + durationUs / 2;
        } else if durationUs < 20 {
          gpuAwaitTimeUs := gpuAwaitTimeUs - gpuAwaitTimeUs / 8;
        } else if Eval(gpuBaseLatencyUs, allDurationUs, durationUs) > gpuBestEvalNum {
          gpuBestAwaitTimeUs := gpuAwaitTimeUs;
          gpuBestEvalNum := Eval(gpuBaseLatencyUs, allDurationUs, durationUs);
          if durationUs > gpuBaseLatencyUs / 256 { gpuAwaitTimeUs := gpuAwaitTimeUs + r.random % delta; }
        } else {
          gpuAwaitTimeUs := gpuBestAwaitTimeUs + r.random % delta;
        }
      }
      gpuRecord := gpuRecord + 1;
    }
  }

  // ---- what every run of measurements keeps ----

  // The scores of the rounds that came to be scored.
  function ScoresSeen(rounds: seq<Round>): seq<int> {
    if rounds == [] then []
    else
      var before, r := rounds[..|rounds| - 1], rounds[|rounds| - 1];
      var t := Run(before);
      ScoresSeen(before) + if Scores(t, r) then [Eval(t.base, r.all, r.sync)] else []
  }

  function Improvements(rounds: seq<Round>): nat {
    if rounds == [] then 0
    else
      var before := rounds[..|rounds| - 1];
      Improvements(before) + if Improves(Run(before), rounds[|rounds| - 1]) then 1 else 0
  }

  function Max(scores: seq<int>): (m: int)
    ensures m >= WORST && (m == WORST || m in scores)
    ensures forall x :: x in scores ==> x <= m
  {
    if scores == [] then WORST
    else
      var last, m := scores[|scores| - 1], Max(scores[..|scores| - 1]);
      assert scores == scores[..|scores| - 1] + [last];
      if last > m then last else m
  }

  ghost predicate AllMeasured(rounds: seq<Round>) {
    forall k :: 0 <= k < |rounds| ==> Measured(rounds[k])
  }

  lemma Before(rounds: seq<Round>)
    requires AllMeasured(rounds) && rounds != []
    ensures AllMeasured(rounds[..|rounds| - 1]) && Measured(rounds[|rounds| - 1])
  {
  }

  // The time to await is never negative and is at most the base latency when tuning begins.
  lemma {:induction false} RecordingBounds(rounds: seq<Round>)
    requires AllMeasured(rounds)
    ensures Run(rounds).record == |rounds| && 0 <= Run(rounds).awaitTime && 0 <= Run(rounds).bestAwait
    ensures |rounds| <= RECORD_ROUNDS ==> Run(rounds).awaitTime <= Run(rounds).base && Run(rounds).bestScore == WORST
                                          && Run(rounds).bestAwait == 0
    ensures 0 <= Run(rounds).base
  {
    if rounds != [] {
      Before(rounds);
      RecordingBounds(rounds[..|rounds| - 1]);
      StepKeepsRecording(Run(rounds[..|rounds| - 1]), rounds[|rounds| - 1]);
    }
  }

  lemma StepKeepsRecording(t: Tuner, r: Round)
    requires Measured(r) && 0 <= t.awaitTime && 0 <= t.bestAwait && 0 <= t.base
    ensures var u := Step(t, r);
      && u.record == t.record + 1 && 0 <= u.awaitTime && 0 <= u.bestAwait && 0 <= u.base
      && (t.record < RECORD_ROUNDS && t.awaitTime <= t.base ==> u.awaitTime <= u.base)
      && (t.record < RECORD_ROUNDS ==> u.bestScore == t.bestScore && u.bestAwait == t.bestAwait)
  {
  }

  // The best score is the highest one seen, or the initial -100000.
  lemma {:induction false} BestIsTheMaximum(rounds: seq<Round>)
    ensures Run(rounds).bestScore == Max(ScoresSeen(rounds))
  {
    if rounds != [] {
      var before, r := rounds[..|rounds| - 1], rounds[|rounds| - 1];
      BestIsTheMaximum(before);
      var seen, t := ScoresSeen(before), Run(before);
      if Scores(t, r) {
        var more := seen + [Eval(t.base, r.all, r.sync)];
        assert more[..|more| - 1] == seen;
      } else {
        assert seen + [] == seen;
      }
    }
  }

  // What tuning adds to the base latency is bounded by the number of improvements.
  predicate Bounded(t: Tuner, improvements: nat) {
    && t.awaitTime <= t.base + 9 * (improvements + 1)
    && t.bestAwait <= t.base + 9 * improvements
    && WORST + improvements <= t.bestScore
    && (improvements > 0 ==> t.bestScore <= t.base)
  }

  lemma {:induction false} RunIsBounded(rounds: seq<Round>)
    requires AllMeasured(rounds)
    ensures Bounded(Run(rounds), Improvements(rounds))
    ensures |rounds| <= RECORD_ROUNDS ==> Improvements(rounds) == 0
  {
    if rounds != [] {
      var before := rounds[..|rounds| - 1];
      Before(rounds);
      RunIsBounded(before);
      RecordingBounds(before);
      RecordingBounds(rounds);
    }
  }

  // However long the tuner runs, it improves at most base + 100000 times, and each round awaits at
  // most the base latency and nine microseconds for every improvement, and nine more.
  lemma AwaitIsBounded(rounds: seq<Round>)
    requires AllMeasured(rounds)
    ensures Improvements(rounds) <= Run(rounds).base + 100000
    ensures 0 <= Run(rounds).awaitTime <= Run(rounds).base + 9 * (Improvements(rounds) + 1)
    ensures Run(rounds).awaitTime <= Run(rounds).base + 9 * (Run(rounds).base + 100001)
  {
    RunIsBounded(rounds);
    RecordingBounds(rounds);
  }

  // ---- a stretch of rounds that all raise the time ----

  function After(t: Tuner, rounds: seq<Round>): Tuner
    decreases |rounds|
  {
    if rounds == [] then t else After(Step(t, rounds[0]), rounds[1..])
  }

  ghost predicate AllRaise(t: Tuner, rounds: seq<Round>)
    decreases |rounds|
  {
    rounds != [] ==> Raises(t, rounds[0]) && AllRaise(Step(t, rounds[0]), rounds[1..])
  }

  // Once tuning has a base latency of 16 or more, the time cannot be raised round after round for
  // ever: every raise is by at least one and stays below the base latency.
  lemma {:induction false} RaisingEnds(t: Tuner, rounds: seq<Round>)
    requires t.record >= RECORD_ROUNDS && t.base >= 16 && AllRaise(t, rounds)
    ensures rounds != [] ==> t.awaitTime + |rounds| <= After(t, rounds).awaitTime < t.base
    decreases |rounds|
  {
    if rounds != [] {
      assert rounds[0].sync >= 2;
      RaisingEnds(Step(t, rounds[0]), rounds[1..]);
    }
  }
}
