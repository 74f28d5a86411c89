/**
 The hold gate of voice activity detection: once a frame has been loud enough, the speaker counts as speaking for a
 number of further frames. Probabilities and thresholds are real numbers here.
 */
module VoiceActivity {
  import opened Common

  datatype Gate = Gate(threshold: real, holdFrames: nat, counter: nat, speaking: bool)

  datatype Event = Frame(probability: real) | SetThreshold(threshold: real) | Reset

  function New(threshold: real, holdMs: nat, frameMs: nat): Gate {
    Gate(threshold, if frameMs > 0 then holdMs / frameMs else 0, 0, false)
  }

  function Clamp(x: real): real {
    if x < 0.0 then 0.0 else if x > 1.0 then 1.0 else x
  }

  function Update(g: Gate, probability: real): Gate {
    if probability >= g.threshold then g.(speaking := true, counter := g.holdFrames)
    else if g.counter > 0 then g.(counter := g.counter - 1)
    else g.(speaking := false)
  }

  function Step(g: Gate, e: Event): Gate {
    match e
    case Frame(p) => Update(g, p)
    case SetThreshold(t) => g.(threshold := Clamp(t))
    case Reset => g.(counter := 0, speaking := false)
  }

  function Run(g: Gate, events: seq<Event>): Gate {
    if events == [] then g else Step(Run(g, events[..|events| - 1]), events[|events| - 1])
  }

  // ---------------------------------------------------------------------------
  // The window
  // ---------------------------------------------------------------------------

  /** The threshold in force after `events`: the last one set, or the one at the start. */
  function ThresholdAfter(start: real, events: seq<Event>): real {
    if events == [] then start
    else
      match events[|events| - 1]
      case SetThreshold(t) => Clamp(t)
      case _ => ThresholdAfter(start, events[..|events| - 1])
  }

  /** For each frame since the last reset, whether it reached the threshold in force at the time. */
  function Loud(start: real, events: seq<Event>): seq<bool> {
    if events == [] then []
    else
      var init := events[..|events| - 1];
      match events[|events| - 1]
      case Frame(p) => Loud(start, init) + [p >= ThresholdAfter(start, init)]
      case SetThreshold(_) => Loud(start, init)
      case Reset => []
  }

  /** One of the last `n` is true. */
  predicate AnyOfLast(flags: seq<bool>, n: nat) {
    exists i :: Max(0, |flags| - n) <= i < |flags| && flags[i]
  }

  /** While speaking, the counter says for how many more quiet frames that will last. */
  ghost predicate Holds(g: Gate, flags: seq<bool>) {
    && (g.speaking <==> AnyOfLast(flags, g.holdFrames + 1))
    && g.counter <= g.holdFrames
    && (g.speaking ==>
          var last := |flags| - 1 - (g.holdFrames - g.counter);
          0 <= last < |flags| && flags[last] && forall i :: last < i < |flags| ==> !flags[i])
    && (!g.speaking ==> g.counter == 0)
  }

  lemma {:induction false} FrameHolds(g: Gate, flags: seq<bool>, probability: real)
    requires Holds(g, flags)
    ensures Holds(Update(g, probability), flags + [probability >= g.threshold])
  {
    var loud := probability >= g.threshold;
    var after := flags + [loud];
    if loud {
      assert after[|flags|];
    } else if g.speaking && g.counter > 0 {
      var last := |flags| - 1 - (g.holdFrames - g.counter);
      assert after[last];
    }
  }

  lemma {:induction false} RunHolds(threshold: real, holdMs: nat, frameMs: nat, events: seq<Event>)
    ensures var g := New(threshold, holdMs, frameMs);
            && Run(g, events).threshold == ThresholdAfter(threshold, events)
            && Run(g, events).holdFrames == g.holdFrames
            && Holds(Run(g, events), Loud(threshold, events))
  {
    if events != [] {
      var init := events[..|events| - 1];
      RunHolds(threshold, holdMs, frameMs, init);
      match events[|events| - 1] {
        case Frame(p) => FrameHolds(Run(New(threshold, holdMs, frameMs), init), Loud(threshold, init), p);
        case _ =>
      }
    }
  }

  /**
   After any events, `speaking` is a sliding window: one of the last `holdFrames + 1` frames since the last reset
   reached the threshold in force when it came.
   */
  lemma {:induction false} SpeakingIsASlidingWindow(threshold: real, holdMs: nat, frameMs: nat, events: seq<Event>)
    ensures var hold := if frameMs > 0 then holdMs / frameMs else 0;
            Run(New(threshold, holdMs, frameMs), events).speaking <==> AnyOfLast(Loud(threshold, events), hold + 1)
  {
    RunHolds(threshold, holdMs, frameMs, events);
  }

  // ---------------------------------------------------------------------------
  // A captured frame
  // ---------------------------------------------------------------------------

  const SUB_FRAME: nat := 480

  /** What echo cancellation and noise suppression make of one sub-frame, and how likely it is speech. */
  datatype SubFrame = SubFrame(samples: seq<real>, probability: real)

  function ProbabilitySum(frames: seq<SubFrame>): real {
    if frames == [] then 0.0 else ProbabilitySum(frames[..|frames| - 1]) + frames[|frames| - 1].probability
  }

  function MeanProbability(frames: seq<SubFrame>): real {
    if frames == [] then 0.0 else ProbabilitySum(frames) / |frames| as real
  }

  /** The mean of no frames is 0, and of one frame its own probability. */
  lemma {:induction false} MeanOfOne(f: SubFrame)
    ensures MeanProbability([]) == 0.0 && MeanProbability([f]) == f.probability
  {
    assert [f][..0] == [];
    assert ProbabilitySum([f]) == ProbabilitySum([]) + f.probability;
  }

  /** In the mean of two stretches of frames, each weighs in by its length. */
  lemma {:induction false} MeanOfBoth(a: seq<SubFrame>, b: seq<SubFrame>)
    ensures MeanProbability(a + b) * |a + b| as real ==
            MeanProbability(a) * |a| as real + MeanProbability(b) * |b| as real
  {
    hide MeanProbability, ProbabilitySum;
    SumOfBoth(a, b);
    MeanTimesLength(a);
    MeanTimesLength(b);
    MeanTimesLength(a + b);
  }

  lemma {:induction false} MeanTimesLength(frames: seq<SubFrame>)
    ensures MeanProbability(frames) * |frames| as real == ProbabilitySum(frames)
  {
  }

  lemma {:induction false} SumOfBoth(a: seq<SubFrame>, b: seq<SubFrame>)
    ensures ProbabilitySum(a + b) == ProbabilitySum(a) + ProbabilitySum(b)
  {
    if b == [] {
      assert a + b == a;
    } else {
      assert (a + b)[..|a + b| - 1] == a + b[..|b| - 1];
      SumOfBoth(a, b[..|b| - 1]);
    }
  }

  class VadGate {
    var vadThreshold: real
    const vadHoldFrames: nat
    var vadHoldCounter: nat
    var isSpeaking: bool

    function View(): Gate
      reads this
    {
      Gate(vadThreshold, vadHoldFrames, vadHoldCounter, isSpeaking)
    }

    constructor (threshold: real, holdMs: nat, frameMs: nat)
      ensures View() == Gate(threshold, if frameMs > 0 then holdMs / frameMs else 0, 0, false)
    {
      vadThreshold := threshold;
      if frameMs > 0 {
        vadHoldFrames := holdMs / frameMs;
      } else {
        vadHoldFrames := 0;
      }
      vadHoldCounter := 0;
      isSpeaking := false;
    }

    method UpdateVadState(probability: real) returns (speaking: bool)
      modifies this
      ensures View() == Step(old(View()), Frame(probability))
      ensures speaking == isSpeaking
    {
      if probability >= vadThreshold {
        isSpeaking := true;
        vadHoldCounter := vadHoldFrames;
      } else if vadHoldCounter > 0 {
        vadHoldCounter := vadHoldCounter - 1;
      } else {
        isSpeaking := false;
      }
      return isSpeaking;
    }

    /**
     Sub-frame by sub-frame, given what processing makes of each; samples after the last whole sub-frame pass through.
     The gate sees the mean probability.
     */
    method ProcessCapture(input: seq<real>, processed: seq<SubFrame>) returns (output: seq<real>, speech: bool)
      requires |processed| == |input| / SUB_FRAME
      requires forall f :: f in processed ==> |f.samples| == SUB_FRAME
      modifies this
      ensures |output| == |input|
      ensures forall i, k :: 0 <= i < |processed| && 0 <= k < |processed[i].samples| ==>
                output[i * SUB_FRAME + k] == processed[i].samples[k]
      ensures output[|processed| * SUB_FRAME..] == input[|processed| * SUB_FRAME..]
      ensures View() == Step(old(View()), Frame(MeanProbability(processed)))
      ensures speech == isSpeaking
    {
      output := [];
      var sum := 0.0;
      for n := 0 to |processed|
        invariant |output| == n * SUB_FRAME && sum == ProbabilitySum(processed[..n])
        invariant forall i, k :: 0 <= i < n && 0 <= k < |processed[i].samples| ==>
                    output[i * SUB_FRAME + k] == processed[i].samples[k]
      {
        assert processed[..n + 1][..n] == processed[..n];
        assert |processed[n].samples| == SUB_FRAME;
        output := output + processed[n].samples;
        sum := sum + processed[n].probability;
      }
      assert processed[..|processed|] == processed;
      output := output + input[|processed| * SUB_FRAME..];
      var mean := if |processed| > 0 then sum / |processed| as real else 0.0;
      speech := UpdateVadState(mean);
    }

    method SetVadThreshold(threshold: real)
      modifies this
      ensures View() == Step(old(View()), SetThreshold(threshold)) == old(View()).(threshold := vadThreshold)
      ensures 0.0 <= vadThreshold <= 1.0
      ensures 0.0 <= threshold <= 1.0 ==> vadThreshold == threshold
      ensures threshold < 0.0 ==> vadThreshold == 0.0
      ensures threshold > 1.0 ==> vadThreshold == 1.0
    {
      vadThreshold := Clamp(threshold);
    }

    method Reset()
      modifies this
      ensures View() == Step(old(View()), Event.Reset) == old(View()).(counter := 0, speaking := false)
    {
      vadHoldCounter := 0;
      isSpeaking := false;
    }
  }
}
