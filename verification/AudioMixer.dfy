/**
 Mixing the voices of a call: each output sample is the sum of the streams' samples, each at its participant's volume,
 kept between -1 and 1. Samples and volumes are real numbers here.
 */
module AudioMixer {
  datatype Stream = Stream(participant: string, samples: seq<real>)

  function Clamp(x: real, low: real, high: real): real {
    if x < low then low else if x > high then high else x
  }

  function Distance(x: real, y: real): real {
    if x < y then y - x else x - y
  }

  function VolumeOf(volumes: map<string, real>, participant: string): real {
    if participant in volumes then volumes[participant] else 1.0
  }

  /** What a stream adds to sample `i`; nothing once it has ended. */
  function Share(volumes: map<string, real>, s: Stream, i: nat): real {
    if i < |s.samples| then s.samples[i] * VolumeOf(volumes, s.participant) else 0.0
  }

  function Sum(volumes: map<string, real>, streams: seq<Stream>, i: nat): real {
    if streams == [] then 0.0
    else Sum(volumes, streams[..|streams| - 1], i) + Share(volumes, streams[|streams| - 1], i)
  }

  ghost predicate IsMixOf(output: seq<real>, volumes: map<string, real>, streams: seq<Stream>) {
    && (forall s :: s in streams ==> |s.samples| <= |output|)
    && (output != [] ==> exists s :: s in streams && |s.samples| == |output|)
    && (forall i :: 0 <= i < |output| ==> output[i] == Clamp(Sum(volumes, streams, i), -1.0, 1.0))
  }

  // ---------------------------------------------------------------------------
  // Order of the streams
  // ---------------------------------------------------------------------------

  lemma {:induction false} SumWithout(volumes: map<string, real>, streams: seq<Stream>, j: nat, i: nat)
    requires j < |streams|
    ensures Sum(volumes, streams, i) ==
            Sum(volumes, streams[..j] + streams[j + 1..], i) + Share(volumes, streams[j], i)
  {
    var init, last := streams[..|streams| - 1], streams[|streams| - 1];
    var without := streams[..j] + streams[j + 1..];
    if j == |streams| - 1 {
      assert without == init;
    } else {
      SumWithout(volumes, init, j, i);
      assert without[..|without| - 1] == init[..j] + init[j + 1..];
    }
  }

  lemma {:induction false} Without(streams: seq<Stream>, j: nat)
    requires j < |streams|
    ensures multiset(streams[..j] + streams[j + 1..]) == multiset(streams) - multiset{streams[j]}
  {
    assert streams == streams[..j] + [streams[j]] + streams[j + 1..];
  }

  lemma {:induction false} SumOfShuffled(volumes: map<string, real>, a: seq<Stream>, b: seq<Stream>, i: nat)
    requires multiset(a) == multiset(b)
    ensures Sum(volumes, a, i) == Sum(volumes, b, i)
  {
    hide Share;
    if a != [] {
      var j := Position(b, a);
      SumOfShuffled(volumes, a[..|a| - 1], b[..j] + b[j + 1..], i);
      SumWithout(volumes, b, j, i);
    }
  }

  /** Where the last stream of `a` stands in `b`, another order of the same streams. */
  lemma {:induction false} Position(b: seq<Stream>, a: seq<Stream>) returns (j: nat)
    requires a != [] && multiset(a) == multiset(b)
    ensures j < |b| && b[j] == a[|a| - 1]
    ensures multiset(a[..|a| - 1]) == multiset(b[..j] + b[j + 1..])
  {
    assert a == a[..|a| - 1] + [a[|a| - 1]];
    assert a[|a| - 1] in multiset(b);
    j :| 0 <= j < |b| && b[j] == a[|a| - 1];
    Without(b, j);
    assert multiset(a[..|a| - 1]) == multiset(a) - multiset{a[|a| - 1]};
  }

  /** The sum before clamping: silence without streams, and each stream adds its sample at its volume while it lasts. */
  lemma {:induction false} SumIs(volumes: map<string, real>, streams: seq<Stream>, s: Stream, i: nat)
    ensures Sum(volumes, [], i) == 0.0
    ensures Sum(volumes, streams + [s], i) ==
            Sum(volumes, streams, i) +
            if i >= |s.samples| then 0.0
            else if s.participant in volumes then s.samples[i] * volumes[s.participant]
            else s.samples[i]
  {
    assert (streams + [s])[..|streams|] == streams;
  }

  /** Each sample of a mix is the value between -1 and 1 that is nearest to the sum. */
  lemma {:induction false} MixIsNearest(output: seq<real>, volumes: map<string, real>, streams: seq<Stream>, i: nat,
                                        x: real)
    requires IsMixOf(output, volumes, streams) && i < |output| && -1.0 <= x <= 1.0
    ensures -1.0 <= output[i] <= 1.0
    ensures Distance(output[i], Sum(volumes, streams, i)) <= Distance(x, Sum(volumes, streams, i))
  {
  }

  /** The mix does not depend on the order in which the streams come. */
  lemma {:induction false} OrderDoesNotMatter(volumes: map<string, real>, a: seq<Stream>, b: seq<Stream>,
                                              x: seq<real>, y: seq<real>)
    requires multiset(a) == multiset(b) && IsMixOf(x, volumes, a) && IsMixOf(y, volumes, b)
    ensures x == y
  {
    forall s ensures s in a <==> s in b {
      assert s in a <==> s in multiset(a);
      assert s in b <==> s in multiset(b);
    }
    assert |x| == |y|;
    forall i | 0 <= i < |x| ensures x[i] == y[i] { SumOfShuffled(volumes, a, b, i); }
  }

  class Mixer {
    var volumes: map<string, real>

    constructor ()
      ensures volumes == map[]
    {
      volumes := map[];
    }

    method Mix(streams: seq<Stream>) returns (output: array<real>)
      ensures fresh(output) && IsMixOf(output[..], volumes, streams)
    {
      var maxLen := LongestOf(streams);
      output := new real[maxLen](_ => 0.0);
      for n := 0 to |streams|
        invariant forall i :: 0 <= i < maxLen ==> output[i] == Sum(volumes, streams[..n], i)
      {
        assert streams[..n + 1][..n] == streams[..n];
        Accumulate(streams[n], output);
      }
      assert streams[..|streams|] == streams;
      for n := 0 to maxLen
        invariant forall i :: 0 <= i < n ==> output[i] == Clamp(Sum(volumes, streams, i), -1.0, 1.0)
        invariant forall i :: n <= i < maxLen ==> output[i] == Sum(volumes, streams, i)
      {
        output[n] := Clamp(output[n], -1.0, 1.0);
      }
    }

    /** The inner loop: one stream added to the buffer. */
    method Accumulate(s: Stream, output: array<real>)
      requires |s.samples| <= output.Length
      modifies output
      ensures forall i :: 0 <= i < output.Length ==> output[i] == old(output[i]) + Share(volumes, s, i)
    {
      var volume := VolumeOf(volumes, s.participant);
      for n := 0 to |s.samples|
        invariant forall i :: 0 <= i < n ==> output[i] == old(output[i]) + s.samples[i] * volume
        invariant forall i :: n <= i < output.Length ==> output[i] == old(output[i])
      {
        output[n] := output[n] + s.samples[n] * volume;
      }
    }

    /** A volume within the range is taken as it is, any other is brought to its nearer end. */
    method SetVolume(participant: string, volume: real)
      modifies this
      ensures 0.0 <= VolumeOf(volumes, participant) <= 2.0
      ensures 0.0 <= volume <= 2.0 ==> VolumeOf(volumes, participant) == volume
      ensures forall x: real :: 0.0 <= x <= 2.0 ==>
                Distance(VolumeOf(volumes, participant), volume) <= Distance(x, volume)
      ensures forall p :: p != participant ==> VolumeOf(volumes, p) == old(VolumeOf(volumes, p))
      ensures volumes.Keys == old(volumes.Keys) + {participant}
    {
      volumes := volumes[participant := Clamp(volume, 0.0, 2.0)];
    }

    /** A participant that was removed plays at full volume again. */
    method RemoveParticipant(participant: string)
      modifies this
      ensures forall p :: VolumeOf(volumes, p) == if p == participant then 1.0 else old(VolumeOf(volumes, p))
      ensures volumes == old(volumes) - {participant}
    {
      volumes := volumes - {participant};
    }
  }

  method LongestOf(streams: seq<Stream>) returns (n: nat)
    ensures forall s :: s in streams ==> |s.samples| <= n
    ensures n > 0 ==> exists s :: s in streams && |s.samples| == n
  {
    n := 0;
    for k := 0 to |streams|
      invariant forall s :: s in streams[..k] ==> |s.samples| <= n
      invariant n > 0 ==> exists s :: s in streams && |s.samples| == n
    {
      if |streams[k].samples| > n {
        assert streams[k] in streams;
        n := |streams[k].samples|;
      }
      assert streams[..k + 1] == streams[..k] + [streams[k]];
    }
    assert streams[..|streams|] == streams;
  }
}
