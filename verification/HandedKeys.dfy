/**
 Which key goes out with a generation. Told from outside, by the requests and their answers alone: a key is drawn
 whenever somebody leaves, is removed or asks for a rotation, and until that happens again it is the one handed out.
 */
module HandedKeys {
  import opened CommunityModel
  import opened Database
  import opened LiveServer
  import opened KeyFreshness
  import opened Requests

  /** The event, answered this way, drew a new key. */
  predicate DrawsKey(e: Event, answer: Response) {
    e.Call? && answer == Ok && (e.request.Leave? || e.request.Kick? || e.request.Ban_? || e.request.RotateMek?)
  }

  /** The key in force after events that got these answers, starting with `key`. */
  function LastKey(key: Key, events: seq<Event>, answers: seq<Response>): Key
    requires |events| == |answers|
    decreases events
  {
    if events == [] then key
    else LastKey(if DrawsKey(events[0], answers[0]) then events[0].freshKey else key, events[1..], answers[1..])
  }

  /** Generations are counted through, one for each key drawn. */
  function LastGeneration(generation: nat, events: seq<Event>, answers: seq<Response>): nat
    requires |events| == |answers|
    decreases events
  {
    if events == [] then generation
    else
      LastGeneration(if DrawsKey(events[0], answers[0]) then generation + 1 else generation, events[1..], answers[1..])
  }

  predicate CarriesKey(answer: Response) {
    answer.Mek? || answer.Joined?
  }

  /** Memory is at this generation, and this is its key. */
  predicate AtKey(c: Community, generation: nat, key: Key) {
    c.generation == generation && generation in c.keys && c.keys[generation] == key
  }

  // ---------------------------------------------------------------------------
  // One event
  // ---------------------------------------------------------------------------

  lemma {:induction false} DrawnKeys(c: Community, effect: Effect)
    ensures Apply(c, effect).keys ==
            match effect
            case Depart(_, key) => c.keys[c.generation + 1 := key]
            case Exile(_, _, departs, key) => if departs then c.keys[c.generation + 1 := key] else c.keys
            case Rotate(key) => c.keys[c.generation + 1 := key]
            case _ => c.keys
  {
    hide Altered, Adjusted, Stripped;
  }

  lemma {:induction false} DrawsKeyIs(c: Community, e: Event)
    requires e.Call?
    ensures var (effect, answer) := Decide(c, e.sender, e.request, e.now, e.freshId, e.freshKey);
      && (DrawsKey(e, answer) <==> Rotates(effect))
      && (effect.Depart? || effect.Exile? || effect.Rotate? ==> effect.key == e.freshKey)
  {
    hide MayDo, Cleared, Outranks, Rank, MaySend;
  }

  lemma {:induction false} EventAtKey(l: Live, e: Event, generation: nat, key: Key)
    requires InSync(l) && AtKey(l.memory, generation, key)
    ensures var (l', answer) := Step(l, e);
      if DrawsKey(e, answer) then AtKey(l'.memory, generation + 1, e.freshKey) else AtKey(l'.memory, generation, key)
  {
    if e.Call? {
      CallAtKey(l, e, generation, key);
    } else {
      ReloadIs(l, e.freshKey, e.now);
      hide Hosted, Provisioned, InSync, PersistAdmit;
    }
  }

  lemma {:induction false} CallAtKey(l: Live, e: Event, generation: nat, key: Key)
    requires e.Call? && AtKey(l.memory, generation, key)
    ensures var (l', answer) := Step(l, e);
      if DrawsKey(e, answer) then AtKey(l'.memory, generation + 1, e.freshKey) else AtKey(l'.memory, generation, key)
  {
    hide Decide, Apply, Step, DrawsKey;
    var (effect, answer) := Decide(l.memory, e.sender, e.request, e.now, e.freshId, e.freshKey);
    DrawsKeyIs(l.memory, e);
    MemoryAfter(l, e);
    GenerationAfter(l.memory, Resolve(l, e).0);
    DrawnKeys(l.memory, Resolve(l, e).0);
    ErrorDrawsNothing(e);
  }

  lemma ErrorDrawsNothing(e: Event)
    ensures !DrawsKey(e, Error(500))
  {
  }

  lemma {:induction false} AnswerCarriesKey(l: Live, e: Event, generation: nat, key: Key)
    requires AtKey(l.memory, generation, key) && CarriesKey(Step(l, e).1)
    ensures Step(l, e).1.generation == generation && Step(l, e).1.key == key
  {
    hide Step, Decide;
    StepAnswers(l, e);
    KeyAnswers(l.memory, e.sender, e.request, e.now, e.freshId, e.freshKey);
    if e.request.Join? {
      JoinDoes(l, e);
    } else {
      ReadingDoes(l, e);
    }
  }

  lemma {:induction false} StepAnswers(l: Live, e: Event)
    ensures if e.Call? then
              Step(l, e).1 == Decide(l.memory, e.sender, e.request, e.now, e.freshId, e.freshKey).1
              || Step(l, e).1 == Error(500)
            else Step(l, e).1 == Ok
  {
    hide Decide;
  }

  // ---------------------------------------------------------------------------
  // Whole runs
  // ---------------------------------------------------------------------------

  lemma {:induction false} AnswersMatch(l: Live, events: seq<Event>)
    ensures |Answers(l, events)| == |events|
    decreases events
  {
    hide Step;
    if events != [] { AnswersMatch(Step(l, events[0]).0, events[1..]); }
  }

  lemma {:induction false} RunCarriesKeys(l: Live, events: seq<Event>, generation: nat, key: Key, i: nat)
    requires InSync(l) && AtKey(l.memory, generation, key)
    requires i < |events| == |Answers(l, events)| && CarriesKey(Answers(l, events)[i])
    ensures var answers := Answers(l, events);
      && answers[i].generation == LastGeneration(generation, events[..i], answers[..i])
      && answers[i].key == LastKey(key, events[..i], answers[..i])
    decreases i
  {
    hide Step, InSync, DrawsKey, AtKey;
    var answers, e := Answers(l, events), events[0];
    if i == 0 {
      AnswerCarriesKey(l, e, generation, key);
    } else {
      var l' := Step(l, e).0;
      EventAtKey(l, e, generation, key);
      StepKeepsSync(l, e);
      var draws := DrawsKey(e, answers[0]);
      var g, k := if draws then generation + 1 else generation, if draws then e.freshKey else key;
      RunCarriesKeys(l', events[1..], g, k, i - 1);
      assert events[..i][1..] == events[1..][..i - 1] && answers[..i][1..] == answers[1..][..i - 1];
    }
  }

  /**
   Over every run, restarts included: each answer that carries a key carries the one drawn last before it - the first
   key of the community if none was - under the number of keys there had been by then.
   */
  lemma {:induction false} HandedOutAreTheDrawnKeys(first: Key, events: seq<Event>, i: nat)
    requires i < |events|
    ensures |Answers(NewLive(first), events)| == |events|
    ensures var answers := Answers(NewLive(first), events);
      CarriesKey(answers[i]) ==>
        && answers[i].generation == LastGeneration(1, events[..i], answers[..i])
        && answers[i].key == LastKey(first, events[..i], answers[..i])
  {
    AnswersMatch(NewLive(first), events);
    NewInSync(first);
    NewAtKey(first);
    hide *;
    if CarriesKey(Answers(NewLive(first), events)[i]) { RunCarriesKeys(NewLive(first), events, 1, first, i); }
  }

  lemma NewAtKey(first: Key)
    ensures AtKey(NewLive(first).memory, 1, first)
  {
  }

  predicate DrawsNone(events: seq<Event>, answers: seq<Response>)
    requires |events| == |answers|
  {
    forall i :: 0 <= i < |events| ==> !DrawsKey(events[i], answers[i])
  }

  lemma {:induction false} SameKeyUntilDrawn(key: Key, events: seq<Event>, answers: seq<Response>)
    requires |events| == |answers| && DrawsNone(events, answers)
    ensures LastKey(key, events, answers) == key
    decreases events
  {
    hide DrawsKey;
    if events != [] {
      forall i | 0 <= i < |events| - 1 ensures !DrawsKey(events[1..][i], answers[1..][i]) {
        assert !DrawsKey(events[i + 1], answers[i + 1]);
      }
      SameKeyUntilDrawn(key, events[1..], answers[1..]);
    }
  }

  lemma {:induction false} KeyConcat(key: Key, e1: seq<Event>, a1: seq<Response>, e2: seq<Event>, a2: seq<Response>)
    requires |e1| == |a1| && |e2| == |a2|
    ensures LastKey(key, e1 + e2, a1 + a2) == LastKey(LastKey(key, e1, a1), e2, a2)
    decreases e1
  {
    hide DrawsKey;
    if e1 == [] {
      assert e1 + e2 == e2 && a1 + a2 == a2;
    } else {
      assert (e1 + e2)[1..] == e1[1..] + e2 && (a1 + a2)[1..] == a1[1..] + a2;
      KeyConcat(if DrawsKey(e1[0], a1[0]) then e1[0].freshKey else key, e1[1..], a1[1..], e2, a2);
    }
  }

  /** From a departure, removal or rotation until the next one, every key handed out is the one drawn then. */
  lemma {:induction false} DrawnKeyIsHandedOut(first: Key, events: seq<Event>, j: nat, i: nat)
    requires j < i < |events| == |Answers(NewLive(first), events)|
    requires var answers := Answers(NewLive(first), events);
      DrawsKey(events[j], answers[j]) && DrawsNone(events[j + 1..i], answers[j + 1..i]) && CarriesKey(answers[i])
    ensures Answers(NewLive(first), events)[i].key == events[j].freshKey
  {
    var answers := Answers(NewLive(first), events);
    hide DrawsKey, DrawsNone, CarriesKey, Answers;
    HandedOutAreTheDrawnKeys(first, events, i);
    var before := LastKey(first, events[..j], answers[..j]);
    assert events[..i] == events[..j] + ([events[j]] + events[j + 1..i]);
    assert answers[..i] == answers[..j] + ([answers[j]] + answers[j + 1..i]);
    KeyConcat(first, events[..j], answers[..j], [events[j]] + events[j + 1..i], [answers[j]] + answers[j + 1..i]);
    OneDrawn(before, events[j], answers[j], events[j + 1..i], answers[j + 1..i]);
  }

  lemma {:induction false} OneDrawn(key: Key, e: Event, answer: Response, events: seq<Event>, answers: seq<Response>)
    requires |events| == |answers| && DrawsKey(e, answer) && DrawsNone(events, answers)
    ensures LastKey(key, [e] + events, [answer] + answers) == e.freshKey
  {
    SameKeyUntilDrawn(e.freshKey, events, answers);
    assert ([e] + events)[1..] == events && ([answer] + answers)[1..] == answers;
  }
}
