/**
 Who holds which media key generation over a whole run.

 Leaving, being kicked and being banned each rotate the key, so somebody who is out should only hold keys that
 no later message uses. The ledger below writes down every generation ever handed to every pseudonym.
 */
module KeyFreshness {
  import opened Permissions
  import opened CommunityModel
  import opened Database
  import opened LiveServer

  datatype Ledger = Ledger(
    live: Live,
    /** Every (pseudonym, generation) pair ever handed out. */
    given: set<(Pseudonym, nat)>,
    /** Who asked for the current key while on record as creator. */
    askedAsCreator: set<Pseudonym>)

  function Handed(e: Event, r: Response): set<(Pseudonym, nat)> {
    if e.Call? && (r.Joined? || r.Mek?) then {(e.sender, r.generation)} else {}
  }

  predicate AsksAsCreator(c: Community, e: Event) {
    e.Call? && e.request.RequestMek? && e.sender == c.creator
  }

  ghost function Advance(l: Ledger, e: Event): Ledger {
    var (live, r) := Step(l.live, e);
    var asked := if live.memory.generation == l.live.memory.generation then l.askedAsCreator else {};
    Ledger(live, l.given + Handed(e, r), if AsksAsCreator(l.live.memory, e) then asked + {e.sender} else asked)
  }

  ghost function Follow(l: Ledger, events: seq<Event>): Ledger
    decreases events
  {
    if events == [] then l else Follow(Advance(l, events[0]), events[1..])
  }

  ghost function Opening(key: Key): Ledger {
    Ledger(NewLive(key), {}, {})
  }

  /** Nothing from the future was handed out; off the roster, the current key is held by who asked for it as creator. */
  ghost predicate Sealed(l: Ledger) {
    && (forall p, g :: (p, g) in l.given ==> g <= l.live.memory.generation)
    && (forall p :: p in l.askedAsCreator ==> (p, l.live.memory.generation) in l.given)
    && (forall p :: p !in l.live.memory.members && (p, l.live.memory.generation) in l.given ==> p in l.askedAsCreator)
  }

  lemma {:induction false} FollowRuns(l: Ledger, events: seq<Event>)
    ensures Follow(l, events).live == Run(l.live, events)
    decreases events
  {
    hide Step;
    if events != [] {
      FollowRuns(Advance(l, events[0]), events[1..]);
    }
  }

  // ---------------------------------------------------------------------------
  // One event
  // ---------------------------------------------------------------------------

  lemma {:induction false} KeyAnswers(c: Community, p: Pseudonym, r: Request, now: nat, id: ChannelId, key: Key)
    ensures var (effect, answer) := Decide(c, p, r, now, id, key);
      && (answer.Joined? ==> r.Join? && answer.generation == c.generation)
      && (answer.Joined? ==> p in c.members || (effect.Admit? && effect.who == p))
      && (answer.Mek? <==> r.RequestMek? && IsMember(c, p))
      && (answer.Mek? ==> effect.Nothing? && answer.generation == c.generation)
      && (r.Join? ==> effect.Admit? || effect.Adjust? || effect.Nothing?)
  {
    hide Effective, TopPosition;
  }

  /** A key is only ever handed out with the current generation, and to a member or the creator. */
  lemma {:induction false} HandedCurrent(l: Live, e: Event)
    ensures var (l', r) := Step(l, e);
      forall p, g :: (p, g) in Handed(e, r) ==>
        p == e.sender && g == l.memory.generation == l'.memory.generation
        && (p in l'.memory.members || AsksAsCreator(l.memory, e))
  {
    if e.Call? {
      KeyAnswers(l.memory, e.sender, e.request, e.now, e.freshId, e.freshKey);
      hide Decide;
    }
  }

  /** Asking as creator is always answered with the current key. */
  lemma {:induction false} CreatorIsHandedTheKey(l: Live, e: Event)
    requires AsksAsCreator(l.memory, e)
    ensures Handed(e, Step(l, e).1) == {(e.sender, l.memory.generation)}
    ensures Step(l, e).0.memory.generation == l.memory.generation
  {
    KeyAnswers(l.memory, e.sender, e.request, e.now, e.freshId, e.freshKey);
    hide Decide;
  }

  /** The effects that make a new key. */
  predicate Rotates(effect: Effect) {
    Removes(effect) || effect.Rotate?
  }

  lemma {:induction false} GenerationAfter(c: Community, effect: Effect)
    ensures Apply(c, effect).generation == if Rotates(effect) then c.generation + 1 else c.generation
    ensures Rotates(effect) || c.members.Keys <= Apply(c, effect).members.Keys
  {
    hide Altered, Adjusted;
    if effect.DropRole? { assert Stripped(c.members, effect.role).Keys == c.members.Keys; }
  }

  lemma {:induction false} RestartKeepsKey(l: Live, e: Event)
    requires InSync(l) && e.Rehost?
    ensures var l' := Step(l, e).0;
      l'.memory.generation == l.memory.generation && l.memory.members.Keys <= l'.memory.members.Keys
      && l'.memory.log == l.memory.log
  {
    ReloadIs(l, e.freshKey, e.now);
    hide Hosted, Provisioned, InSync, PersistAdmit;
  }

  /**
   The key is rotated when a member leaves, is kicked or is banned, or somebody asks for it, and at no other event:
   joining, being timed out or losing a role does not rotate it. Nobody goes off the roster without a rotation.
   */
  lemma {:induction false} GenerationGrowsIff(l: Live, e: Event)
    requires InSync(l)
    ensures var l' := Step(l, e).0;
      && l'.memory.generation ==
           (if e.Call? && Rotates(Resolve(l, e).0) then l.memory.generation + 1 else l.memory.generation)
      && (l'.memory.generation == l.memory.generation ==> l.memory.members.Keys <= l'.memory.members.Keys)
  {
    hide Resolve, InSync, Apply, Persist, Rotates;
    if e.Call? {
      GenerationAfter(l.memory, Resolve(l, e).0);
    } else {
      hide Step;
      RestartKeepsKey(l, e);
    }
  }

  lemma {:induction false} SealedStep(l: Ledger, e: Event)
    requires Sealed(l) && InSync(l.live)
    ensures Sealed(Advance(l, e))
  {
    HandedCurrent(l.live, e);
    GenerationGrowsIff(l.live, e);
    if AsksAsCreator(l.live.memory, e) { CreatorIsHandedTheKey(l.live, e); }
    hide Step, InSync, Resolve, AsksAsCreator, Rotates;
  }

  lemma {:induction false} SealedRun(l: Ledger, events: seq<Event>)
    requires Sealed(l) && InSync(l.live)
    ensures Sealed(Follow(l, events))
    decreases events
  {
    hide Sealed, InSync, Step;
    if events != [] {
      SealedStep(l, events[0]);
      StepKeepsSync(l.live, events[0]);
      SealedRun(Advance(l, events[0]), events[1..]);
    }
  }

  // ---------------------------------------------------------------------------
  // Whole runs
  // ---------------------------------------------------------------------------

  /**
   Key freshness over whole runs, restarts included: whoever is off the roster holds only generations strictly below
   the current one, if and only if it did not ask for the current key while on record as creator.
   */
  lemma {:induction false} OutsidersHoldOldKeys(key: Key, events: seq<Event>, p: Pseudonym)
    requires p !in Run(NewLive(key), events).memory.members
    ensures var l := Follow(Opening(key), events);
      (forall g :: (p, g) in l.given ==> g < Run(NewLive(key), events).memory.generation) <==> p !in l.askedAsCreator
  {
    hide *;
    OpeningIs(key);
    NewInSync(key);
    SealedRun(Opening(key), events);
    FollowRuns(Opening(key), events);
    SealedMeans(Follow(Opening(key), events), p);
  }

  lemma OpeningIs(key: Key)
    ensures Opening(key).live == NewLive(key) && Sealed(Opening(key))
  {
  }

  lemma {:induction false} SealedMeans(l: Ledger, p: Pseudonym)
    requires Sealed(l) && p !in l.live.memory.members
    ensures (forall g :: (p, g) in l.given ==> g < l.live.memory.generation) <==> p !in l.askedAsCreator
  {
    if p in l.askedAsCreator {
      assert (p, l.live.memory.generation) in l.given;
    }
  }

  /** The log only grows, and everything added carries a generation at least as great as the one before the run. */
  lemma {:induction false} LaterMessages(l: Live, events: seq<Event>)
    requires InSync(l)
    ensures var c, c' := l.memory, Run(l, events).memory;
      && c.generation <= c'.generation
      && c.log <= c'.log
      && (forall i :: |c.log| <= i < |c'.log| ==> c.generation <= c'.log[i].generation)
    decreases events
  {
    hide Step, InSync;
    if events != [] {
      MessageStep(l, events[0]);
      StepKeepsSync(l, events[0]);
      LaterMessages(Step(l, events[0]).0, events[1..]);
    }
  }

  /** At most one message is added, and it carries the current generation. */
  ghost predicate LogExtends(c: Community, c': Community) {
    && c.generation <= c'.generation
    && (c'.log == c.log ||
        (|c'.log| == |c.log| + 1 && c.log == c'.log[..|c.log|] && c'.log[|c.log|].generation == c.generation))
  }

  lemma {:induction false} MessageEffect(c: Community, effect: Effect)
    requires effect.Post? ==> effect.message.generation == c.generation
    ensures LogExtends(c, Apply(c, effect))
  {
  }

  lemma {:induction false} MessageStep(l: Live, e: Event)
    requires InSync(l)
    ensures LogExtends(l.memory, Step(l, e).0.memory)
  {
    if e.Call? {
      ResolvedIsWarranted(l, e);
      hide Resolve, LogExtends, Apply, Persist, InSync;
      MessageEffect(l.memory, Resolve(l, e).0);
    } else {
      RestartKeepsKey(l, e);
      hide Step, InSync;
    }
  }

  /**
   Forward secrecy of a departure: no message accepted after `p` is out, whatever happens next (even if `p` comes
   back), carries a generation that `p` had been given by then - unless `p` had asked for the new key as creator.
   */
  lemma {:induction false} NothingLaterIsReadable(key: Key, before: seq<Event>, after: seq<Event>, p: Pseudonym, g: nat,
                                                  i: nat)
    requires var l := Follow(Opening(key), before);
      p !in l.live.memory.members && p !in l.askedAsCreator && (p, g) in l.given
    requires |Run(NewLive(key), before).memory.log| <= i < |Run(NewLive(key), before + after).memory.log|
    ensures g < Run(NewLive(key), before + after).memory.log[i].generation
  {
    hide Step, InSync;
    FollowRuns(Opening(key), before);
    OutsidersHoldOldKeys(key, before, p);
    RunConcat(NewLive(key), before, after);
    EveryReachableServerIsInSync(key, before);
    LaterMessages(Run(NewLive(key), before), after);
  }

  /** The one way for somebody outside the roster to be handed the current key is to ask for it as creator. */
  lemma {:induction false} OutsiderKeyRequests(l: Live, e: Event)
    requires e.Call? && e.sender !in Step(l, e).0.memory.members
    ensures (e.sender, Step(l, e).0.memory.generation) in Handed(e, Step(l, e).1) <==> AsksAsCreator(l.memory, e)
  {
    HandedCurrent(l, e);
    if AsksAsCreator(l.memory, e) { CreatorIsHandedTheKey(l, e); }
    hide Step;
  }

  /** And a real way: a creator who leaves and asks again is no member, yet holds the key made when it left. */
  lemma {:induction false} CreatorKeepsTheKey(l: Ledger, p: Pseudonym, now: nat, key: Key)
    requires p == l.live.memory.creator
    ensures var left := Advance(l, Call(p, Leave, now, "", key));
      var asked := Advance(left, Call(p, RequestMek, now, "", key));
      && left.live.memory.generation == l.live.memory.generation + 1 == asked.live.memory.generation
      && p !in asked.live.memory.members && (p, asked.live.memory.generation) in asked.given
  {
    var leave, ask := Call(p, Leave, now, "", key), Call(p, RequestMek, now, "", key);
    LeaveStep(l.live, leave);
    var left := Advance(l, leave);
    CreatorIsHandedTheKey(left.live, ask);
    hide Step, Handed;
    assert Advance(left, ask).given == left.given + {(p, left.live.memory.generation)};
    RequestKeepsRoster(left.live, ask);
  }

  lemma {:induction false} RequestKeepsRoster(l: Live, e: Event)
    requires e.Call? && e.request.RequestMek?
    ensures Step(l, e).0.memory == l.memory
  {
    hide Persist;
  }
}
