/**
 When a restart can be noticed. It rebuilds memory from the tables, so it loses exactly what they do not hold or what
 cannot be read back; if that is nothing, no later answer to anybody is different.
 */
module RestartTransparency {
  import opened Common
  import opened Permissions
  import opened CommunityModel
  import opened Database
  import opened Likeness
  import opened LiveServer
  import opened StoreAgreement

  /** What a restart at time `now` would lose or change: roles, running timeouts, overwrites. */
  ghost predicate LosesNothing(l: Live, now: nat) {
    && RolesReloaded(l.tables.roles) == l.memory.roles
    && (forall p :: p in l.memory.members ==>
          TimeoutIn(l.tables.timeouts, p, now) == Unexpired(l.memory.members[p].timeout, now))
    && OverwritesReadBack(l)
  }

  ghost predicate OverwritesReadBack(l: Live) {
    forall id :: id in l.memory.channels ==>
      OverwritesIn(l.tables.overwrites, id) == l.memory.channels[id].overwrites
  }

  /** Channels come back as they were exactly when their overwrites do. */
  lemma {:induction false} ChannelsReload(l: Live)
    requires InSync(l)
    ensures ReadChannels(l.tables.channels, l.tables.overwrites) == l.memory.channels <==> OverwritesReadBack(l)
  {
    var rows, channels := l.tables.overwrites, l.memory.channels;
    var read := ReadChannels(l.tables.channels, rows);
    hide Consistent, SameLedger, SameRoster, TimeoutsWritten, RolesWritten;
    assert read.Keys == channels.Keys;
    forall id | id in channels
      ensures read[id] == channels[id] <==> OverwritesIn(rows, id) == channels[id].overwrites
    {
    }
  }

  /** A restart that names the creator on record, if any, and so registers nobody. */
  predicate Plain(l: Live, e: Event) {
    e.Rehost? && e.creatorKey == l.memory.creator
  }

  lemma {:induction false} PlainIsReload(l: Live, e: Event)
    requires InSync(l) && Plain(l, e)
    ensures Step(l, e) == (Reloaded(l.tables, e.freshKey, e.now), Ok)
  {
    ReloadIs(l, e.freshKey, e.now);
    hide Hosted, Provisioned, PersistAdmit;
  }

  lemma {:induction false} UnexpiredTwice(timeouts: map<Pseudonym, nat>, p: Pseudonym, now: nat)
    ensures Unexpired(TimeoutIn(timeouts, p, now), now) == TimeoutIn(timeouts, p, now)
  {
  }

  /** A restart leaves the community as it was, up to timeouts that have run out, if and only if it loses nothing. */
  lemma {:induction false} RestartKeepsIff(l: Live, e: Event)
    requires InSync(l) && Plain(l, e)
    ensures Alike(Step(l, e).0.memory, l.memory, e.now) <==> LosesNothing(l, e.now)
  {
    PlainIsReload(l, e);
    ReloadIs(l, e.freshKey, e.now);
    ChannelsReload(l);
    hide Step, InSync, Hosted, Provisioned, ReadRoles, ReadChannels, OverwritesReadBack, TimeoutIn, DefaultRoles;
    RefreshedAlike(l.memory.members, Hosted(l.tables, e.freshKey, e.now).members, l.tables.timeouts, e.now);
  }

  lemma {:induction false} RefreshedAlike(ms: map<Pseudonym, Member>, hs: map<Pseudonym, Member>,
                                          timeouts: map<Pseudonym, nat>, now: nat)
    requires ms.Keys == hs.Keys
    requires forall p :: p in ms ==> hs[p] == ms[p].(timeout := TimeoutIn(timeouts, p, now))
    ensures AllRefreshed(hs, now) == AllRefreshed(ms, now) <==>
            forall p :: p in ms ==> TimeoutIn(timeouts, p, now) == Unexpired(ms[p].timeout, now)
  {
    var a, b := AllRefreshed(hs, now), AllRefreshed(ms, now);
    assert a.Keys == b.Keys == ms.Keys;
    hide TimeoutIn, Unexpired;
    forall p | p in ms ensures a[p] == b[p] <==> TimeoutIn(timeouts, p, now) == Unexpired(ms[p].timeout, now) {
      UnexpiredTwice(timeouts, p, now);
    }
    if a == b {
      forall p | p in ms ensures TimeoutIn(timeouts, p, now) == Unexpired(ms[p].timeout, now) { assert a[p] == b[p]; }
    }
  }

  /** The first effect the tables cannot hold is exactly what the next restart loses. */
  lemma {:induction false} UnstorableEffectsAreLost(l: Live, e: Event)
    requires InSync(l) && Settled(l, e.now) && e.Call? && e.now < TWO_TO_THE_63
    ensures LosesNothing(Step(l, e).0, e.now) <==> StorableEvent(l, e)
  {
    hide Step, StorableEvent, InSync, Settled;
    StepKeepsSync(l, e);
    CallStored(l, e);
    if ReadRoles(Step(l, e).0.tables.roles) == map[] {
      NoneReadable(l, e);
    } else {
      AgreementLosesNothing(Step(l, e).0, e.now);
    }
  }

  lemma {:induction false} NoneReadable(l: Live, e: Event)
    requires InSync(l) && Settled(l, e.now) && e.Call?
    requires ReadRoles(Step(l, e).0.tables.roles) == map[]
    ensures !LosesNothing(Step(l, e).0, e.now) && !StorableEvent(l, e)
  {
    var effect := Resolve(l, e).0;
    ResolvedIsWarranted(l, e);
    WarrantedFits(l.memory, e.sender, e.request, e.now, effect);
    RoleRows(l.memory, l.tables, effect);
    RolesAfter(l.memory, effect);
    AgreedNames(l.memory, l.tables, e.now);
    DefaultsReadBack();
    hide Resolve, Warranted, InSync, Stored, Persist, Apply, DefaultRoles, Readable;
    var rows := Step(l, e).0.tables.roles;
    assert ROLE_EVERYONE_ID in ReadRoles(l.tables.roles);
    assert ROLE_EVERYONE_ID in rows && ROLE_EVERYONE_ID !in ReadRoles(rows);
  }

  lemma {:induction false} AgreementLosesNothing(l: Live, now: nat)
    requires InSync(l) && ReadRoles(l.tables.roles) != map[]
    ensures LosesNothing(l, now) <==> Agrees(l.memory, l.tables, now)
  {
    ReloadIs(l, [], now);
    assert Hosted(l.tables, [], now) == Load(l.tables, now);
    var hs := Load(l.tables, now).members;
    assert Agrees(l.memory, l.tables, now) <==>
        hs == AllRefreshed(l.memory.members, now) && ReadRoles(l.tables.roles) == l.memory.roles
        && ReadChannels(l.tables.channels, l.tables.overwrites) == l.memory.channels
    by {
      hide ReadMembers, ReadRoles, ReadChannels, LatestGeneration, AllRefreshed, Consistent, SameRoster,
        TimeoutsWritten, RolesWritten, SameChannels;
    }
    ChannelsReload(l);
    hide InSync, Load, Hosted, Provisioned, ReadRoles, ReadChannels, OverwritesReadBack, TimeoutIn, Agrees;
    TimeoutsAlike(l.memory.members, hs, l.tables.timeouts, now);
  }

  lemma {:induction false} TimeoutsAlike(ms: map<Pseudonym, Member>, hs: map<Pseudonym, Member>,
                                         timeouts: map<Pseudonym, nat>, now: nat)
    requires ms.Keys == hs.Keys
    requires forall p :: p in ms ==> hs[p] == ms[p].(timeout := TimeoutIn(timeouts, p, now))
    ensures hs == AllRefreshed(ms, now) <==>
            forall p :: p in ms ==> TimeoutIn(timeouts, p, now) == Unexpired(ms[p].timeout, now)
  {
    var b := AllRefreshed(ms, now);
    assert b.Keys == ms.Keys;
    hide TimeoutIn, Unexpired;
    if hs == b {
      forall p | p in ms ensures TimeoutIn(timeouts, p, now) == Unexpired(ms[p].timeout, now) { assert hs[p] == b[p]; }
    }
  }

  /** A role that a restart loses is missed by the first member who asks for the roles. */
  lemma {:induction false} LostRolesShow(l: Live, e: Event, p: Pseudonym)
    requires InSync(l) && Plain(l, e) && IsMember(l.memory, p)
    ensures var ask := Call(p, GetRoles, e.now, "", e.freshKey);
      Step(Step(l, e).0, ask).1 == Step(l, ask).1 <==> RolesReloaded(l.tables.roles) == l.memory.roles
  {
    var ask := Call(p, GetRoles, e.now, "", e.freshKey);
    PlainIsReload(l, e);
    ReloadIs(l, e.freshKey, e.now);
    hide InSync, Hosted, Provisioned, ReadRoles, ReadChannels, TimeoutIn, DefaultRoles;
    assert IsMember(Step(l, e).0.memory, p);
    hide Step;
    RolesAsked(l, ask);
    RolesAsked(Step(l, e).0, ask);
  }

  lemma {:induction false} RolesAsked(l: Live, e: Event)
    requires e.Call? && e.request == GetRoles && IsMember(l.memory, e.sender)
    ensures Step(l, e).1 == RolesList(l.memory.roles)
  {
  }

  // ---------------------------------------------------------------------------
  // Later answers
  // ---------------------------------------------------------------------------

  ghost predicate AlikeLives(l: Live, k: Live, now: nat) {
    l.tables == k.tables && Alike(l.memory, k.memory, now)
  }

  lemma {:induction false} AlikeSteps(l: Live, k: Live, e: Event)
    requires AlikeLives(l, k, e.now)
    ensures Step(l, e).1 == Step(k, e).1
    ensures AlikeLives(Step(l, e).0, Step(k, e).0, e.now)
  {
    if e.Call? {
      assert l.memory.generation == k.memory.generation;
      hide Decide, Apply, Persist, Alike;
      AlikeDecisions(l.memory, k.memory, e.sender, e.request, e.now, e.freshId, e.freshKey);
      AlikeEffects(l.memory, k.memory, Resolve(l, e).0, e.now);
    }
  }

  lemma {:induction false} AlikeRuns(l: Live, k: Live, events: seq<Event>, now: nat)
    requires AlikeLives(l, k, now) && InTimeOrder(events, now)
    ensures Answers(l, events) == Answers(k, events)
    decreases events
  {
    hide Step, Alike;
    if events != [] {
      AlikeLater(l.memory, k.memory, now, events[0].now);
      AlikeSteps(l, k, events[0]);
      AlikeRuns(Step(l, events[0]).0, Step(k, events[0]).0, events[1..], events[0].now);
    }
  }

  /** A restart that loses nothing writes nothing. */
  lemma {:induction false} NothingWritten(l: Live, e: Event)
    requires InSync(l) && Plain(l, e) && LosesNothing(l, e.now)
    ensures Step(l, e).0.tables == l.tables
  {
    PlainIsReload(l, e);
    ReloadIs(l, e.freshKey, e.now);
    hide Step, Hosted, Provisioned, ReadChannels, TimeoutIn, DefaultRole;
    if ReadRoles(l.tables.roles) == map[] {
      assert DefaultRoles() + l.tables.roles == l.tables.roles;
    }
  }

  /** A restart that loses nothing changes no later answer, whoever asks what, further restarts included. */
  lemma {:induction false} RestartIsInvisible(l: Live, e: Event, events: seq<Event>)
    requires InSync(l) && Plain(l, e) && InTimeOrder(events, e.now)
    requires LosesNothing(l, e.now)
    ensures Answers(Step(l, e).0, events) == Answers(l, events)
  {
    RestartKeepsIff(l, e);
    NothingWritten(l, e);
    hide InSync, LosesNothing, Step, Alike;
    AlikeRuns(Step(l, e).0, l, events, e.now);
  }

  lemma {:induction false} SettledLosesNothing(l: Live, earlier: nat, now: nat)
    requires InSync(l) && Settled(l, earlier) && earlier <= now
    ensures LosesNothing(l, now)
  {
    StoredLater(l.memory, l.tables, earlier, now);
    AgreedNames(l.memory, l.tables, now);
    assert ROLE_EVERYONE_ID in ReadRoles(l.tables.roles);
    hide InSync, LosesNothing, Agrees, Consistent, AllReadable;
    AgreementLosesNothing(l, now);
  }

  /**
   From a new community on, after any run whose effects the tables can hold, a restart at any moment changes no later
   answer.
   */
  lemma {:induction false} StorableRunsRestartInvisibly(key: Key, before: seq<Event>, start: nat, e: Event,
                                                        after: seq<Event>)
    requires InTimeOrder(before, start) && StorableRun(NewLive(key), before)
    requires LastTime(before, start) <= e.now && LastTime(before, start) < TWO_TO_THE_63
    requires Plain(Run(NewLive(key), before), e) && InTimeOrder(after, e.now)
    ensures var l := Run(NewLive(key), before); Answers(Step(l, e).0, after) == Answers(l, after)
  {
    NewIsSettled(key, start);
    RunStored(NewLive(key), before, start);
    EveryReachableServerIsInSync(key, before);
    hide *;
    var l := Run(NewLive(key), before);
    SettledLosesNothing(l, LastTime(before, start), e.now);
    RestartIsInvisible(l, e, after);
  }
}
