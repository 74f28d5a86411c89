/**
 Timeouts and bans. A timed-out member stays silent until the timeout runs out, over restarts too - unless the timeout
 is lifted, or does not fit 63 bits and a restart forgets it, or an overwrite gives its holder the administrator bit.
 */
module Moderation {
  import opened Common
  import opened Permissions
  import opened CommunityModel
  import opened Database
  import opened LiveServer
  import Requests

  /** The administrator bit is among the member's permissions in this channel, from a role or from an overwrite. */
  ghost predicate AdminIn(c: Community, p: Pseudonym, channel: ChannelId, now: nat) {
    p in c.members &&
    IsAdministrator(
      Effective(c.members[p].roles, c.roles, OverwritesOf(c, channel), p, c.members[p].timeout, now))
  }

  ghost predicate Muted(c: Community, p: Pseudonym, until: nat) {
    p in c.members && c.members[p].timeout == Some(until)
  }

  /** While a timeout runs, the administrator bit is the only thing that lets its holder write. */
  lemma {:induction false} MutedSendsOnlyAsAdmin(c: Community, p: Pseudonym, until: nat, channel: ChannelId, now: nat)
    requires Muted(c, p, until) && now < until
    ensures MaySend(c, p, channel, now) <==> AdminIn(c, p, channel, now)
  {
  }

  /** A member overwrite that allows the administrator bit undoes a timeout in its channel. */
  lemma {:induction false} OverwriteUndoesTimeout(c: Community, p: Pseudonym, until: nat, channel: ChannelId, now: nat)
    requires Muted(c, p, until) && now < until
    requires Target(MemberTarget, p) in OverwritesOf(c, channel)
    requires {ADMINISTRATOR, VIEW_CHANNEL} <= OverwritesOf(c, channel)[Target(MemberTarget, p)].allow
    ensures MaySend(c, p, channel, now)
  {
  }

  // ---------------------------------------------------------------------------
  // What ends a timeout
  // ---------------------------------------------------------------------------

  /**
   The event ends the timeout of `p`: a granted request takes `p` off the roster, or replaces or clears the timeout;
   or a restart meets a timeout that cannot be read back. A request that is refused lifts nothing.
   */
  ghost predicate Lifts(l: Live, e: Event, p: Pseudonym, until: nat) {
    match e
    case Rehost(_, _, _, _) => until >= TWO_TO_THE_63
    case Call(sender, request, now, _, _) =>
      Resolve(l, e).1 == Ok &&
      match request
      case Leave => sender == p
      case Kick(target) => target == p
      case Ban_(target) => target == p
      case TimeoutMember(target, duration) => target == p && Until(now, duration) != until
      case RemoveTimeout(target) => target == p
      case _ => false
  }

  predicate LiftedBy(effect: Effect, p: Pseudonym, until: nat) {
    match effect
    case Depart(who, _) => who == p
    case Exile(who, _, departs, _) => who == p && departs
    case Adjust(who, SetTimeout(u)) => who == p && u != until
    case Adjust(who, ClearTimeout) => who == p
    case _ => false
  }

  lemma {:induction false} LiftsIs(l: Live, e: Event, p: Pseudonym, until: nat)
    requires e.Call? && Muted(l.memory, p, until)
    ensures Lifts(l, e, p, until) <==> LiftedBy(Resolve(l, e).0, p, until)
  {
    hide Effective, TopPosition;
  }

  lemma {:induction false} MutedEffect(c: Community, p: Pseudonym, until: nat, effect: Effect)
    requires Muted(c, p, until) && (effect.Admit? ==> effect.who !in c.members)
    ensures Muted(Apply(c, effect), p, until) <==> !LiftedBy(effect, p, until)
  {
    hide Altered;
  }

  /** A running timeout goes on after an event if and only if the event does not lift it. */
  lemma {:induction false} MutedStepIff(l: Live, e: Event, p: Pseudonym, until: nat)
    requires InSync(l) && Muted(l.memory, p, until) && e.now < until
    ensures Muted(Step(l, e).0.memory, p, until) <==> !Lifts(l, e, p, until)
  {
    if e.Call? {
      LiftsIs(l, e, p, until);
      ResolvedIsWarranted(l, e);
      WarrantedFits(l.memory, e.sender, e.request, e.now, Resolve(l, e).0);
      hide Lifts, LiftedBy, Resolve, Warranted, Apply, Persist, InSync;
      MutedEffect(l.memory, p, until, Resolve(l, e).0);
    } else {
      hide *;
      RestartUnmutesIff(l, e, p, until);
      LiftsByRestart(l, e, p, until);
    }
  }

  lemma LiftsByRestart(l: Live, e: Event, p: Pseudonym, until: nat)
    requires e.Rehost?
    ensures Lifts(l, e, p, until) <==> until >= TWO_TO_THE_63
  {
  }

  /** A restart keeps a timeout if and only if it is still running and its end fits 63 bits. */
  lemma {:induction false} RestartUnmutesIff(l: Live, e: Event, p: Pseudonym, until: nat)
    requires InSync(l) && Muted(l.memory, p, until) && e.Rehost?
    ensures Muted(Step(l, e).0.memory, p, until) <==> e.now < until < 0x8000_0000_0000_0000
  {
    ReloadIs(l, e.freshKey, e.now);
    RehostMemory(l, e);
    TimeoutRow(l, p, until);
    hide Step, Hosted, Provisioned, InSync, ReadChannels, RolesReloaded;
  }

  lemma TimeoutRow(l: Live, p: Pseudonym, until: nat)
    requires InSync(l) && Muted(l.memory, p, until)
    ensures p in l.tables.timeouts && l.tables.timeouts[p] == until
  {
  }

  // ---------------------------------------------------------------------------
  // What gets written
  // ---------------------------------------------------------------------------

  /** The event is `p` writing in a channel where it has the administrator bit. */
  ghost predicate WritesAsAdmin(l: Live, e: Event, p: Pseudonym) {
    e.Call? && e.request.SendMessage? && e.sender == p && AdminIn(l.memory, p, e.request.channel, e.now)
  }

  /** A timed-out member's message is stored if and only if it has the administrator bit and the current key. */
  lemma {:induction false} MutedPostsIff(l: Live, e: Event, p: Pseudonym, until: nat)
    requires Muted(l.memory, p, until) && e.Call? && e.request.SendMessage? && e.sender == p && e.now < until
    ensures Resolve(l, e).0.Post? <==> WritesAsAdmin(l, e, p) && e.request.generation == l.memory.generation
  {
    MutedSendsOnlyAsAdmin(l.memory, p, until, e.request.channel, e.now);
    hide Effective;
  }

  /** The log is as before, or one message stamped `now` was added, not by `p` if that is asked for. */
  ghost predicate Posted(log: seq<Message>, log': seq<Message>, now: nat, notBy: Option<Pseudonym>) {
    log' == log ||
    exists m: Message :: log' == log + [m] && m.timestamp == now && (notBy.Some? ==> m.sender != notBy.value)
  }

  lemma {:induction false} PostedEffect(c: Community, effect: Effect, now: nat, notBy: Option<Pseudonym>)
    requires effect.Post? ==> effect.message.timestamp == now && (notBy.Some? ==> effect.message.sender != notBy.value)
    ensures Posted(c.log, Apply(c, effect).log, now, notBy)
  {
  }

  lemma {:induction false} WarrantedPost(c: Community, p: Pseudonym, r: Request, now: nat, effect: Effect)
    requires Warranted(c, p, r, now, effect) && effect.Post?
    ensures r.SendMessage? && effect.message.sender == p && effect.message.timestamp == now
  {
  }

  /** What one event adds to the log; nothing by `p` if `p` does not write, or is muted and does not write as admin. */
  lemma {:induction false} PostedStep(l: Live, e: Event, notBy: Option<Pseudonym>)
    requires InSync(l)
    requires e.Call? && notBy.Some? && e.sender == notBy.value ==> !Resolve(l, e).0.Post?
    ensures Posted(l.memory.log, Step(l, e).0.memory.log, e.now, notBy)
  {
    if e.Call? {
      var effect := Resolve(l, e).0;
      ResolvedIsWarranted(l, e);
      if effect.Post? { WarrantedPost(l.memory, e.sender, e.request, e.now, effect); }
      hide Resolve, Warranted, Apply, Persist, InSync;
      PostedEffect(l.memory, effect, e.now, notBy);
    } else {
      ReloadIs(l, e.freshKey, e.now);
      hide Hosted, Provisioned, InSync, PersistAdmit;
    }
  }

  lemma {:induction false} MutedStaysSilent(l: Live, e: Event, p: Pseudonym, until: nat)
    requires InSync(l) && Muted(l.memory, p, until) && e.now < until && !WritesAsAdmin(l, e, p)
    ensures Posted(l.memory.log, Step(l, e).0.memory.log, e.now, Some(p))
  {
    if e.Call? && e.sender == p && Resolve(l, e).0.Post? {
      ResolvedIsWarranted(l, e);
      WarrantedPost(l.memory, e.sender, e.request, e.now, Resolve(l, e).0);
      MutedPostsIff(l, e, p, until);
    }
    hide Step, Resolve, InSync, Muted, WritesAsAdmin;
    PostedStep(l, e, Some(p));
  }

  // ---------------------------------------------------------------------------
  // Whole runs
  // ---------------------------------------------------------------------------

  ghost predicate Unlifted(l: Live, events: seq<Event>, p: Pseudonym, until: nat)
    decreases events
  {
    events == [] ||
    (!Lifts(l, events[0], p, until) && !WritesAsAdmin(l, events[0], p)
     && Unlifted(Step(l, events[0]).0, events[1..], p, until))
  }

  /** No message of `p` stamped before `until` is accepted after the timeout was set. */
  ghost predicate SilentSince(log: seq<Message>, start: nat, p: Pseudonym, until: nat) {
    forall i :: start <= i < |log| && log[i].timestamp < until ==> log[i].sender != p
  }

  lemma {:induction false} SilentRun(l: Live, events: seq<Event>, p: Pseudonym, until: nat, now: nat, start: nat)
    requires InSync(l) && (now < until ==> Muted(l.memory, p, until))
    requires Unlifted(l, events, p, until) && InTimeOrder(events, now)
    requires start <= |l.memory.log| && SilentSince(l.memory.log, start, p, until)
    ensures SilentSince(Run(l, events).memory.log, start, p, until)
    decreases events
  {
    hide Step, InSync, Lifts, WritesAsAdmin, Muted;
    if events != [] {
      var l' := Step(l, events[0]).0;
      StepKeepsSync(l, events[0]);
      PostedStep(l, events[0], None);
      if events[0].now < until {
        MutedStaysSilent(l, events[0], p, until);
        MutedStepIff(l, events[0], p, until);
      }
      SilentRun(l', events[1..], p, until, events[0].now, start);
    }
  }

  lemma {:induction false} TimeoutMutes(l: Live, e: Event, p: Pseudonym)
    requires e.Call? && e.request.TimeoutMember? && e.request.target == p && Step(l, e).1 == Ok
    ensures Muted(Step(l, e).0.memory, p, Until(e.now, e.request.duration))
    ensures Step(l, e).0.memory.log == l.memory.log
  {
    TimeoutGranted(l, e);
    MemoryAfter(l, e);
    hide Resolve, Step;
  }

  lemma {:induction false} TimeoutGranted(l: Live, e: Event)
    requires e.Call? && e.request.TimeoutMember? && Step(l, e).1 == Ok
    ensures e.request.target in l.memory.members
    ensures Resolve(l, e).0 == Adjust(e.request.target, SetTimeout(Until(e.now, e.request.duration)))
  {
    MemoryAfter(l, e);
    TimeoutResolved(l, e);
    hide Step, Resolve;
  }

  lemma TimeoutResolved(l: Live, e: Event)
    requires e.Call? && e.request.TimeoutMember?
    ensures Resolve(l, e) == DoTimeout(l.memory, e.sender, e.request.target, e.request.duration, e.now)
  {
    hide Cleared, Outranks;
  }

  /**
   From the moment a member is timed out for `duration` seconds until `end`, that many seconds later, over every run in
   which nothing lifts the timeout and it does not write with the administrator bit, the log takes no message from it.
   Restarts are part of such runs as long as `end` can be read back, and requests that are refused always are. A sum
   of more than 64 bits wraps, and the timeout is the shorter for it.
   */
  lemma {:induction false} TimeoutSilences(l: Live, e: Event, p: Pseudonym, events: seq<Event>, end: nat)
    requires InSync(l)
    requires e.Call? && e.request.TimeoutMember? && e.request.target == p && Step(l, e).1 == Ok
    requires e.now < 0x1_0000_0000_0000_0000 && e.request.duration < 0x1_0000_0000_0000_0000
    requires var sum := e.now + e.request.duration;
      end == if sum < 0x1_0000_0000_0000_0000 then sum else sum - 0x1_0000_0000_0000_0000
    requires InTimeOrder(events, e.now) && Unlifted(Step(l, e).0, events, p, end)
    ensures var log := Run(Step(l, e).0, events).memory.log;
      forall i :: |l.memory.log| <= i < |log| && log[i].timestamp < end ==> log[i].sender != p
  {
    hide Step, InSync, Muted, Unlifted, Run, Until;
    Requests.UntilIs(e.now, e.request.duration);
    TimeoutMutes(l, e, p);
    StepKeepsSync(l, e);
    SilentRun(Step(l, e).0, events, p, end, e.now, |l.memory.log|);
  }

  /** Leaving and joining again is such a way to end a timeout, open to whoever is not banned. */
  lemma {:induction false} RejoiningClearsTimeout(l: Live, p: Pseudonym, name: string, now: nat, key: Key)
    requires IsMember(l.memory, p) && p !in l.memory.bans
    ensures var left := Step(l, Call(p, Leave, now, "", key)).0;
      var back := Step(left, Call(p, Join(name, None), now, "", key)).0;
      p in back.memory.members && back.memory.members[p].timeout == None
  {
    var leave, join := Call(p, Leave, now, "", key), Call(p, Join(name, None), now, "", key);
    LeaveStep(l, leave);
    hide Step;
    JoinStep(Step(l, leave).0, join);
  }

  lemma {:induction false} JoinStep(l: Live, e: Event)
    requires e.Call? && e.request.Join? && e.sender !in l.memory.members && e.sender !in l.memory.bans
    ensures var c := Step(l, e).0.memory; e.sender in c.members && c.members[e.sender].timeout == None
  {
    hide Persist, Welcome;
  }

  // ---------------------------------------------------------------------------
  // Bans
  // ---------------------------------------------------------------------------

  /** A ban is refused and recorded all the same if and only if it was allowed and its target is no member. */
  lemma {:induction false} RefusedBanStands(c: Community, sender: Pseudonym, target: Pseudonym, now: nat, key: Key)
    requires target !in c.bans
    ensures var (effect, answer) := DoBan(c, sender, target, now, key);
      answer == Error(403) && target in Apply(c, effect).bans <==>
      Cleared(c, sender, BAN_MEMBERS, now) && sender != target && Outranks(c, sender, target) && !IsMember(c, target)
  {
    hide Cleared, Outranks;
  }
}
