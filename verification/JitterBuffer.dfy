/**
 The jitter buffer of a voice participant: packets go in as they arrive and come out in sequence order.

 `Jitter` is the buffer as a value and `Pushed`, `Popped` and so on what each call does to it; the class does the same
 in place.
 */
module JitterBuffer {
  import opened Common

  type U32 = i: int | 0 <= i < 0x1_0000_0000

  const MAX_PACKETS: nat := 50

  /** The number after which counting starts again at zero. */
  const LAST_SEQUENCE: U32 := 0xFFFF_FFFF

  datatype Packet = Packet(sender: Bytes, sequence: U32, timestamp: nat, audio: Bytes)

  type Packets = map<U32, Packet>

  /** Moments are in nanoseconds. */
  datatype Jitter = Jitter(
    buffer: Packets,
    targetDelayMs: U32,
    next: nat,
    fillDone: bool,
    firstTime: Option<nat>)

  ghost predicate IsFirst(sn: U32, buffer: Packets) {
    sn in buffer && forall k :: k in buffer ==> sn <= k
  }

  ghost function First(buffer: Packets): (sn: U32)
    requires buffer != map[]
    ensures IsFirst(sn, buffer)
  {
    var any := AnyOf(buffer.Keys);
    var rest := buffer - {any};
    if rest == map[] then
      assert buffer == map[any := buffer[any]];
      any
    else
      assert forall k :: k in buffer ==> k == any || k in rest;
      var other := First(rest);
      if any < other then any else other
  }

  lemma {:induction false} FirstIs(sn: U32, buffer: Packets)
    requires IsFirst(sn, buffer)
    ensures buffer != map[] && First(buffer) == sn
  {
  }

  // ---------------------------------------------------------------------------
  // What each call does
  // ---------------------------------------------------------------------------

  /** All of the invariant but the bound on the depth. */
  ghost predicate Sound(s: Jitter) {
    && (forall k :: k in s.buffer ==> s.buffer[k].sequence == k)
    && (s.fillDone ==> forall k :: k in s.buffer ==> s.next <= k)
    && (if s.fillDone then s.next <= LAST_SEQUENCE else s.next == 0)
    && (s.firstTime.None? ==> s.buffer == map[])
    && (!s.fillDone && s.buffer == map[] ==> s.firstTime.None?)
  }

  ghost predicate Inv(s: Jitter) {
    Sound(s) && |s.buffer| <= MAX_PACKETS
  }

  /** The sequence number that comes after `sn`. */
  function After(sn: nat): nat {
    if sn == LAST_SEQUENCE then 0 else sn + 1
  }

  function New(targetDelayMs: U32): Jitter {
    Jitter(map[], targetDelayMs, 0, false, None)
  }

  predicate Late(s: Jitter, p: Packet) {
    s.fillDone && p.sequence < s.next
  }

  ghost function Inserted(s: Jitter, p: Packet, now: nat): Jitter {
    var stamped := if s.firstTime.None? then s.(firstTime := Some(now)) else s;
    if Late(s, p) then stamped else stamped.(buffer := s.buffer[p.sequence := p])
  }

  /** Without the first packet; once playing, the number to play next goes up by one with it. */
  ghost function DropFirst(s: Jitter): Jitter
    requires s.buffer != map[]
  {
    s.(buffer := s.buffer - {First(s.buffer)}, next := if s.fillDone then s.next + 1 else s.next)
  }

  ghost function Trimmed(s: Jitter): Jitter
    decreases |s.buffer|
  {
    if |s.buffer| <= MAX_PACKETS then s
    else
      CardWithout(s.buffer, First(s.buffer));
      Trimmed(DropFirst(s))
  }

  ghost function Pushed(s: Jitter, p: Packet, now: nat): Jitter {
    Trimmed(Inserted(s, p, now))
  }

  function ElapsedMs(since: nat, now: nat): nat {
    if now < since then 0 else (now - since) / 1_000_000
  }

  predicate Filled(s: Jitter, now: nat) {
    || |s.buffer| >= Max(s.targetDelayMs / 20, 1)
    || (s.firstTime.Some? && ElapsedMs(s.firstTime.value, now) >= s.targetDelayMs)
  }

  /** The buffer as playback sees it: once filled, it starts from the first packet. */
  ghost function Ready(s: Jitter, now: nat): Jitter {
    if s.fillDone || !Filled(s, now) then s
    else s.(fillDone := true, next := if s.buffer == map[] then s.next else First(s.buffer))
  }

  ghost function Next(s: Jitter, now: nat): Option<Packet> {
    var r := Ready(s, now);
    if r.fillDone && r.next in r.buffer then Some(r.buffer[r.next]) else None
  }

  ghost function Popped(s: Jitter, now: nat): Jitter {
    var r := Ready(s, now);
    if Next(s, now).Some? then r.(buffer := r.buffer - {r.next}, next := After(r.next)) else r
  }

  function ResetOf(s: Jitter): Jitter {
    New(s.targetDelayMs)
  }

  lemma {:induction false} CardWithout(buffer: Packets, sn: U32)
    requires sn in buffer
    ensures |buffer - {sn}| == |buffer| - 1
  {
  }

  lemma {:induction false} CardPut(buffer: Packets, p: Packet)
    ensures |buffer[p.sequence := p]| == if p.sequence in buffer then |buffer| else |buffer| + 1
  {
  }

  // ---------------------------------------------------------------------------
  // What holds in every state
  // ---------------------------------------------------------------------------

  lemma {:induction false} InsertKeeps(s: Jitter, p: Packet, now: nat)
    requires Inv(s)
    ensures Sound(Inserted(s, p, now))
    ensures |Inserted(s, p, now).buffer| <= MAX_PACKETS + 1
  {
  }

  /** Without its first packet, a buffer of several is as sound as before, and the next number has room to grow. */
  lemma {:induction false} DropFirstKeeps(s: Jitter)
    requires Sound(s) && |s.buffer| > 1
    ensures Sound(DropFirst(s)) && |DropFirst(s).buffer| == |s.buffer| - 1
  {
  }

  /** A push on a full buffer drops one packet, the first; any other push drops none. */
  lemma {:induction false} PushIs(s: Jitter, p: Packet, now: nat)
    requires Inv(s)
    ensures var t := Inserted(s, p, now);
            Pushed(s, p, now) == if |t.buffer| <= MAX_PACKETS then t else DropFirst(t)
    ensures Inv(Pushed(s, p, now))
  {
    InsertKeeps(s, p, now);
    var t := Inserted(s, p, now);
    hide Sound, Inserted, DropFirst, First;
    if |t.buffer| > MAX_PACKETS {
      DropFirstKeeps(t);
      assert Trimmed(DropFirst(t)) == DropFirst(t);
    }
  }

  /**
   What a push comes to: a late packet is dropped; any other is stored under its number, in place of one that was there,
   and on a full buffer the packet with the smallest number goes, the new one perhaps.
   */
  lemma {:induction false} PushStores(s: Jitter, p: Packet, now: nat)
    requires Inv(s)
    ensures var s' := Pushed(s, p, now);
      && s'.fillDone == s.fillDone && s'.targetDelayMs == s.targetDelayMs
      && if s.fillDone && p.sequence < s.next then s'.buffer == s.buffer && s'.next == s.next
         else
           var stored := s.buffer[p.sequence := p];
           if |stored| <= 50 then s'.buffer == stored && s'.next == s.next
           else
             exists sn :: IsFirst(sn, stored) && s'.buffer == stored - {sn} &&
                          s'.next == if s.fillDone then s.next + 1 else s.next
  {
    PushIs(s, p, now);
    hide Pushed, Inv;
    var t := Inserted(s, p, now);
    if |t.buffer| > MAX_PACKETS { assert IsFirst(First(t.buffer), t.buffer); }
  }

  lemma {:induction false} ReadyKeeps(s: Jitter, now: nat)
    requires Inv(s)
    ensures Inv(Ready(s, now))
  {
  }

  lemma {:induction false} PopKeeps(s: Jitter, now: nat)
    requires Inv(s)
    ensures Inv(Popped(s, now))
  {
    ReadyKeeps(s, now);
    if Next(s, now).Some? { CardWithout(Ready(s, now).buffer, Ready(s, now).next); }
  }

  // ---------------------------------------------------------------------------
  // Runs
  // ---------------------------------------------------------------------------

  datatype Event = Push(packet: Packet, at: nat) | Pop(at: nat) | SetTarget(ms: U32) | Reset

  ghost function Step(s: Jitter, e: Event): Jitter {
    match e
    case Push(p, at) => Pushed(s, p, at)
    case Pop(at) => Popped(s, at)
    case SetTarget(ms) => s.(targetDelayMs := ms)
    case Reset => ResetOf(s)
  }

  ghost function Out(s: Jitter, e: Event): seq<Packet> {
    if e.Pop? && Next(s, e.at).Some? then [Next(s, e.at).value] else []
  }

  ghost function Run(s: Jitter, events: seq<Event>): Jitter {
    if events == [] then s else Step(Run(s, events[..|events| - 1]), events[|events| - 1])
  }

  /** The packets handed to the decoder, in order. */
  ghost function Delivered(s: Jitter, events: seq<Event>): seq<Packet> {
    if events == [] then []
    else Delivered(s, events[..|events| - 1]) + Out(Run(s, events[..|events| - 1]), events[|events| - 1])
  }

  /** How many packets a push drops from the front of a buffer that is already playing. */
  ghost function TrimsOf(s: Jitter, e: Event): nat {
    if e.Push? && s.fillDone && |Inserted(s, e.packet, e.at).buffer| > MAX_PACKETS then 1 else 0
  }

  ghost function Trims(s: Jitter, events: seq<Event>): nat {
    if events == [] then 0
    else Trims(s, events[..|events| - 1]) + TrimsOf(Run(s, events[..|events| - 1]), events[|events| - 1])
  }

  /** A stretch between two resets. */
  ghost predicate NoReset(events: seq<Event>) {
    forall i :: 0 <= i < |events| ==> !events[i].Reset?
  }

  /** A push moves the number to play next only by trimming, and then not past the last one. */
  lemma {:induction false} PushStep(s: Jitter, p: Packet, at: nat)
    requires Inv(s)
    ensures Inv(Pushed(s, p, at))
    ensures s.fillDone == Pushed(s, p, at).fillDone
    ensures s.fillDone ==> Pushed(s, p, at).next == s.next + TrimsOf(s, Push(p, at)) <= LAST_SEQUENCE
  {
    PushIs(s, p, at);
  }

  /** A pop delivers at most one packet, not before the number to play next, and moves on to the number after it. */
  lemma {:induction false} PopStep(s: Jitter, at: nat)
    requires Inv(s)
    ensures Inv(Popped(s, at))
    ensures s.fillDone || Next(s, at).Some? ==> Popped(s, at).fillDone
    ensures match Next(s, at)
            case Some(p) =>
              && s.next <= p.sequence
              && (s.fillDone ==> p.sequence == s.next)
              && Popped(s, at).next == After(p.sequence)
            case None => s.fillDone ==> Popped(s, at).next == s.next
  {
    ReadyKeeps(s, at);
    PopKeeps(s, at);
  }

  /** One event: what it does to the number played next, to what is delivered, and to the invariant. */
  lemma {:induction false} StepIs(s: Jitter, e: Event)
    requires Inv(s) && !e.Reset?
    ensures Inv(Step(s, e))
    ensures s.fillDone ==> Step(s, e).fillDone
    ensures s.fillDone && Out(s, e) == [] ==> Step(s, e).next == s.next + TrimsOf(s, e) <= LAST_SEQUENCE
    ensures Out(s, e) != [] ==>
              && Step(s, e).fillDone
              && |Out(s, e)| == 1
              && TrimsOf(s, e) == 0
              && s.next <= Out(s, e)[0].sequence
              && (s.fillDone ==> Out(s, e)[0].sequence == s.next)
              && Step(s, e).next == After(Out(s, e)[0].sequence)
  {
    hide Pushed, Popped, Next;
    match e {
      case Push(p, at) => PushStep(s, p, at);
      case Pop(at) => PopStep(s, at);
      case SetTarget(_) =>
    }
  }

  lemma {:induction false} RunKeeps(s: Jitter, events: seq<Event>)
    requires Inv(s)
    ensures Inv(Run(s, events))
  {
    if events != [] {
      var init, e := events[..|events| - 1], events[|events| - 1];
      RunKeeps(s, init);
      if !e.Reset? { StepIs(Run(s, init), e); }
    }
  }

  /**
   In every state reached from a new buffer there are at most fifty packets, each under its own number, and once
   playback has begun none of them lies before the number to play next.
   */
  lemma {:induction false} ReachableBuffersAreSound(targetDelayMs: U32, events: seq<Event>)
    ensures var s := Run(New(targetDelayMs), events);
            && |s.buffer| <= MAX_PACKETS
            && (forall k :: k in s.buffer ==> s.buffer[k].sequence == k)
            && (s.fillDone ==> forall k :: k in s.buffer ==> s.next <= k)
            && s.next <= LAST_SEQUENCE
  {
    RunKeeps(New(targetDelayMs), events);
  }

  /** Each number delivered is above the one before, except just after the last number there is. */
  ghost predicate InSequence(packets: seq<Packet>) {
    forall i :: 0 <= i < |packets| - 1 ==>
      (packets[i].sequence < packets[i + 1].sequence <==> packets[i].sequence != LAST_SEQUENCE)
  }

  /** What has been played lies from the first number expected up to the one expected now. */
  ghost predicate PlayedUpTo(s: Jitter, played: seq<Packet>, r: Jitter) {
    if played == [] then s.fillDone ==> r.fillDone && s.next <= r.next
    else
      var last := played[|played| - 1].sequence;
      r.fillDone && s.next <= played[0].sequence && (last < r.next || last == LAST_SEQUENCE)
  }

  lemma {:induction false} PlaybackStep(s: Jitter, played: seq<Packet>, r: Jitter, e: Event)
    requires Inv(s) && Inv(r) && !e.Reset?
    requires InSequence(played) && PlayedUpTo(s, played, r)
    ensures InSequence(played + Out(r, e)) && PlayedUpTo(s, played + Out(r, e), Step(r, e))
  {
    hide Inv, Step, Out, TrimsOf;
    NothingExpected(s);
    StepIs(r, e);
  }

  lemma NothingExpected(s: Jitter)
    requires Inv(s)
    ensures s.fillDone || s.next == 0
  {
  }

  /** The order of playback: nothing late, nothing twice, until the numbers wrap. */
  lemma {:induction false} PlaybackOrder(s: Jitter, events: seq<Event>)
    requires Inv(s) && NoReset(events)
    ensures InSequence(Delivered(s, events)) && PlayedUpTo(s, Delivered(s, events), Run(s, events))
  {
    hide Inv, Step, Out, InSequence, PlayedUpTo;
    if events != [] {
      var init, e := events[..|events| - 1], events[|events| - 1];
      assert !e.Reset?;
      PlaybackOrder(s, init);
      RunKeeps(s, init);
      PlaybackStep(s, Delivered(s, init), Run(s, init), e);
    } else {
      NothingPlayed(s);
    }
  }

  lemma {:induction false} NothingPlayed(s: Jitter)
    ensures InSequence([]) && PlayedUpTo(s, [], s)
  {
  }

  /** Between two wraps the numbers rise strictly, however far apart. */
  lemma {:induction false} RisesBetweenWraps(packets: seq<Packet>, i: nat, j: nat)
    requires InSequence(packets) && i < j < |packets|
    requires forall k :: i <= k < j ==> packets[k].sequence != LAST_SEQUENCE
    ensures packets[i].sequence < packets[j].sequence
    decreases j
  {
    assert packets[j - 1].sequence < packets[j - 1 + 1].sequence;
    if i < j - 1 { RisesBetweenWraps(packets, i, j - 1); }
  }

  /** The sequence number `n` places after `sn`. */
  function Later(sn: nat, n: nat): nat {
    if n == 0 then sn else After(Later(sn, n - 1))
  }

  lemma {:induction false} LaterWraps(sn: U32, n: nat)
    ensures Later(sn, n) == (sn + n) % 0x1_0000_0000
  {
    if n > 0 { LaterWraps(sn, n - 1); }
  }

  /** How a run goes on by one event. */
  lemma {:induction false} OneMore(s: Jitter, init: seq<Event>, e: Event)
    ensures Run(s, init + [e]) == Step(Run(s, init), e)
    ensures Delivered(s, init + [e]) == Delivered(s, init) + Out(Run(s, init), e)
    ensures Trims(s, init + [e]) == Trims(s, init) + TrimsOf(Run(s, init), e)
  {
    assert (init + [e])[..|init + [e]| - 1] == init;
  }

  /** One more event: it delivers the number expected, or moves past it by trimming, or leaves it alone. */
  lemma {:induction false} AccountStep(r: Jitter, e: Event)
    requires Inv(r) && r.fillDone && !e.Reset?
    ensures Step(r, e).fillDone
    ensures || (Out(r, e) == [] && Step(r, e).next == Later(r.next, TrimsOf(r, e)))
            || (&& |Out(r, e)| == 1 && Out(r, e)[0].sequence == r.next
                && TrimsOf(r, e) == 0 && Step(r, e).next == Later(r.next, 1))
  {
    StepIs(r, e);
    assert TrimsOf(r, e) <= 1;
    assert Later(r.next, 0) == r.next;
    assert Later(r.next, 1) == After(Later(r.next, 0));
    hide Step, Out, Inv, TrimsOf, Later;
  }

  lemma {:induction false} LaterAdds(sn: nat, m: nat, n: nat)
    ensures Later(Later(sn, m), n) == Later(sn, m + n)
  {
    if n > 0 { LaterAdds(sn, m, n - 1); }
  }

  /** Conservation: the number to play next goes up by one, wrapping, for each packet delivered or trimmed. */
  lemma {:induction false} EveryNumberIsAccounted(s: Jitter, events: seq<Event>)
    requires Inv(s) && s.fillDone && NoReset(events)
    ensures Run(s, events).fillDone
    ensures Run(s, events).next == Later(s.next, |Delivered(s, events)| + Trims(s, events))
  {
    hide Inv, Step, Out, TrimsOf;
    if events != [] {
      var init, e := events[..|events| - 1], events[|events| - 1];
      assert events == init + [e] && !e.Reset?;
      EveryNumberIsAccounted(s, init);
      RunKeeps(s, init);
      OneMore(s, init, e);
      var r := Run(s, init);
      AccountStep(r, e);
      LaterAdds(s.next, |Delivered(s, init)| + Trims(s, init), |Out(r, e)| + TrimsOf(r, e));
    }
  }

  /** While nothing is trimmed, the packets delivered are consecutive, starting with the number expected. */
  lemma {:induction false} ConsecutiveUnlessTrimmed(s: Jitter, events: seq<Event>)
    requires Inv(s) && s.fillDone && NoReset(events) && Trims(s, events) == 0
    ensures forall i :: 0 <= i < |Delivered(s, events)| ==>
              Delivered(s, events)[i].sequence == Later(s.next, i)
  {
    hide Inv, Step, Out, TrimsOf;
    if events != [] {
      var init, e := events[..|events| - 1], events[|events| - 1];
      assert events == init + [e] && !e.Reset?;
      OneMore(s, init, e);
      ConsecutiveUnlessTrimmed(s, init);
      EveryNumberIsAccounted(s, init);
      RunKeeps(s, init);
      AccountStep(Run(s, init), e);
    }
  }

  // ---------------------------------------------------------------------------
  // The initial fill
  // ---------------------------------------------------------------------------

  /**
   Playing starts exactly when the fill completes, and with the smallest number buffered: when there is a packet for
   every 20 milliseconds of the target, at least one, or when the target has passed since the first arrival.
   */
  lemma {:induction false} FirstDelivery(s: Jitter, now: nat)
    requires Inv(s) && !s.fillDone
    ensures Next(s, now).Some? <==>
            || (|s.buffer| >= 1 && |s.buffer| >= s.targetDelayMs / 20)
            || (s.firstTime.Some? && now >= s.firstTime.value + 1_000_000 * s.targetDelayMs)
    ensures Next(s, now).Some? ==> IsFirst(Next(s, now).value.sequence, s.buffer) &&
                                   Next(s, now).value == s.buffer[Next(s, now).value.sequence]
  {
  }

  /** A playing buffer delivers the packet expected, takes it out and expects the next number; or it has nothing. */
  lemma {:induction false} PopIs(s: Jitter, now: nat)
    requires Inv(s) && s.fillDone
    ensures if s.next in s.buffer then
              && Next(s, now) == Some(s.buffer[s.next])
              && Popped(s, now) ==
                   s.(buffer := s.buffer - {s.next}, next := if s.next == 0xFFFF_FFFF then 0 else s.next + 1)
            else Next(s, now) == None && Popped(s, now) == s
  {
  }

  /** The time at which the first packet arrived. */
  function FirstArrival(events: seq<Event>): Option<nat> {
    if events == [] then None
    else
      var before, e := FirstArrival(events[..|events| - 1]), events[|events| - 1];
      if before.None? && e.Push? then Some(e.at) else before
  }

  /** The clock of the initial fill starts with the first packet and is not set again. */
  lemma {:induction false} ClockStartsWithTheFirst(targetDelayMs: U32, events: seq<Event>)
    requires NoReset(events)
    ensures Run(New(targetDelayMs), events).firstTime == FirstArrival(events)
  {
    if events != [] {
      var init, e := events[..|events| - 1], events[|events| - 1];
      ClockStartsWithTheFirst(targetDelayMs, init);
      var s := Run(New(targetDelayMs), init);
      RunKeeps(New(targetDelayMs), init);
      assert !e.Reset?;
      hide Inv, Run;
      ClockStep(s, e);
    }
  }

  lemma {:induction false} ClockStep(s: Jitter, e: Event)
    requires Inv(s) && !e.Reset?
    ensures Step(s, e).firstTime == if s.firstTime.None? && e.Push? then Some(e.at) else s.firstTime
  {
    if e.Push? {
      PushIs(s, e.packet, e.at);
      hide Pushed;
    }
  }

  /** Until the fill completes, the buffer is empty exactly when nothing has arrived since the last reset. */
  lemma {:induction false} EmptyUntilArrival(targetDelayMs: U32, events: seq<Event>)
    requires NoReset(events) && !Run(New(targetDelayMs), events).fillDone
    ensures Run(New(targetDelayMs), events).buffer == map[] <==> forall e :: e in events ==> !e.Push?
  {
    if events != [] {
      var init, e := events[..|events| - 1], events[|events| - 1];
      RunKeeps(New(targetDelayMs), init);
      assert !e.Reset?;
      var s := Run(New(targetDelayMs), init);
      StepIs(s, e);
      EmptyUntilArrival(targetDelayMs, init);
      assert events == init + [e];
      if e.Push? {
        PushIs(s, e.packet, e.at);
        InsertKeeps(s, e.packet, e.at);
        assert e.packet.sequence in Inserted(s, e.packet, e.at).buffer;
        assert Pushed(s, e.packet, e.at).firstTime.Some?;
      }
    }
  }

  // ---------------------------------------------------------------------------
  // A missing packet
  // ---------------------------------------------------------------------------

  ghost predicate Starved(s: Jitter) {
    s.fillDone && s.next !in s.buffer
  }

  /**
   The gap lemma. While the expected packet is missing nothing is delivered, and only a push of exactly the number
   expected ends the wait - on a full buffer not even that, unless the number after it is there, since trimming
   then drops the new packet itself.
   */
  lemma {:induction false} GapLemma(s: Jitter, e: Event)
    requires Inv(s) && Starved(s) && !e.Reset?
    ensures Out(s, e) == []
    ensures !Starved(Step(s, e)) <==>
            e.Push? && e.packet.sequence == s.next && (|s.buffer| < MAX_PACKETS || s.next + 1 in s.buffer)
  {
    if e.Push? {
      var t := Inserted(s, e.packet, e.at);
      PushIs(s, e.packet, e.at);
      CardPut(s.buffer, e.packet);
      if |t.buffer| > MAX_PACKETS {
        assert IsFirst(First(t.buffer), t.buffer);
        if e.packet.sequence == s.next { FirstIs(s.next, t.buffer); }
      }
    }
  }

  /** No push is of the number expected at the time. */
  ghost predicate NeverExpected(s: Jitter, events: seq<Event>) {
    forall i :: 0 <= i < |events| && events[i].Push? ==> events[i].packet.sequence != Run(s, events[..i]).next
  }

  /** However much arrives, trimming included, a wait goes on until the number expected is pushed. */
  lemma {:induction false} WaitsForTheExpected(s: Jitter, events: seq<Event>)
    requires Inv(s) && Starved(s) && NoReset(events) && NeverExpected(s, events)
    ensures Starved(Run(s, events)) && Delivered(s, events) == []
  {
    if events != [] {
      var init, e := events[..|events| - 1], events[|events| - 1];
      forall i | 0 <= i < |init| && init[i].Push? ensures init[i].packet.sequence != Run(s, init[..i]).next {
        assert init[..i] == events[..i];
      }
      WaitsForTheExpected(s, init);
      RunKeeps(s, init);
      assert !e.Reset?;
      GapLemma(Run(s, init), e);
    }
  }

  /** Packets arrive in order: each later than everything buffered at the start or pushed before it. */
  ghost predicate InOrder(s: Jitter, events: seq<Event>) {
    && (forall i, k :: 0 <= i < |events| && events[i].Push? && k in s.buffer ==> k < events[i].packet.sequence)
    && (forall i, j :: 0 <= i < j < |events| && events[i].Push? && events[j].Push? ==>
          events[i].packet.sequence < events[j].packet.sequence)
  }

  /** What is buffered was buffered at the start or pushed since. */
  ghost predicate From(k: U32, s: Jitter, events: seq<Event>) {
    k in s.buffer || exists i :: 0 <= i < |events| && events[i].Push? && events[i].packet.sequence == k
  }

  lemma {:induction false} BufferComesFrom(s: Jitter, events: seq<Event>)
    requires Inv(s) && NoReset(events)
    ensures forall k :: k in Run(s, events).buffer ==> From(k, s, events)
  {
    if events != [] {
      var init, e := events[..|events| - 1], events[|events| - 1];
      BufferComesFrom(s, init);
      RunKeeps(s, init);
      assert !e.Reset?;
      StepBuffer(Run(s, init), e);
      hide Step;
      forall k | k in Run(s, events).buffer ensures From(k, s, events) {
        if k in Run(s, init).buffer { FromLater(k, s, init, e); }
      }
    }
  }

  lemma {:induction false} FromLater(k: U32, s: Jitter, init: seq<Event>, e: Event)
    requires From(k, s, init)
    ensures From(k, s, init + [e])
  {
    if k !in s.buffer {
      var i :| 0 <= i < |init| && init[i].Push? && init[i].packet.sequence == k;
      assert (init + [e])[i] == init[i];
    }
  }

  /** While a packet later than the one expected is buffered, a push of a later one still does not end the wait. */
  lemma {:induction false} LossStep(s: Jitter, k: U32, e: Event)
    requires Inv(s) && Starved(s) && !e.Reset? && k in s.buffer
    requires e.Push? ==> k < e.packet.sequence
    ensures Out(s, e) == [] && Starved(Step(s, e)) && Step(s, e).buffer != map[]
  {
    GapLemma(s, e);
    if e.Push? {
      PushIs(s, e.packet, e.at);
      CardPut(s.buffer, e.packet);
    }
  }

  /**
   One packet lost, a later one buffered, and everything after that arriving in order: nothing is ever delivered
   again, until a reset.
   */
  lemma {:induction false} LossSilencesPlayback(s: Jitter, events: seq<Event>)
    requires Inv(s) && Starved(s) && s.buffer != map[]
    requires NoReset(events) && InOrder(s, events)
    ensures Delivered(s, events) == []
    ensures Starved(Run(s, events)) && Run(s, events).buffer != map[]
  {
    if events != [] {
      var init, e := events[..|events| - 1], events[|events| - 1];
      assert forall i :: 0 <= i < |init| ==> init[i] == events[i];
      LossSilencesPlayback(s, init);
      RunKeeps(s, init);
      BufferComesFrom(s, init);
      assert !e.Reset?;
      var k :| k in Run(s, init).buffer;
      assert From(k, s, init);
      hide Inv, Starved, Step, Out;
      LossStep(Run(s, init), k, e);
    }
  }

  /** What one event leaves in the buffer was there before or has just been pushed. */
  lemma {:induction false} StepBuffer(s: Jitter, e: Event)
    requires Inv(s) && !e.Reset?
    ensures forall k :: k in Step(s, e).buffer ==>
              || (k in s.buffer && Step(s, e).buffer[k] == s.buffer[k])
              || (e.Push? && k == e.packet.sequence && Step(s, e).buffer[k] == e.packet)
    ensures forall p :: p in Out(s, e) ==> exists k :: k in s.buffer && s.buffer[k] == p
  {
    if e.Push? { PushIs(s, e.packet, e.at); }
  }

  /** Every packet delivered is one that was pushed. */
  lemma {:induction false} DeliveredWerePushed(targetDelayMs: U32, events: seq<Event>)
    ensures forall p :: p in Delivered(New(targetDelayMs), events) ==> WasPushed(p, events)
    ensures forall k :: k in Run(New(targetDelayMs), events).buffer ==>
              WasPushed(Run(New(targetDelayMs), events).buffer[k], events)
  {
    if events != [] {
      var init, e := events[..|events| - 1], events[|events| - 1];
      DeliveredWerePushed(targetDelayMs, init);
      var before := Run(New(targetDelayMs), init);
      RunKeeps(New(targetDelayMs), init);
      if !e.Reset? { StepBuffer(before, e); }
      assert e.Push? ==> WasPushed(e.packet, events);
      forall p | WasPushed(p, init) ensures WasPushed(p, events) {
        var i :| 0 <= i < |init| && init[i].Push? && init[i].packet == p;
        assert events[i] == init[i];
      }
    }
  }

  ghost predicate WasPushed(p: Packet, events: seq<Event>) {
    exists i :: 0 <= i < |events| && events[i].Push? && events[i].packet == p
  }

  // ---------------------------------------------------------------------------
  // The buffer in place
  // ---------------------------------------------------------------------------

  class Buffer {
    var buffer: Packets
    var targetDelayMs: U32
    var nextPlaybackSeq: U32
    var initialFillDone: bool
    var firstPacketTime: Option<nat>

    ghost function View(): Jitter
      reads this
    {
      Jitter(buffer, targetDelayMs, nextPlaybackSeq, initialFillDone, firstPacketTime)
    }

    ghost predicate Valid()
      reads this
    {
      Inv(View())
    }

    constructor (targetDelayMs: U32)
      ensures Valid() && View() == Jitter(map[], targetDelayMs, 0, false, None)
    {
      buffer := map[];
      this.targetDelayMs := targetDelayMs;
      nextPlaybackSeq := 0;
      initialFillDone := false;
      firstPacketTime := None;
    }

    method FirstKey() returns (first: U32)
      requires buffer != map[]
      ensures IsFirst(first, buffer)
    {
      var rest := buffer.Keys;
      assert rest != {};
      first :| first in rest;
      rest := rest - {first};
      while rest != {}
        invariant first in buffer && rest <= buffer.Keys
        invariant forall k :: k in buffer && k !in rest ==> first <= k
        decreases |rest|
      {
        var k :| k in rest;
        if k < first { first := k; }
        rest := rest - {k};
      }
    }

    method Push(packet: Packet, now: nat)
      requires Valid()
      modifies this
      ensures Valid() && View() == Pushed(old(View()), packet, now)
    {
      ghost var s := View();
      PushIs(s, packet, now);
      InsertKeeps(s, packet, now);
      var sn := packet.sequence;
      if firstPacketTime.None? {
        firstPacketTime := Some(now);
      }
      if initialFillDone && sn < nextPlaybackSeq {
        return;
      }
      buffer := buffer[sn := packet];
      assert View() == Inserted(s, packet, now);
      Trim();
    }

    /** The trimming loop of `Push`. */
    method Trim()
      requires Sound(View())
      modifies this
      ensures View() == Trimmed(old(View()))
    {
      while |buffer| > MAX_PACKETS
        invariant Sound(View()) && Trimmed(View()) == Trimmed(old(View()))
        decreases |buffer|
      {
        ghost var t := View();
        DropFirstKeeps(t);
        var first := FirstKey();
        FirstIs(first, buffer);
        buffer := buffer - {first};
        if initialFillDone {
          nextPlaybackSeq := nextPlaybackSeq + 1;
        }
        assert View() == DropFirst(t);
      }
    }

    method CheckInitialFill(now: nat) returns (filled: bool)
      modifies this`initialFillDone
      ensures filled == Filled(View(), now)
      ensures initialFillDone == (old(initialFillDone) || filled)
    {
      var targetPackets := Max(targetDelayMs / 20, 1);
      if |buffer| >= targetPackets {
        initialFillDone := true;
        return true;
      }
      if firstPacketTime.Some? {
        if ElapsedMs(firstPacketTime.value, now) >= targetDelayMs {
          initialFillDone := true;
          return true;
        }
      }
      return false;
    }

    method Pop(now: nat) returns (packet: Option<Packet>)
      requires Valid()
      modifies this
      ensures Valid() && View() == Popped(old(View()), now)
      ensures packet == Next(old(View()), now)
    {
      ghost var s := View();
      ReadyKeeps(s, now);
      PopKeeps(s, now);
      if !initialFillDone {
        var filled := CheckInitialFill(now);
        if !filled {
          return None;
        }
        if buffer != map[] {
          nextPlaybackSeq := FirstKey();
          FirstIs(nextPlaybackSeq, buffer);
        }
      }
      assert View() == Ready(s, now);
      if nextPlaybackSeq in buffer {
        packet := Some(buffer[nextPlaybackSeq]);
        buffer := buffer - {nextPlaybackSeq};
        nextPlaybackSeq := After(nextPlaybackSeq);
      } else {
        packet := None;
      }
    }

    /** The packet after the one expected, whose redundancy can stand in for it; none after the last number. */
    method PeekNextAudioData() returns (audio: Option<Bytes>)
      requires Valid()
      ensures audio == if initialFillDone && nextPlaybackSeq + 1 in buffer
                       then Some(buffer[nextPlaybackSeq + 1].audio) else None
    {
      if !initialFillDone {
        return None;
      }
      var nextSn: U32 := After(nextPlaybackSeq);
      return if nextSn in buffer then Some(buffer[nextSn].audio) else None;
    }

    method SetTargetDelayMs(ms: U32)
      requires Valid()
      modifies this`targetDelayMs
      ensures Valid() && View() == old(View()).(targetDelayMs := ms) == Step(old(View()), SetTarget(ms))
    {
      targetDelayMs := ms;
    }

    method Reset()
      modifies this
      ensures Valid() && View() == Jitter(map[], old(targetDelayMs), 0, false, None) == Step(old(View()), Event.Reset)
    {
      buffer := map[];
      nextPlaybackSeq := 0;
      initialFillDone := false;
      firstPacketTime := None;
    }
  }
}
