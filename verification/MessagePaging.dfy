/**
 Reading a channel back page by page: ask for the newest messages, then for those before the oldest one received.
 */
module MessagePaging {
  import opened Common
  import opened Permissions
  import opened Sorting
  import opened CommunityModel

  /** The rows a reader has not seen after one page: those before the oldest message received. */
  function Remaining(rows: seq<Message>, limit: nat): (rest: seq<Message>)
    requires 1 <= limit && rows != []
    ensures |rest| < |rows|
  {
    var page := Newest(rows, limit);
    BelowShrinks(rows, |rows| - |page|);
    Below(rows, BY_TIME, page[0].timestamp)
  }

  /** The pages a reader gathers from rows in time order. */
  function PageBack(rows: seq<Message>, limit: nat): seq<Message>
    requires 1 <= limit
    decreases |rows|
  {
    if rows == [] then [] else PageBack(Remaining(rows, limit), limit) + Newest(rows, limit)
  }

  lemma {:induction false} PageBackOne(rows: seq<Message>, limit: nat)
    requires 1 <= limit && rows != []
    ensures PageBack(rows, limit) == PageBack(Remaining(rows, limit), limit) + Newest(rows, limit)
  {
  }

  lemma {:induction false} BelowLength(rows: seq<Message>, bound: int)
    ensures |Below(rows, BY_TIME, bound)| <= |rows|
  {
    if rows != [] { BelowLength(rows[..|rows| - 1], bound); }
  }

  lemma {:induction false} BelowShrinks(rows: seq<Message>, i: nat)
    requires i < |rows|
    ensures |Below(rows, BY_TIME, rows[i].timestamp)| < |rows|
  {
    var n := |rows| - 1;
    BelowLength(rows[..n], rows[i].timestamp);
    if i < n { BelowShrinks(rows[..n], i); }
  }

  /** In time order, the rows below a bound are a prefix, and the cut is exact. */
  lemma {:induction false} BelowIsPrefix(rows: seq<Message>, bound: int)
    requires Sorted(rows, BY_TIME)
    ensures var k := |Below(rows, BY_TIME, bound)|;
      k <= |rows| && Below(rows, BY_TIME, bound) == rows[..k]
      && (forall i :: 0 <= i < k ==> rows[i].timestamp < bound)
      && (forall i :: k <= i < |rows| ==> rows[i].timestamp >= bound)
  {
    if rows != [] {
      var n := |rows| - 1;
      BelowIsPrefix(rows[..n], bound);
      var k := |Below(rows[..n], BY_TIME, bound)|;
      if rows[n].timestamp < bound {
        assert forall i :: 0 <= i < n ==> BY_TIME(rows[i]) <= BY_TIME(rows[n]);
      }
    }
  }

  /** Every page boundary, counted from the newest message, falls between two different timestamps. */
  predicate CutsClean(rows: seq<Message>, limit: nat)
    requires 1 <= limit
    decreases |rows|
  {
    |rows| <= limit ||
    (rows[|rows| - limit - 1].timestamp != rows[|rows| - limit].timestamp && CutsClean(rows[..|rows| - limit], limit))
  }

  /** One page: it is the tail of the rows, and what is left to ask for is a prefix, short of it only by ties. */
  lemma {:induction false} OnePage(rows: seq<Message>, limit: nat) returns (n: nat, k: nat)
    requires 1 <= limit && Sorted(rows, BY_TIME) && rows != []
    ensures n == if |rows| <= limit then 0 else |rows| - limit
    ensures k <= n < |rows|
    ensures Remaining(rows, limit) == rows[..k] == Below(rows, BY_TIME, rows[n].timestamp)
    ensures Newest(rows, limit) == rows[n..]
    ensures k == n <==> n == 0 || rows[n - 1].timestamp != rows[n].timestamp
  {
    n := if |rows| <= limit then 0 else |rows| - limit;
    var page := Newest(rows, limit);
    assert page == rows[n..] && page[0] == rows[n];
    BelowShrinks(rows, n);
    BelowIsPrefix(rows, rows[n].timestamp);
    k := |Below(rows, BY_TIME, rows[n].timestamp)|;
    if n > 0 { assert BY_TIME(rows[n - 1]) <= BY_TIME(rows[n]); }
  }

  lemma {:induction false} PageBackLength(rows: seq<Message>, limit: nat)
    requires 1 <= limit && Sorted(rows, BY_TIME)
    ensures |PageBack(rows, limit)| <= |rows|
    decreases |rows|
  {
    if rows != [] {
      var n, k := OnePage(rows, limit);
      PageBackLength(rows[..k], limit);
    }
  }

  /** Paging gives back the whole history, in order, exactly when no page boundary splits a tie. */
  lemma {:induction false} PageBackComplete(rows: seq<Message>, limit: nat)
    requires 1 <= limit && Sorted(rows, BY_TIME)
    ensures PageBack(rows, limit) == rows <==> CutsClean(rows, limit)
    decreases |rows|
  {
    hide Below, Newest;
    if rows != [] {
      var n, k := OnePage(rows, limit);
      var rest, page := rows[..k], rows[n..];
      assert PageBack(rows, limit) == PageBack(rest, limit) + page;
      PageBackLength(rest, limit);
      CutStep(rows, limit);
      hide PageBack, CutsClean, Remaining;
      if k == n {
        PageBackComplete(rest, limit);
        SameFront(PageBack(rest, limit), rest, page);
        assert rows == rest + page;
      }
    }
  }

  lemma {:induction false} CutStep(rows: seq<Message>, limit: nat)
    requires 1 <= limit && rows != []
    ensures var n := if |rows| <= limit then 0 else |rows| - limit;
      CutsClean(rows, limit) <==>
      (n == 0 || rows[n - 1].timestamp != rows[n].timestamp) && CutsClean(rows[..n], limit)
  {
  }

  lemma {:induction false} SameFront<T>(a: seq<T>, b: seq<T>, t: seq<T>)
    ensures a + t == b + t <==> a == b
  {
    if a + t == b + t {
      assert a == (a + t)[..|a|] && b == (b + t)[..|b|];
    }
  }

  /** No message comes twice and none is made up, whatever the ties. */
  lemma {:induction false} PageBackOnlyOnce(rows: seq<Message>, limit: nat)
    requires 1 <= limit && Sorted(rows, BY_TIME)
    ensures multiset(PageBack(rows, limit)) <= multiset(rows)
    decreases |rows|
  {
    hide Below, Newest;
    if rows != [] {
      var n, k := OnePage(rows, limit);
      PageBackOnlyOnce(rows[..k], limit);
      PageBackOne(rows, limit);
      hide PageBack;
      assert rows == rows[..k] + rows[k..n] + rows[n..];
      WithTail(PageBack(rows[..k], limit), rows[..k], rows[k..n], rows[n..]);
    }
  }

  lemma {:induction false} WithTail<T>(a: seq<T>, b: seq<T>, gap: seq<T>, t: seq<T>)
    requires multiset(a) <= multiset(b)
    ensures multiset(a + t) <= multiset(b + gap + t)
  {
  }

  ghost predicate DistinctTimes(rows: seq<Message>) {
    forall i, j :: 0 <= i < j < |rows| ==> rows[i].timestamp != rows[j].timestamp
  }

  lemma {:induction false} DistinctTimesCutClean(rows: seq<Message>, limit: nat)
    requires 1 <= limit && DistinctTimes(rows)
    ensures CutsClean(rows, limit)
    decreases |rows|
  {
    if |rows| > limit {
      DistinctTimesCutClean(rows[..|rows| - limit], limit);
    }
  }

  lemma {:induction false} SinglesCutEverywhere(rows: seq<Message>)
    requires Sorted(rows, BY_TIME) && CutsClean(rows, 1)
    ensures DistinctTimes(rows)
  {
    if |rows| > 1 {
      var n := |rows| - 1;
      SinglesCutEverywhere(rows[..n]);
      assert CutsClean(rows[..n], 1);
      forall i | 0 <= i < n ensures rows[i].timestamp != rows[n].timestamp {
        assert BY_TIME(rows[i]) <= BY_TIME(rows[n - 1]) <= BY_TIME(rows[n]);
      }
    }
  }

  /** Paging is complete for every page size exactly when no two messages share a timestamp. */
  lemma {:induction false} CompleteForEverySize(rows: seq<Message>)
    requires Sorted(rows, BY_TIME)
    ensures (forall limit: nat :: 1 <= limit ==> PageBack(rows, limit) == rows) <==> DistinctTimes(rows)
  {
    if DistinctTimes(rows) {
      forall limit: nat | 1 <= limit ensures PageBack(rows, limit) == rows {
        DistinctTimesCutClean(rows, limit);
        PageBackComplete(rows, limit);
      }
    } else {
      PageBackComplete(rows, 1);
      if CutsClean(rows, 1) { SinglesCutEverywhere(rows); }
    }
  }

  // ---------------------------------------------------------------------------
  // One answer
  // ---------------------------------------------------------------------------

  predicate Matches(m: Message, channel: ChannelId, before: Option<nat>) {
    && m.channel == channel
    && (before.Some? ==>
          m.timestamp < if before.value < 0x8000_0000_0000_0000 then before.value else 0x7FFF_FFFF_FFFF_FFFF)
  }

  lemma {:induction false} MatchingPush(init: seq<Message>, m: Message, channel: ChannelId, before: Option<nat>)
    ensures Matching(init + [m], channel, before) ==
            if Matches(m, channel, before) then Matching(init, channel, before) + [m]
            else Matching(init, channel, before)
  {
    var all := init + [m];
    assert all[..|all| - 1] == init;
    if before.Some? { BelowPush(InChannel(init, channel), m, BY_TIME, ToI64(before.value)); }
  }

  /** The matching rows are exactly the stored messages that match, as often as they are stored. */
  lemma {:induction false} MatchingIs(log: seq<Message>, channel: ChannelId, before: Option<nat>, m: Message)
    ensures multiset(Matching(log, channel, before))[m] == if Matches(m, channel, before) then multiset(log)[m] else 0
  {
    if log != [] {
      var init, last := log[..|log| - 1], log[|log| - 1];
      assert log == init + [last];
      MatchingIs(init, channel, before, m);
      MatchingPush(init, last, channel, before);
      hide Matching;
    }
  }

  /** As many of the rows as `limit` allows, in time order, and none left out that is newer than one of them. */
  ghost predicate IsNewestPage(page: seq<Message>, rows: seq<Message>, limit: nat) {
    && |page| == Min(|rows|, limit)
    && Sorted(page, BY_TIME)
    && multiset(page) <= multiset(rows)
    && (forall m, n :: multiset(rows)[m] > multiset(page)[m] && n in page ==> m.timestamp <= n.timestamp)
  }

  /** What a sorted history holds from `k` on is its newest page. */
  lemma {:induction false} TailIsNewest(sorted: seq<Message>, k: nat)
    requires Sorted(sorted, BY_TIME) && k <= |sorted|
    ensures multiset(sorted[k..]) <= multiset(sorted)
    ensures forall m, n :: multiset(sorted)[m] > multiset(sorted[k..])[m] && n in sorted[k..] ==>
              m.timestamp <= n.timestamp
  {
    var older, page := sorted[..k], sorted[k..];
    assert sorted == older + page;
    forall m, n | multiset(sorted)[m] > multiset(page)[m] && n in page ensures m.timestamp <= n.timestamp {
      assert m in multiset(older);
      var i :| 0 <= i < |older| && older[i] == m;
      var j :| 0 <= j < |page| && page[j] == n;
      assert BY_TIME(sorted[i]) <= BY_TIME(sorted[k + j]);
    }
  }

  lemma {:induction false} NewestIsNewestPage(rows: seq<Message>, limit: nat)
    ensures IsNewestPage(Newest(SortBy(rows, BY_TIME), limit), rows, limit)
  {
    var sorted := SortBy(rows, BY_TIME);
    SortBySorts(rows, BY_TIME);
    SortKeeps(rows, BY_TIME);
    hide SortBy;
    assert |sorted| == |multiset(sorted)| == |multiset(rows)| == |rows|;
    TailIsNewest(sorted, if |sorted| <= limit then 0 else |sorted| - limit);
  }

  // ---------------------------------------------------------------------------
  // The same, asked of the server
  // ---------------------------------------------------------------------------

  /** Timestamps are stored as `i64`. */
  predicate StampsFit(log: seq<Message>) {
    forall i :: 0 <= i < |log| ==> log[i].timestamp < TWO_TO_THE_63
  }

  function PageOf(c: Community, p: Pseudonym, channel: ChannelId, before: Option<nat>, limit: nat): seq<Message> {
    match DoGetMessages(c, p, channel, before, limit)
    case Messages(messages) => messages
    case _ => []
  }

  /** A reader's loop: what it has gathered once an empty page comes back, at most `fuel` requests later. */
  ghost function Gather(answer: Option<nat> -> seq<Message>, before: Option<nat>, fuel: nat): seq<Message>
    decreases fuel
  {
    var page := answer(before);
    if page == [] || fuel == 0 then [] else Gather(answer, Some(page[0].timestamp), fuel - 1) + page
  }

  lemma {:induction false} InChannelIn(log: seq<Message>, channel: ChannelId)
    ensures forall m :: m in InChannel(log, channel) ==> m in log
  {
    if log != [] { InChannelIn(log[..|log| - 1], channel); }
  }

  lemma {:induction false} HistoryStamps(log: seq<Message>, channel: ChannelId)
    requires StampsFit(log)
    ensures StampsFit(History(log, channel, None))
  {
    InChannelIn(log, channel);
    var rows := InChannel(log, channel);
    SortKeeps(rows, BY_TIME);
    forall i | 0 <= i < |History(log, channel, None)| ensures History(log, channel, None)[i].timestamp < TWO_TO_THE_63
    {
      var m := History(log, channel, None)[i];
      assert m in multiset(History(log, channel, None));
      assert m in rows;
    }
  }

  /** Cutting twice is cutting at the earlier bound. */
  lemma {:induction false} BelowBelow(rows: seq<Message>, a: int, b: int)
    requires b <= a
    ensures Below(Below(rows, BY_TIME, a), BY_TIME, b) == Below(rows, BY_TIME, b)
  {
    if rows != [] {
      var init, last := rows[..|rows| - 1], rows[|rows| - 1];
      BelowBelow(init, a, b);
      if last.timestamp < a { BelowPush(Below(init, BY_TIME, a), last, BY_TIME, b); }
    }
  }

  /** The server's answer is the newest part of the sorted channel, cut at the bound. */
  lemma {:induction false} AnswerIsCut(c: Community, p: Pseudonym, channel: ChannelId, before: Option<nat>, limit: nat)
    requires IsMember(c, p)
    requires before.Some? ==> before.value < TWO_TO_THE_63
    ensures PageOf(c, p, channel, before, limit) ==
            Newest(Cut(History(c.log, channel, None), before), Min(limit, PAGE_LIMIT))
  {
    if before.Some? { SortBelow(InChannel(c.log, channel), BY_TIME, before.value); }
  }

  ghost function Cut(all: seq<Message>, before: Option<nat>): seq<Message> {
    if before.Some? then Below(all, BY_TIME, before.value) else all
  }

  /** Cutting at a message just received is what remains after its page. */
  lemma {:induction false} CutAgain(all: seq<Message>, before: Option<nat>, oldest: nat)
    requires before.Some? ==> oldest <= before.value
    ensures Cut(all, Some(oldest)) == Below(Cut(all, before), BY_TIME, oldest)
  {
    if before.Some? { BelowBelow(all, before.value, oldest); }
  }

  lemma {:induction false} CutSorted(all: seq<Message>, before: Option<nat>)
    requires Sorted(all, BY_TIME) && StampsFit(all)
    ensures Sorted(Cut(all, before), BY_TIME) && StampsFit(Cut(all, before)) && |Cut(all, before)| <= |all|
    ensures before.Some? ==> forall m :: m in Cut(all, before) ==> m.timestamp < before.value
  {
    if before.Some? { BelowIsPrefix(all, before.value); }
  }

  /** Each request of the loop is answered with the newest of the rows that then remain. */
  ghost predicate Serves(answer: Option<nat> -> seq<Message>, before: Option<nat>, rows: seq<Message>, limit: nat)
    requires 1 <= limit
    decreases |rows|
  {
    answer(before) == Newest(rows, limit) &&
    (rows != [] ==>
       Serves(answer, Some(Newest(rows, limit)[0].timestamp), Remaining(rows, limit), limit))
  }

  lemma {:induction false} GatherServed(answer: Option<nat> -> seq<Message>, before: Option<nat>, rows: seq<Message>,
                                        limit: nat, fuel: nat)
    requires 1 <= limit && |rows| <= fuel && Serves(answer, before, rows, limit)
    ensures Gather(answer, before, fuel) == PageBack(rows, limit)
    decreases fuel
  {
    if rows != [] {
      GatherServed(answer, Some(Newest(rows, limit)[0].timestamp), Remaining(rows, limit), limit, fuel - 1);
    }
  }

  lemma {:induction false} CutsServe(answer: Option<nat> -> seq<Message>, all: seq<Message>, before: Option<nat>,
                                     limit: nat, rows: seq<Message>)
    requires 1 <= limit && Sorted(all, BY_TIME) && StampsFit(all)
    requires forall b: Option<nat> :: (b.Some? ==> b.value < TWO_TO_THE_63) ==>
               answer(b) == Newest(Cut(all, b), limit)
    requires before.Some? ==> before.value < TWO_TO_THE_63
    requires rows == Cut(all, before)
    ensures Serves(answer, before, rows, limit)
    decreases |rows|
  {
    CutSorted(all, before);
    if rows != [] {
      var n, k := OnePage(rows, limit);
      var oldest := rows[n].timestamp;
      assert rows[n] in rows;
      CutAgain(all, before, oldest);
      CutsServe(answer, all, Some(oldest), limit, Remaining(rows, limit));
    }
  }

  /**
   A reader who keeps asking for the messages before the oldest one received ends up, after at most one request per
   message, with the channel's whole history in order, exactly when no page boundary splits a tie. Pages are as long
   as asked for, but never longer than the server's limit.
   */
  lemma {:induction false} ReaderGetsEverything(c: Community, p: Pseudonym, channel: ChannelId, limit: nat, fuel: nat)
    requires IsMember(c, p) && 1 <= limit && StampsFit(c.log)
    requires |History(c.log, channel, None)| <= fuel
    ensures Gather(b => PageOf(c, p, channel, b, limit), None, fuel) == History(c.log, channel, None) <==>
            CutsClean(History(c.log, channel, None), Min(limit, PAGE_LIMIT))
  {
    var all := History(c.log, channel, None);
    var size := Min(limit, PAGE_LIMIT);
    var answer := b => PageOf(c, p, channel, b, limit);
    SortBySorts(InChannel(c.log, channel), BY_TIME);
    HistoryStamps(c.log, channel);
    forall b: Option<nat> | b.Some? ==> b.value < TWO_TO_THE_63
      ensures answer(b) == Newest(Cut(all, b), size)
    {
      AnswerIsCut(c, p, channel, b, limit);
    }
    CutsServe(answer, all, None, size, all);
    GatherServed(answer, None, all, size, fuel);
    PageBackComplete(all, size);
  }
}
