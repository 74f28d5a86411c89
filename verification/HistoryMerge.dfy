/**
 The client's copy of a channel's messages: live messages are appended, and pages of history from the server are
 merged in.
 */
module HistoryMerge {
  import opened Common
  import opened Sorting

  type ChannelId = string

  datatype Message = Message(
    id: int,
    senderId: string,
    body: string,
    timestamp: int,
    isOwn: bool,
    replyTo: Option<int>,
    status: Option<string>)

  /** A message as the server's page carries it. */
  datatype PageEntry = PageEntry(id: int, senderId: string, body: string, timestamp: int, isOwn: bool)

  /** Stands for the string `timestamp:senderId`; the time is digits only, so the string determines the pair. */
  datatype Key = Key(timestamp: int, senderId: string)

  function KeyOf(m: Message): Key {
    Key(m.timestamp, m.senderId)
  }

  ghost function KeysOf(messages: seq<Message>): set<Key> {
    set m | m in messages :: KeyOf(m)
  }

  function TimeOf(): Message -> int {
    (m: Message) => m.timestamp
  }

  function Converted(e: PageEntry): Message {
    Message(e.id, e.senderId, e.body, e.timestamp, e.isOwn, None, None)
  }

  predicate Known(existing: seq<Message>, e: PageEntry) {
    exists m :: m in existing && KeyOf(m) == Key(e.timestamp, e.senderId)
  }

  /** The entries of a page that are not there yet, in page order. */
  function NewOnes(existing: seq<Message>, page: seq<PageEntry>): seq<Message> {
    if page == [] then []
    else
      var rest := NewOnes(existing, page[..|page| - 1]);
      if Known(existing, page[|page| - 1]) then rest else rest + [Converted(page[|page| - 1])]
  }

  function Merge(existing: seq<Message>, page: seq<PageEntry>): seq<Message> {
    if NewOnes(existing, page) == [] then existing
    else SortBy(existing + NewOnes(existing, page), TimeOf())
  }

  // ---------------------------------------------------------------------------
  // What merging does
  // ---------------------------------------------------------------------------

  lemma {:induction false} NewOnesAre(existing: seq<Message>, page: seq<PageEntry>)
    ensures forall m :: m in NewOnes(existing, page) <==>
              exists e :: e in page && !Known(existing, e) && m == Converted(e)
  {
    if page != [] {
      var init, last := page[..|page| - 1], page[|page| - 1];
      assert page == init + [last];
      NewOnesAre(existing, init);
    }
  }

  /** The page's entries as messages: not replies, and without a status. */
  function AsMessages(page: seq<PageEntry>): seq<Message> {
    seq(|page|, (i: nat) requires i < |page| =>
          Message(page[i].id, page[i].senderId, page[i].body, page[i].timestamp, page[i].isOwn, None, None))
  }

  /** A message of the same time by the same sender is there already. */
  predicate SameThere(existing: seq<Message>, m: Message) {
    exists n :: n in existing && n.timestamp == m.timestamp && n.senderId == m.senderId
  }

  /** Each entry comes in as often as the page has it, or not at all when its time and sender are known. */
  lemma {:induction false} NewOnesCount(existing: seq<Message>, page: seq<PageEntry>, m: Message)
    ensures multiset(NewOnes(existing, page))[m] ==
            if SameThere(existing, m) then 0 else multiset(AsMessages(page))[m]
  {
    if page != [] {
      var init, last := page[..|page| - 1], page[|page| - 1];
      NewOnesCount(existing, init, m);
      assert AsMessages(page) == AsMessages(init) + [Converted(last)];
      KnownIs(existing, last);
      hide Known, SameThere;
    }
  }

  lemma {:induction false} KnownIs(existing: seq<Message>, e: PageEntry)
    ensures Known(existing, e) <==> SameThere(existing, Converted(e))
  {
  }

  /** Merging keeps every message and adds exactly the page's entries with a new time and sender. */
  lemma {:induction false} MergeAddsExactlyTheNew(existing: seq<Message>, page: seq<PageEntry>)
    ensures multiset(Merge(existing, page)) == multiset(existing) + multiset(NewOnes(existing, page))
    ensures forall m :: multiset(Merge(existing, page))[m] ==
              multiset(existing)[m] + if SameThere(existing, m) then 0 else multiset(AsMessages(page))[m]
    ensures forall m :: m in Merge(existing, page) <==>
              m in existing || exists e :: e in page && !Known(existing, e) && m == Converted(e)
  {
    forall m
      ensures multiset(NewOnes(existing, page))[m] == if SameThere(existing, m) then 0 else multiset(AsMessages(page))[m]
    {
      NewOnesCount(existing, page, m);
    }
    SortKeeps(existing + NewOnes(existing, page), TimeOf());
    NewOnesAre(existing, page);
    assert multiset(Merge(existing, page)) == multiset(existing) + multiset(NewOnes(existing, page));
    forall m ensures m in Merge(existing, page) <==> m in existing || m in NewOnes(existing, page) {
      assert m in Merge(existing, page) <==> m in multiset(Merge(existing, page));
    }
  }

  ghost predicate InTimeOrder(messages: seq<Message>) {
    forall i, j :: 0 <= i < j < |messages| ==> messages[i].timestamp <= messages[j].timestamp
  }

  /** Whenever merging adds anything, and whenever the messages were in order before, they are in order after. */
  lemma {:induction false} MergeSorts(existing: seq<Message>, page: seq<PageEntry>)
    requires NewOnes(existing, page) != [] || InTimeOrder(existing)
    ensures InTimeOrder(Merge(existing, page))
  {
    if NewOnes(existing, page) != [] {
      SortBySorts(existing + NewOnes(existing, page), TimeOf());
      var merged := Merge(existing, page);
      assert forall i :: 0 <= i < |merged| ==> TimeOf()(merged[i]) == merged[i].timestamp;
    }
  }

  lemma {:induction false} NothingNew(existing: seq<Message>, page: seq<PageEntry>)
    requires forall e :: e in page ==> Known(existing, e)
    ensures NewOnes(existing, page) == []
  {
    if page != [] {
      assert page[|page| - 1] in page;
      NothingNew(existing, page[..|page| - 1]);
    }
  }

  /** Merging a page again, or any part of it, changes nothing. */
  lemma {:induction false} MergingTwiceIsMergingOnce(existing: seq<Message>, page: seq<PageEntry>, again: seq<PageEntry>)
    requires forall e :: e in again ==> e in page
    ensures Merge(Merge(existing, page), again) == Merge(existing, page)
  {
    var merged := Merge(existing, page);
    MergeAddsExactlyTheNew(existing, page);
    forall e | e in again ensures Known(merged, e) {
      if Known(existing, e) {
        var m :| m in existing && KeyOf(m) == Key(e.timestamp, e.senderId);
        assert m in merged;
      } else {
        assert Converted(e) in merged && KeyOf(Converted(e)) == Key(e.timestamp, e.senderId);
      }
    }
    NothingNew(merged, again);
  }

  // ---------------------------------------------------------------------------
  // No duplicates
  // ---------------------------------------------------------------------------

  predicate Distinct(messages: seq<Message>) {
    forall i, j :: 0 <= i < j < |messages| ==> KeyOf(messages[i]) != KeyOf(messages[j])
  }

  predicate PageDistinct(page: seq<PageEntry>) {
    forall i, j :: 0 <= i < j < |page| ==>
      Key(page[i].timestamp, page[i].senderId) != Key(page[j].timestamp, page[j].senderId)
  }

  lemma {:induction false} InsertDistinct(s: seq<Message>, x: Message, key: Message -> int)
    requires Distinct(s) && KeyOf(x) !in KeysOf(s)
    ensures Distinct(Insert(s, x, key))
    ensures KeysOf(Insert(s, x, key)) == KeysOf(s) + {KeyOf(x)}
  {
    if s == [] || key(s[|s| - 1]) <= key(x) {
      KeysPush(s, x);
    } else {
      var init, last := s[..|s| - 1], s[|s| - 1];
      assert s == init + [last];
      KeysPush(init, last);
      DistinctPush(init, last);
      assert Insert(s, x, key) == Insert(init, x, key) + [last];
      hide Distinct, KeysOf, Insert;
      InsertDistinct(init, x, key);
      KeysPush(Insert(init, x, key), last);
      DistinctPush(Insert(init, x, key), last);
    }
  }

  lemma {:induction false} KeysPush(s: seq<Message>, x: Message)
    ensures KeysOf(s + [x]) == KeysOf(s) + {KeyOf(x)}
  {
  }

  lemma {:induction false} DistinctPush(s: seq<Message>, x: Message)
    ensures Distinct(s + [x]) <==> Distinct(s) && KeyOf(x) !in KeysOf(s)
  {
    var all := s + [x];
    if Distinct(all) {
      forall m | m in s ensures KeyOf(m) != KeyOf(x) {
        var i :| 0 <= i < |s| && s[i] == m;
        assert all[i] == m && all[|s|] == x;
      }
      forall i, j | 0 <= i < j < |s| ensures KeyOf(s[i]) != KeyOf(s[j]) {
        assert all[i] == s[i] && all[j] == s[j];
      }
    }
  }

  lemma {:induction false} SortDistinct(s: seq<Message>, key: Message -> int)
    requires Distinct(s)
    ensures Distinct(SortBy(s, key)) && KeysOf(SortBy(s, key)) == KeysOf(s)
  {
    if s != [] {
      var init, last := s[..|s| - 1], s[|s| - 1];
      assert s == init + [last];
      DistinctPush(init, last);
      KeysPush(init, last);
      SortDistinct(init, key);
      InsertDistinct(SortBy(init, key), last, key);
    }
  }

  lemma {:induction false} AddDistinct(existing: seq<Message>, page: seq<PageEntry>)
    requires Distinct(existing) && PageDistinct(page)
    ensures Distinct(existing + NewOnes(existing, page))
  {
    if page == [] {
      assert existing + [] == existing;
    } else {
      var init, last := page[..|page| - 1], page[|page| - 1];
      AddDistinct(existing, init);
      if !Known(existing, last) {
        NewOnesAre(existing, init);
        var sofar := existing + NewOnes(existing, init);
        assert KeyOf(Converted(last)) !in KeysOf(sofar);
        DistinctPush(sofar, Converted(last));
        assert existing + NewOnes(existing, page) == sofar + [Converted(last)];
      }
    }
  }

  /** Merging a page without repeats into messages without repeats makes none. */
  lemma {:induction false} MergeMakesNoDuplicates(existing: seq<Message>, page: seq<PageEntry>)
    requires Distinct(existing) && PageDistinct(page)
    ensures Distinct(Merge(existing, page))
  {
    AddDistinct(existing, page);
    if NewOnes(existing, page) != [] {
      SortDistinct(existing + NewOnes(existing, page), TimeOf());
    }
  }

  // ---------------------------------------------------------------------------
  // Order of what was there
  // ---------------------------------------------------------------------------

  function Those(messages: seq<Message>, wanted: seq<Message>): seq<Message> {
    if messages == [] then []
    else
      var rest := Those(messages[..|messages| - 1], wanted);
      if messages[|messages| - 1] in wanted then rest + [messages[|messages| - 1]] else rest
  }

  lemma {:induction false} ThosePush(s: seq<Message>, x: Message, wanted: seq<Message>)
    ensures Those(s + [x], wanted) == if x in wanted then Those(s, wanted) + [x] else Those(s, wanted)
  {
  }

  lemma {:induction false} ThoseAreThere(s: seq<Message>, wanted: seq<Message>)
    ensures forall m :: m in Those(s, wanted) ==> m in s
  {
    if s != [] { ThoseAreThere(s[..|s| - 1], wanted); }
  }

  lemma {:induction false} LastOfThose(s: seq<Message>, wanted: seq<Message>)
    requires s != [] && Sorted(s, TimeOf()) && Those(s, wanted) != []
    ensures var kept := Those(s, wanted); TimeOf()(kept[|kept| - 1]) <= TimeOf()(s[|s| - 1])
  {
    var kept := Those(s, wanted);
    ThoseAreThere(s, wanted);
    assert kept[|kept| - 1] in kept;
    var i :| 0 <= i < |s| && s[i] == kept[|kept| - 1];
    assert TimeOf()(s[i]) <= TimeOf()(s[|s| - 1]);
  }

  lemma {:induction false} InsertThose(s: seq<Message>, x: Message, wanted: seq<Message>)
    requires Sorted(s, TimeOf())
    ensures Those(Insert(s, x, TimeOf()), wanted) ==
            if x in wanted then Insert(Those(s, wanted), x, TimeOf()) else Those(s, wanted)
  {
    if s == [] {
      ThosePush(s, x, wanted);
    } else if TimeOf()(s[|s| - 1]) <= TimeOf()(x) {
      ThosePush(s, x, wanted);
      if Those(s, wanted) != [] { LastOfThose(s, wanted); }
    } else {
      var init, last := s[..|s| - 1], s[|s| - 1];
      assert s == init + [last];
      InsertThose(init, x, wanted);
      ThosePush(init, last, wanted);
      ThosePush(Insert(init, x, TimeOf()), last, wanted);
      if last in wanted { InsertPush(Those(init, wanted), last, x, TimeOf()); }
    }
  }

  lemma {:induction false} SortThose(s: seq<Message>, wanted: seq<Message>)
    ensures Those(SortBy(s, TimeOf()), wanted) == SortBy(Those(s, wanted), TimeOf())
  {
    if s != [] {
      var init, last := s[..|s| - 1], s[|s| - 1];
      assert s == init + [last];
      SortThose(init, wanted);
      SortBySorts(init, TimeOf());
      ThosePush(init, last, wanted);
      InsertThose(SortBy(init, TimeOf()), last, wanted);
      if last in wanted { SortPush(Those(init, wanted), last, TimeOf()); }
    }
  }

  lemma {:induction false} ThoseOfConcat(a: seq<Message>, b: seq<Message>, wanted: seq<Message>)
    ensures Those(a + b, wanted) == Those(a, wanted) + Those(b, wanted)
  {
    if b == [] {
      assert a + b == a;
    } else {
      var init, last := b[..|b| - 1], b[|b| - 1];
      assert a + b == (a + init) + [last] && b == init + [last];
      ThoseOfConcat(a, init, wanted);
      ThosePush(a + init, last, wanted);
      ThosePush(init, last, wanted);
    }
  }

  lemma {:induction false} AllOrNone(s: seq<Message>, wanted: seq<Message>)
    ensures (forall m :: m in s ==> m in wanted) ==> Those(s, wanted) == s
    ensures (forall m :: m in s ==> m !in wanted) ==> Those(s, wanted) == []
  {
    if s != [] {
      AllOrNone(s[..|s| - 1], wanted);
      assert s == s[..|s| - 1] + [s[|s| - 1]];
    }
  }

  /** Messages that were in order keep their order, ties included: merging only puts new ones between them. */
  lemma {:induction false} MergeKeepsTheOrder(existing: seq<Message>, page: seq<PageEntry>)
    requires Sorted(existing, TimeOf())
    ensures Those(Merge(existing, page), existing) == existing
  {
    var added := NewOnes(existing, page);
    AllOrNone(existing, existing);
    if added != [] {
      NewOnesAre(existing, page);
      forall m | m in added ensures m !in existing {
        var e :| e in page && !Known(existing, e) && m == Converted(e);
      }
      AllOrNone(added, existing);
      SortThose(existing + added, existing);
      ThoseOfConcat(existing, added, existing);
      SortedStays(existing, TimeOf());
      assert existing + [] == existing;
    }
  }

  // ---------------------------------------------------------------------------
  // The store
  // ---------------------------------------------------------------------------

  class ChannelStore {
    var channelMessages: map<ChannelId, seq<Message>>

    constructor ()
      ensures channelMessages == map[]
    {
      channelMessages := map[];
    }

    /** A live message, unless it is the user's own coming back. `now` is the client's clock. */
    method MessageReceived(me: Option<string>, channelId: ChannelId, sender: string, body: string, timestamp: int,
                           now: int)
      modifies this
      ensures var m := Message(now, sender, body, timestamp, false, None, None);
              channelMessages ==
                if me.Some? && me.value != "" && me.value == sender then old(channelMessages)
                else old(channelMessages)[channelId := old(Shown(channelId)) + [m]]
    {
      if me.Some? && me.value != "" && sender == me.value {
        return;
      }
      var message := Message(now, sender, body, timestamp, false, None, None);
      if channelId in channelMessages {
        channelMessages := channelMessages[channelId := channelMessages[channelId] + [message]];
      } else {
        channelMessages := channelMessages[channelId := [message]];
        assert old(Shown(channelId)) + [message] == [message];
      }
    }

    method ChannelHistoryLoaded(channelId: ChannelId, page: seq<PageEntry>)
      modifies this
      ensures Shown(channelId) == Merge(old(Shown(channelId)), page)
      ensures channelMessages - {channelId} == old(channelMessages) - {channelId}
    {
      var existing := if channelId in channelMessages then channelMessages[channelId] else [];
      var newMsgs := NewOnes(existing, page);
      if |newMsgs| > 0 {
        ghost var before := channelMessages;
        channelMessages := channelMessages[channelId := SortBy(existing + newMsgs, TimeOf())];
        assert channelMessages - {channelId} == before - {channelId};
      }
    }

    function Shown(channelId: ChannelId): seq<Message>
      reads this
    {
      if channelId in channelMessages then channelMessages[channelId] else []
    }
  }
}
