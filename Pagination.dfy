/**
  The pagination cursor of the conversation view (`fetchNextMessages` in
  apps/web/src/components/Messages/Message.tsx). For every conversation key the
  view remembers the `sent` time of the oldest message it has loaded; the
  next page is requested to end at that time.
*/
module Pagination {
  import opened Js

  /** A message as the message list hands it over; `sent` is its timestamp in milliseconds. */
  datatype Msg = Msg(senderAddress: string, content: string, sent: int)

  /** A request for the next page, as made from the message list. */
  datatype FetchCall = FetchCall(conversationKey: string, hasMore: bool, messages: Option<seq<Msg>>)

  /** The guard of fetchNextMessages: more history exists and at least one message is loaded. */
  predicate HasPage(hasMore: bool, messages: Option<seq<Msg>>) {
    hasMore && messages.Some? && |messages.value| > 0
  }

  /** The timestamp of the last (oldest) loaded message. */
  function LastSent(messages: seq<Msg>): int
    requires |messages| > 0
  {
    messages[|messages| - 1].sent
  }

  /**
    Whether the cursor of `key` may be set to `t`: no cursor yet (a stored Date
    is always truthy, so only a missing entry passes `!currentEndTime`), or `t`
    is not later than the stored one.
  */
  predicate MayMoveTo(cursors: map<string, int>, key: string, t: int) {
    key !in cursors || t <= cursors[key]
  }

  /** `after` keeps every cursor of `before`, each at the same time or earlier. */
  ghost predicate NoLater(before: map<string, int>, after: map<string, int>) {
    forall k :: k in before ==> k in after && after[k] <= before[k]
  }

  lemma NoLaterTransitive(a: map<string, int>, b: map<string, int>, c: map<string, int>)
    requires NoLater(a, b) && NoLater(b, c)
    ensures NoLater(a, c)
  {
  }

  /** The cursor table after one call of fetchNextMessages. */
  function NextCursors(cursors: map<string, int>, key: string, hasMore: bool, messages: Option<seq<Msg>>)
    : (r: map<string, int>)
    // no page to ask for: nothing changes
    ensures !HasPage(hasMore, messages) ==> r == cursors
    // a last message later than the current cursor is ignored
    ensures HasPage(hasMore, messages) && !MayMoveTo(cursors, key, LastSent(messages.value)) ==> r == cursors
    // otherwise the cursor of `key` becomes exactly the last message's time
    ensures HasPage(hasMore, messages) && MayMoveTo(cursors, key, LastSent(messages.value))
      ==> key in r && r[key] == LastSent(messages.value)
    // the cursors of all other conversations are kept as they were
    ensures forall k :: k in cursors && k != key ==> k in r && r[k] == cursors[k]
    ensures forall k :: k in r ==> k == key || k in cursors
    // no cursor is dropped or moved to a later time
    ensures NoLater(cursors, r)
  {
    if HasPage(hasMore, messages) && MayMoveTo(cursors, key, LastSent(messages.value)) then
      cursors[key := LastSent(messages.value)]
    else
      cursors
  }

  /** The cursor table after a series of fetchNextMessages calls, oldest first. */
  function Replay(cursors: map<string, int>, calls: seq<FetchCall>): map<string, int>
    decreases |calls|
  {
    if calls == [] then cursors
    else
      var c := calls[0];
      Replay(NextCursors(cursors, c.conversationKey, c.hasMore, c.messages), calls[1..])
  }

  /** Running two series of calls one after the other is running their concatenation. */
  lemma {:induction false} ReplayAppend(cursors: map<string, int>, first: seq<FetchCall>, second: seq<FetchCall>)
    ensures Replay(cursors, first + second) == Replay(Replay(cursors, first), second)
    decreases |first|
  {
    if first != [] {
      var c := first[0];
      assert (first + second)[1..] == first[1..] + second;
      ReplayAppend(NextCursors(cursors, c.conversationKey, c.hasMore, c.messages), first[1..], second);
    } else {
      assert first + second == second;
    }
  }

  /** However many pages are fetched, no cursor is dropped or moves to a later time. */
  lemma {:induction false} ReplayNoLater(cursors: map<string, int>, calls: seq<FetchCall>)
    ensures NoLater(cursors, Replay(cursors, calls))
    decreases |calls|
  {
    if calls != [] {
      var c := calls[0];
      var next := NextCursors(cursors, c.conversationKey, c.hasMore, c.messages);
      ReplayNoLater(next, calls[1..]);
      NoLaterTransitive(cursors, next, Replay(next, calls[1..]));
    }
  }

  /** Over time the cursors only move earlier: any later state is no later than any earlier one. */
  lemma {:induction false} CursorsNonIncreasing(cursors: map<string, int>, calls: seq<FetchCall>, i: nat, j: nat)
    requires i <= j <= |calls|
    ensures NoLater(Replay(cursors, calls[..i]), Replay(cursors, calls[..j]))
  {
    assert calls[..j] == calls[..i] + calls[i..j];
    ReplayAppend(cursors, calls[..i], calls[i..j]);
    ReplayNoLater(Replay(cursors, calls[..i]), calls[i..j]);
  }

  /** A series of calls that never offers a page leaves the table untouched. */
  lemma {:induction false} ReplayWithoutPages(cursors: map<string, int>, calls: seq<FetchCall>)
    requires forall n :: 0 <= n < |calls| ==> !HasPage(calls[n].hasMore, calls[n].messages)
    ensures Replay(cursors, calls) == cursors
    decreases |calls|
  {
    if calls != [] {
      ReplayWithoutPages(cursors, calls[1..]);
    }
  }

  /**
    With the `<=` comparison a last message at exactly the current cursor is
    accepted: the state is replaced (a re-render and a new page request) while
    every cursor keeps its value.
  */
  lemma EqualTimeRewritesSameCursor(cursors: map<string, int>, key: string, messages: seq<Msg>)
    requires key in cursors && |messages| > 0 && LastSent(messages) == cursors[key]
    ensures MayMoveTo(cursors, key, LastSent(messages))
    ensures NextCursors(cursors, key, true, Some(messages)) == cursors
  {
  }

  /** A JavaScript `Map<string, Date>`, updated in place; a Date is its time in milliseconds. */
  class TimeMap {
    var entries: map<string, int>

    /** `new Map()` */
    constructor ()
      ensures entries == map[]
    {
      entries := map[];
    }

    /** `new Map(source)`: a new map object with the same entries. */
    constructor Copy(source: TimeMap)
      ensures entries == source.entries
    {
      entries := source.entries;
    }

    /** `map.get(key)`: the stored time, or undefined when the key is absent. */
    function Get(key: string): (r: Option<int>)
      reads this
      ensures r.Some? <==> key in entries
      ensures r.Some? ==> r.value == entries[key]
    {
      if key in entries then Some(entries[key]) else None
    }

    /** `map.set(key, value)` */
    method Set(key: string, value: int)
      modifies this
      ensures entries == old(entries)[key := value]
    {
      entries := entries[key := value];
    }
  }

  /** The `endTime` state of the conversation view. */
  class MessageState {
    var endTime: TimeMap

    /** `useState(new Map())` */
    constructor ()
      ensures fresh(endTime) && endTime.entries == map[]
    {
      endTime := new TimeMap();
    }

    /** The end time the next page request uses for `conversationKey`. */
    function CursorFor(conversationKey: string): (r: Option<int>)
      reads this, endTime
      ensures r.Some? <==> conversationKey in endTime.entries
      ensures r.Some? ==> r.value == endTime.entries[conversationKey]
    {
      endTime.Get(conversationKey)
    }

    /**
      fetchNextMessages: moves the cursor of `conversationKey` to the last loaded
      message. The current map is updated in place and then replaced by a copy;
      `updated` says whether the state was replaced.
    */
    method FetchNextMessages(conversationKey: string, hasMore: bool, messages: Option<seq<Msg>>)
      returns (updated: bool)
      modifies this, endTime
      ensures endTime.entries == NextCursors(old(endTime.entries), conversationKey, hasMore, messages)
      ensures updated <==> (HasPage(hasMore, messages)
                            && MayMoveTo(old(endTime.entries), conversationKey, LastSent(messages.value)))
      // the previous map object was written too before being copied
      ensures updated ==> fresh(endTime) && old(endTime).entries == endTime.entries
      ensures !updated ==> endTime == old(endTime) && endTime.entries == old(endTime.entries)
    {
      updated := false;
      if hasMore && messages.Some? && |messages.value| > 0 {
        var msgs := messages.value;
        var lastMsgDate := msgs[|msgs| - 1].sent;
        var currentEndTime := endTime.Get(conversationKey);
        if currentEndTime.None? || lastMsgDate <= currentEndTime.value {
          endTime.Set(conversationKey, lastMsgDate);
          endTime := new TimeMap.Copy(endTime);
          updated := true;
        }
      }
    }
  }
}
