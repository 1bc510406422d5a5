/** The chat message store (src/store/chatStore.ts): one list of messages,
    replaced wholesale by a load and extended by every realtime event.
    The backend is not modelled as a network call: the table it holds is a
    sequence of rows, and its answer to the store's query is a pure function
    of that table (select, then order by creation time). */
module ChatStore {
  import opened Wrappers

  /** A row of the `messages` table as the store types it. `createdAt` is the
      row's `created_at` instant, in milliseconds since the epoch. */
  datatype Message = Message(
    id: string,
    content: string,
    createdAt: int,
    senderId: string,
    chatId: string)

  const DayMillis := 24 * 60 * 60 * 1000
  const RetentionDays := 7

  // ---------------------------------------------------------------------------
  // The query loadMessages sends, and the backend's answer to it

  /** `.eq('chat_id', chatId).gte('created_at', createdFrom)
      .order('created_at', { ascending: true })` on table `messages`. */
  datatype MessageQuery = MessageQuery(chatId: string, createdFrom: int)

  /** The query of a load started at `now`: the chat's rows from the last
      seven days. */
  function LoadQuery(chatId: string, now: int): (q: MessageQuery)
    ensures q.chatId == chatId
    ensures now - q.createdFrom == RetentionDays * DayMillis
  {
    MessageQuery(chatId, now - RetentionDays * DayMillis)
  }

  /** A row passes the query's two filters. */
  predicate Matches(q: MessageQuery, m: Message) {
    m.chatId == q.chatId && m.createdAt >= q.createdFrom
  }

  /** The rows that pass the filters, each as often as it occurs in `rows`. */
  function Select(q: MessageQuery, rows: seq<Message>): (r: seq<Message>)
    ensures forall m :: multiset(r)[m] == if Matches(q, m) then multiset(rows)[m] else 0
  {
    if rows == [] then []
    else
      assert rows == [rows[0]] + rows[1..];
      (if Matches(q, rows[0]) then [rows[0]] else []) + Select(q, rows[1..])
  }

  /** Ordered by creation time, earliest first. */
  predicate Ascending(rows: seq<Message>) {
    forall i, j :: 0 <= i < j < |rows| ==> rows[i].createdAt <= rows[j].createdAt
  }

  /** A row no later than the head of an ascending sequence may precede it. */
  lemma ConsAscending(x: Message, rest: seq<Message>)
    requires Ascending(rest)
    requires rest == [] || x.createdAt <= rest[0].createdAt
    ensures Ascending([x] + rest)
  {
    var r := [x] + rest;
    forall i, j | 0 <= i < j < |r| ensures r[i].createdAt <= r[j].createdAt {
      if i == 0 && j > 1 {
        assert r[1] == rest[0] && r[j] == rest[j - 1];
      }
    }
  }

  /** Puts `m` in front of the first row that is not earlier than it. */
  function InsertByTime(m: Message, rows: seq<Message>): (r: seq<Message>)
    requires Ascending(rows)
    ensures Ascending(r)
    ensures multiset(r) == multiset(rows) + multiset{m}
    ensures |r| == |rows| + 1
    ensures r[0] == m || (rows != [] && r[0] == rows[0])
  {
    if rows == [] || m.createdAt <= rows[0].createdAt then
      ConsAscending(m, rows);
      [m] + rows
    else
      assert rows == [rows[0]] + rows[1..];
      var rest := InsertByTime(m, rows[1..]);
      ConsAscending(rows[0], rest);
      [rows[0]] + rest
  }

  /** Orders rows by creation time. Rows with equal times keep their order.
      The backend promises no particular order for them, so the facts that
      hold for any tie order are that the result is ascending and a
      permutation; `Store.LoadMessages` and `EventsAroundLoad`, which state
      the list as `Run(...)`, depend on the tie order fixed here. */
  function SortByTime(rows: seq<Message>): (r: seq<Message>)
    ensures Ascending(r)
    ensures multiset(r) == multiset(rows)
  {
    if rows == [] then []
    else
      assert rows == [rows[0]] + rows[1..];
      InsertByTime(rows[0], SortByTime(rows[1..]))
  }

  /** The backend's rows for a query. */
  function Run(table: seq<Message>, q: MessageQuery): seq<Message> {
    SortByTime(Select(q, table))
  }

  /** A message of chat `chatId` created at most seven days before `now`. */
  predicate InWindow(chatId: string, now: int, m: Message) {
    m.chatId == chatId && now - m.createdAt <= RetentionDays * DayMillis
  }

  /** A load returns exactly the rows of the chat created in the seven days
      before the load started, each as often as the table holds it, earliest
      first. */
  lemma LoadSelectsLastSevenDays(table: seq<Message>, chatId: string, now: int)
    ensures Ascending(Run(table, LoadQuery(chatId, now)))
    ensures forall m :: multiset(Run(table, LoadQuery(chatId, now)))[m] == (if InWindow(chatId, now, m) then multiset(table)[m] else 0)
  {
  }

  /** Every row a load returns belongs to the chat and is recent enough. */
  lemma LoadedRowsMatch(table: seq<Message>, chatId: string, now: int, i: nat)
    requires i < |Run(table, LoadQuery(chatId, now))|
    ensures Run(table, LoadQuery(chatId, now))[i].chatId == chatId
    ensures Run(table, LoadQuery(chatId, now))[i].createdAt >= now - RetentionDays * DayMillis
  {
    var r := Run(table, LoadQuery(chatId, now));
    assert r[i] in multiset(r);
  }

  /** `{ data, error }` as the awaited query yields it. */
  datatype Reply = Reply(data: Option<seq<Message>>, error: Option<string>)

  /** The backend's reply: the rows, or the error when the call fails. */
  function Respond(table: seq<Message>, q: MessageQuery, failure: Option<string>): (r: Reply)
    ensures r.error == failure
    ensures failure.None? ==> r.data == Some(Run(table, q))
  {
    if failure.Some? then Reply(None, failure) else Reply(Some(Run(table, q)), None)
  }

  // ---------------------------------------------------------------------------
  // Realtime events

  /** The channel subscribes with `event: '*'`: inserts, updates and deletes
      all reach the handler. */
  datatype EventKind = Inserted | Updated | Deleted

  /** A change event; `newRecord` is its `payload.new`, read as a message. */
  datatype ChangeEvent = ChangeEvent(kind: EventKind, newRecord: Message)

  /** The list after the handler has run for each event in turn. */
  function Replay(messages: seq<Message>, events: seq<ChangeEvent>): seq<Message>
    decreases |events|
  {
    if events == [] then messages
    else Replay(messages + [events[0].newRecord], events[1..])
  }

  /** Between loads the list only grows: the old list is a prefix of the new
      one, there is exactly one new entry per event, and it is that event's
      record, whatever its kind; nothing is removed, replaced or merged. */
  lemma {:induction false} ReplayAppendsOnly(messages: seq<Message>, events: seq<ChangeEvent>)
    ensures |Replay(messages, events)| == |messages| + |events|
    ensures Replay(messages, events)[..|messages|] == messages
    ensures forall i :: 0 <= i < |events| ==>
      Replay(messages, events)[|messages| + i] == events[i].newRecord
    decreases |events|
  {
    if events != [] {
      var next := messages + [events[0].newRecord];
      ReplayAppendsOnly(next, events[1..]);
      var r := Replay(messages, events);
      assert r[..|next|][..|messages|] == r[..|messages|];
      forall i | 0 <= i < |events|
        ensures r[|messages| + i] == events[i].newRecord
      {
        if i == 0 {
          assert r[..|next|][|messages|] == r[|messages|];
        } else {
          assert events[1..][i - 1] == events[i];
        }
      }
    }
  }

  /** One more event extends the replay by that event's record. */
  lemma {:induction false} ReplayStep(messages: seq<Message>, events: seq<ChangeEvent>, e: ChangeEvent)
    ensures Replay(messages, events + [e]) == Replay(messages, events) + [e.newRecord]
    decreases |events|
  {
    if events != [] {
      assert (events + [e])[1..] == events[1..] + [e];
      ReplayStep(messages + [events[0].newRecord], events[1..], e);
    }
  }

  // ---------------------------------------------------------------------------
  // The store

  class Store {
    var messages: seq<Message>

    /** The store starts with no messages. */
    constructor()
      ensures messages == []
    {
      messages := [];
    }

    /** The part of loadMessages after the query returns: an error leaves the
        list alone; otherwise the list becomes the returned rows, or empty
        when the rows are null. */
    method CompleteLoad(reply: Reply)
      modifies this
      ensures reply.error.Some? ==> messages == old(messages)
      ensures reply.error.None? ==> messages == reply.data.GetOr([])
    {
      if reply.error.Some? {
        return;
      }
      messages := reply.data.GetOr([]);
    }

    /** loadMessages run to completion with no event in between: the query of
        the last seven days is sent and its reply applied. */
    method LoadMessages(chatId: string, now: int, table: seq<Message>, failure: Option<string>)
      modifies this
      ensures failure.Some? ==> messages == old(messages)
      ensures failure.None? ==> messages == Run(table, LoadQuery(chatId, now))
      ensures failure.None? ==> Ascending(messages)
      ensures failure.None? ==> forall m :: multiset(messages)[m] == (if InWindow(chatId, now, m) then multiset(table)[m] else 0)
    {
      var reply := Respond(table, LoadQuery(chatId, now), failure);
      CompleteLoad(reply);
      LoadSelectsLastSevenDays(table, chatId, now);
    }

    /** The realtime handler: appends the event's record. */
    method OnChange(event: ChangeEvent)
      modifies this
      ensures messages == old(messages) + [event.newRecord]
      ensures messages == Replay(old(messages), [event])
    {
      assert [event][1..] == [];
      messages := messages + [event.newRecord];
    }
  }

  /** A realtime event that arrives while a load is awaiting its reply is
      overwritten when the reply is applied; one that arrives after the load
      stays at the end. */
  method EventsAroundLoad(chatId: string, now: int, table: seq<Message>, during: ChangeEvent, after: ChangeEvent)
    returns (shown: seq<Message>)
    ensures shown == Run(table, LoadQuery(chatId, now)) + [after.newRecord]
  {
    var store := new Store();
    var reply := Respond(table, LoadQuery(chatId, now), None);
    store.OnChange(during);
    store.CompleteLoad(reply);
    store.OnChange(after);
    shown := store.messages;
  }
}
