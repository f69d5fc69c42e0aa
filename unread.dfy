/** The unread-message count shown in the navigation bar (lib/unread.ts).

    The backend is modelled as its two tables held in memory, together with
    the queries that fail and whether the count query reports its count. */
module Unread {
  import opened Wrappers

  datatype Conversation = Conversation(id: string, user1Id: string, user2Id: string)

  datatype Message = Message(conversationId: string, senderId: string, isRead: bool)

  datatype QueryError = QueryError(message: string)

  /** The participant column a conversation query filters on. */
  datatype Column = User1 | User2

  /** The three queries the count issues, in the order it issues them. */
  datatype Query = ConversationsBy(column: Column) | CountUnread

  datatype Backend = Backend(
    conversations: seq<Conversation>,
    messages: seq<Message>,
    failures: map<Query, QueryError>,   // the queries that come back with an error
    countReturned: bool)                // false when the count query returns a null count

  function Participant(c: Conversation, column: Column): string {
    match column
    case User1 => c.user1Id
    case User2 => c.user2Id
  }

  /** The ids of the conversations whose `column` equals `userId`, in table order. */
  function IdsWhere(cs: seq<Conversation>, column: Column, userId: string): (ids: seq<string>)
    ensures |ids| <= |cs|
    ensures forall id :: id in ids <==> exists c :: c in cs && c.id == id && Participant(c, column) == userId
    ensures (forall c :: c in cs ==> Participant(c, column) != userId) ==> ids == []
  {
    if cs == [] then []
    else
      var rest := IdsWhere(cs[1..], column, userId);
      assert forall c :: c in cs <==> c == cs[0] || c in cs[1..];
      if Participant(cs[0], column) == userId then [cs[0].id] + rest else rest
  }

  /** `select("id").eq(column, userId)` on `conversations`. */
  function SelectConversationIds(db: Backend, column: Column, userId: string): (r: Result<seq<string>, QueryError>)
    ensures ConversationsBy(column) in db.failures <==> r.Failure?
    ensures r.Failure? ==> r.error == db.failures[ConversationsBy(column)]
    ensures r.Success? ==> r.value == IdsWhere(db.conversations, column, userId)
  {
    if ConversationsBy(column) in db.failures then Failure(db.failures[ConversationsBy(column)])
    else Success(IdsWhere(db.conversations, column, userId))
  }

  /** The row filter of the count query: `conversation_id in convIds`,
      `is_read = false` and `sender_id <> userId`. */
  predicate CountedIn(m: Message, convIds: seq<string>, userId: string) {
    m.conversationId in convIds && !m.isRead && m.senderId != userId
  }

  /** The rows of `messages` the count query matches, in table order. */
  function MatchingMessages(msgs: seq<Message>, convIds: seq<string>, userId: string): (r: seq<Message>)
    ensures |r| <= |msgs|
    ensures forall m :: m in r <==> m in msgs && CountedIn(m, convIds, userId)
  {
    if msgs == [] then []
    else
      var rest := MatchingMessages(msgs[1..], convIds, userId);
      assert forall m :: m in msgs <==> m == msgs[0] || m in msgs[1..];
      if CountedIn(msgs[0], convIds, userId) then [msgs[0]] + rest else rest
  }

  /** `select("id", {count: "exact", head: true})` with the three filters on
      `messages`; the count is `None` when the backend returns no count. */
  function CountQuery(db: Backend, convIds: seq<string>, userId: string): (r: Result<Option<nat>, QueryError>)
    ensures CountUnread in db.failures <==> r.Failure?
    ensures r.Success? && r.value.Some? ==> r.value.value <= |db.messages|
  {
    if CountUnread in db.failures then Failure(db.failures[CountUnread])
    else if !db.countReturned then Success(None)
    else Success(Some(|MatchingMessages(db.messages, convIds, userId)|))
  }

  /** `fetchUnreadCount(userId)`: gather the ids of the user's conversations
      from both participant columns; with none, the count is 0; otherwise the
      count of unread messages in them not sent by the user. Every query
      error is passed on, and a missing count reads as 0. */
  function FetchUnreadCount(db: Backend, userId: string): (r: Result<nat, QueryError>)
    ensures ConversationsBy(User1) in db.failures ==> r == Failure(db.failures[ConversationsBy(User1)])
    ensures (ConversationsBy(User1) !in db.failures && ConversationsBy(User2) in db.failures)
            ==> r == Failure(db.failures[ConversationsBy(User2)])
    ensures (ConversationsBy(User1) !in db.failures && ConversationsBy(User2) !in db.failures
             && CountUnread in db.failures
             && IdsWhere(db.conversations, User1, userId) + IdsWhere(db.conversations, User2, userId) != [])
            ==> r == Failure(db.failures[CountUnread])
    ensures r.Success? ==> r.value <= |db.messages|
  {
    var conv1 :- SelectConversationIds(db, User1, userId);
    var conv2 :- SelectConversationIds(db, User2, userId);
    var convIds := conv1 + conv2;
    if |convIds| == 0 then Success(0)
    else
      var count :- CountQuery(db, convIds, userId);
      Success(count.GetOr(0))
  }

  // ---------------------------------------------------------------------
  // The count stated independently of the queries.

  /** The conversations `userId` takes part in, as a set of ids. */
  ghost function UserConversations(cs: seq<Conversation>, userId: string): set<string> {
    set c | c in cs && (c.user1Id == userId || c.user2Id == userId) :: c.id
  }

  /** The messages in `ids` that are unread and were sent by someone other than `userId`. */
  ghost function UnreadFor(msgs: seq<Message>, ids: set<string>, userId: string): seq<Message> {
    if msgs == [] then []
    else
      var m := msgs[0];
      (if m.conversationId in ids && !m.isRead && m.senderId != userId then [m] else [])
      + UnreadFor(msgs[1..], ids, userId)
  }

  /** The messages in `ids`, read or not, from anyone. */
  ghost function InConversations(msgs: seq<Message>, ids: set<string>): seq<Message> {
    if msgs == [] then []
    else (if msgs[0].conversationId in ids then [msgs[0]] else []) + InConversations(msgs[1..], ids)
  }

  /** The two participant queries together yield exactly the user's conversations. */
  lemma ConvIdsAreUserConversations(db: Backend, userId: string)
    ensures forall id :: id in IdsWhere(db.conversations, User1, userId) + IdsWhere(db.conversations, User2, userId)
                         <==> id in UserConversations(db.conversations, userId)
  {
    var cs := db.conversations;
    forall id ensures id in IdsWhere(cs, User1, userId) + IdsWhere(cs, User2, userId)
                      <==> id in UserConversations(cs, userId)
    {
      if id in UserConversations(cs, userId) {
        var c :| c in cs && (c.user1Id == userId || c.user2Id == userId) && c.id == id;
        assert Participant(c, User1) == userId || Participant(c, User2) == userId;
      }
    }
  }

  /** The count query depends on `convIds` only through membership. */
  lemma {:induction false} MatchingIsUnreadFor(msgs: seq<Message>, convIds: seq<string>, ids: set<string>, userId: string)
    requires forall id :: id in convIds <==> id in ids
    ensures MatchingMessages(msgs, convIds, userId) == UnreadFor(msgs, ids, userId)
  {
    if msgs != [] {
      MatchingIsUnreadFor(msgs[1..], convIds, ids, userId);
    }
  }

  lemma {:induction false} UnreadForEmpty(msgs: seq<Message>, userId: string)
    ensures UnreadFor(msgs, {}, userId) == []
  {
    if msgs != [] {
      UnreadForEmpty(msgs[1..], userId);
    }
  }

  /** With every query answering, the result is the number of unread
      messages from others in the user's conversations, or 0 when the
      backend omits the count. */
  lemma FetchUnreadCountCorrect(db: Backend, userId: string)
    requires db.failures == map[]
    ensures FetchUnreadCount(db, userId)
            == Success(if db.countReturned
                       then |UnreadFor(db.messages, UserConversations(db.conversations, userId), userId)|
                       else 0)
  {
    var ids := UserConversations(db.conversations, userId);
    var convIds := IdsWhere(db.conversations, User1, userId) + IdsWhere(db.conversations, User2, userId);
    ConvIdsAreUserConversations(db, userId);
    MatchingIsUnreadFor(db.messages, convIds, ids, userId);
    if |convIds| == 0 {
      assert ids == {};
      UnreadForEmpty(db.messages, userId);
    }
  }

  /** A user who takes part in no conversation has nothing unread, whatever
      the messages table holds and whether or not the count query would fail. */
  lemma NoConversationsNoUnread(db: Backend, userId: string)
    requires ConversationsBy(User1) !in db.failures && ConversationsBy(User2) !in db.failures
    requires forall c :: c in db.conversations ==> c.user1Id != userId && c.user2Id != userId
    ensures FetchUnreadCount(db, userId) == Success(0)
  {
    assert IdsWhere(db.conversations, User1, userId) == [];
    assert IdsWhere(db.conversations, User2, userId) == [];
  }

  /** The count fails exactly when one of the queries it reaches fails: the
      third query is only issued when the user has a conversation. */
  lemma FailsIffQueryFails(db: Backend, userId: string)
    ensures FetchUnreadCount(db, userId).Failure?
            <==> ConversationsBy(User1) in db.failures
                 || ConversationsBy(User2) in db.failures
                 || (CountUnread in db.failures && UserConversations(db.conversations, userId) != {})
  {
    ConvIdsAreUserConversations(db, userId);
    var convIds := IdsWhere(db.conversations, User1, userId) + IdsWhere(db.conversations, User2, userId);
    var ids := UserConversations(db.conversations, userId);
    if |convIds| == 0 {
      assert ids == {};
    } else {
      assert convIds[0] in ids;
    }
  }

  /** Only messages in the user's conversations can be counted. */
  lemma {:induction false} UnreadWithinConversations(msgs: seq<Message>, ids: set<string>, userId: string)
    ensures |UnreadFor(msgs, ids, userId)| <= |InConversations(msgs, ids)|
  {
    if msgs != [] {
      UnreadWithinConversations(msgs[1..], ids, userId);
    }
  }

  /** The messages a user sent do not count, whether read or not. */
  function FromOthers(msgs: seq<Message>, userId: string): (r: seq<Message>)
    ensures forall m :: m in r <==> m in msgs && m.senderId != userId
  {
    if msgs == [] then []
    else
      assert forall m :: m in msgs <==> m == msgs[0] || m in msgs[1..];
      (if msgs[0].senderId != userId then [msgs[0]] else []) + FromOthers(msgs[1..], userId)
  }

  lemma {:induction false} UnreadIgnoresOwn(msgs: seq<Message>, ids: set<string>, userId: string)
    ensures UnreadFor(msgs, ids, userId) == UnreadFor(FromOthers(msgs, userId), ids, userId)
  {
    if msgs != [] {
      var m, rest := msgs[0], msgs[1..];
      UnreadIgnoresOwn(rest, ids, userId);
      if m.senderId != userId {
        var others := FromOthers(msgs, userId);
        assert others == [m] + FromOthers(rest, userId);
        assert others[0] == m && others[1..] == FromOthers(rest, userId);
      } else {
        assert FromOthers(msgs, userId) == FromOthers(rest, userId);
        assert UnreadFor(msgs, ids, userId) == UnreadFor(rest, ids, userId);
      }
    }
  }

  /** Two message tables that agree on the messages other users sent give the
      same count: adding, removing, reading or unreading one's own messages
      changes nothing. */
  lemma OwnMessagesNeverCounted(db: Backend, msgs: seq<Message>, userId: string)
    requires db.failures == map[]
    requires FromOthers(msgs, userId) == FromOthers(db.messages, userId)
    ensures FetchUnreadCount(db.(messages := msgs), userId) == FetchUnreadCount(db, userId)
  {
    var ids := UserConversations(db.conversations, userId);
    FetchUnreadCountCorrect(db, userId);
    FetchUnreadCountCorrect(db.(messages := msgs), userId);
    UnreadIgnoresOwn(msgs, ids, userId);
    UnreadIgnoresOwn(db.messages, ids, userId);
  }

  /** The count is bounded by the number of messages in the user's conversations. */
  lemma CountBounded(db: Backend, userId: string)
    requires FetchUnreadCount(db, userId).Success?
    ensures FetchUnreadCount(db, userId).value
            <= |InConversations(db.messages, UserConversations(db.conversations, userId))|
  {
    var ids := UserConversations(db.conversations, userId);
    var convIds := IdsWhere(db.conversations, User1, userId) + IdsWhere(db.conversations, User2, userId);
    ConvIdsAreUserConversations(db, userId);
    MatchingIsUnreadFor(db.messages, convIds, ids, userId);
    UnreadWithinConversations(db.messages, ids, userId);
  }

  /** A conversation in which the user is on both sides shows up twice among
      the gathered ids, yet its one unread message is counted once. */
  lemma SelfConversationCountedOnce()
    ensures var db := Backend([Conversation("c", "u", "u")], [Message("c", "v", false)], map[], true);
            IdsWhere(db.conversations, User1, "u") + IdsWhere(db.conversations, User2, "u") == ["c", "c"]
            && FetchUnreadCount(db, "u") == Success(1)
  {
  }
}
