/**
 * `DashboardDataController`: the dashboard's list of the user's chats,
 * newest first, and the messages of the newest chat. The chats and
 * messages tables are sequences in ascending id order.
 */
module Dashboard {
  import opened Wrappers
  import opened JavaStrings
  import opened ChatModel

  /** The elements of `s` satisfying `p`, in order: a repository query. */
  function Filter<T(!new)>(s: seq<T>, p: T -> bool): (r: seq<T>)
    ensures |r| <= |s|
    ensures forall x :: x in r <==> x in s && p(x)
    decreases |s|
  {
    if s == [] then []
    else
      var rest := Filter(s[1..], p);
      assert forall x :: x in s <==> x == s[0] || x in s[1..];
      if p(s[0]) then [s[0]] + rest else rest
  }

  /** Ids strictly increase along the chats table, as identity columns make them. */
  predicate Ascending(chats: seq<Chat>) {
    forall i, j :: 0 <= i < j < |chats| ==> chats[i].id < chats[j].id
  }

  predicate Descending(chats: seq<Chat>) {
    forall i, j :: 0 <= i < j < |chats| ==> chats[i].id > chats[j].id
  }

  /** `findByUserIdOrderByIdDesc`. */
  function UserChats(chats: seq<Chat>, userId: int): (r: seq<Chat>)
    ensures forall c :: c in r <==> c in chats && c.userId == userId
  {
    var owned := Filter(chats, (c: Chat) => c.userId == userId);
    ReverseKeepsMembers(owned);
    Reverse(owned)
  }

  /** Reversing a list keeps its members. */
  lemma ReverseKeepsMembers<T>(s: seq<T>)
    ensures forall x :: x in Reverse(s) <==> x in s
  {
    ReverseSameMultiset(s);
    assert forall x :: x in Reverse(s) <==> x in multiset(Reverse(s));
  }

  /** Ids strictly increase along the messages table. */
  predicate MessagesAscending(messages: seq<ChatMessage>) {
    forall i, j :: 0 <= i < j < |messages| ==> messages[i].id < messages[j].id
  }

  /** `findByChatIdOrderByIdAsc`: with the table in id order, the chat's messages in ascending id order. */
  function ChatMessages(messages: seq<ChatMessage>, chatId: int): (r: seq<ChatMessage>)
    ensures forall m :: m in r <==> m in messages && m.chatId == chatId
    ensures MessagesAscending(messages) ==> MessagesAscending(r)
  {
    var key := (m: ChatMessage) => m.id;
    var r := Filter(messages, (m: ChatMessage) => m.chatId == chatId);
    if MessagesAscending(messages) then
      assert IncreasingBy(messages, key);
      FilterKeepsOrder(messages, (m: ChatMessage) => m.chatId == chatId, key);
      r
    else r
  }

  /** A key that strictly increases along the sequence. */
  predicate IncreasingBy<T>(s: seq<T>, key: T -> int) {
    forall i, j :: 0 <= i < j < |s| ==> key(s[i]) < key(s[j])
  }

  /** A query keeps the table's order: a key increasing along the table increases along the result. */
  lemma {:induction false} FilterKeepsOrder<T(!new)>(s: seq<T>, p: T -> bool, key: T -> int)
    requires IncreasingBy(s, key)
    ensures IncreasingBy(Filter(s, p), key)
    decreases |s|
  {
    if s != [] {
      assert IncreasingBy(s[1..], key);
      FilterKeepsOrder(s[1..], p, key);
      var rest := Filter(s[1..], p);
      forall k | 0 <= k < |rest|
        ensures key(s[0]) < key(rest[k])
      {
        assert rest[k] in s[1..];
        var j :| 0 <= j < |s[1..]| && s[1..][j] == rest[k];
        assert s[j + 1] == rest[k];
      }
    }
  }

  const UntitledChat: string := "Untitled chat"
  const Subtitle: string := "AI travel recommendations"

  /** The title shown for a chat: its own unless null or blank. */
  function DisplayTitle(title: Option<string>): (r: string)
    ensures !IsBlank(r)
    ensures title.Some? && !IsBlank(title.value) ==> r == title.value
    ensures title.None? || IsBlank(title.value) ==> r == UntitledChat
  {
    if title.None? || IsBlank(title.value) then
      assert !IsJavaWhitespace(UntitledChat[0]);
      UntitledChat
    else title.value
  }

  /** Showing a shown title again changes nothing. */
  lemma DisplayTitleStable(title: Option<string>)
    ensures DisplayTitle(Some(DisplayTitle(title))) == DisplayTitle(title)
  {
  }

  datatype ChatSummary = ChatSummary(id: int, title: string, subtitle: string)
  datatype MessageEntry = MessageEntry(id: int, role: string, content: string, timestamp: string)
  datatype DashboardData = DashboardData(previousRecommendations: seq<ChatSummary>, chatMessages: seq<MessageEntry>)

  function Summaries(chats: seq<Chat>): (r: seq<ChatSummary>)
    ensures |r| == |chats|
    ensures forall i :: 0 <= i < |chats| ==>
              r[i].id == chats[i].id && r[i].title == DisplayTitle(chats[i].title) && r[i].subtitle == Subtitle
  {
    seq(|chats|, i requires 0 <= i < |chats| => ChatSummary(chats[i].id, DisplayTitle(chats[i].title), Subtitle))
  }

  /**
   * The message entries, one per message in order; `Map.of` refuses a null
   * value, so a message with a null role or text makes the request fail.
   */
  function Entries(messages: seq<ChatMessage>): (r: Option<seq<MessageEntry>>)
    ensures r.Some? <==> forall i :: 0 <= i < |messages| ==> messages[i].role.Some? && messages[i].text.Some?
    ensures r.Some? ==> |r.value| == |messages|
    ensures r.Some? ==> forall i :: 0 <= i < |messages| ==>
              r.value[i] == MessageEntry(messages[i].id, messages[i].role.value, messages[i].text.value, "")
    decreases |messages|
  {
    if messages == [] then Some([])
    else
      var m := messages[0];
      var rest := Entries(messages[1..]);
      assert forall i :: 1 <= i < |messages| ==> messages[i] == messages[1..][i - 1];
      if m.role.None? || m.text.None? || rest.None? then None
      else Some([MessageEntry(m.id, m.role.value, m.text.value, "")] + rest.value)
  }

  /**
   * `data`: empty lists for a request without a user id; otherwise every
   * chat of the user, newest first, and the messages of the first of them.
   * `None` is the failure a null message field causes.
   */
  function Data(userIdAttribute: Option<int>, chats: seq<Chat>, messages: seq<ChatMessage>): (r: Option<DashboardData>)
    ensures userIdAttribute.None? ==> r == Some(DashboardData([], []))
    ensures userIdAttribute.Some? ==>
              var mine := UserChats(chats, userIdAttribute.value);
              && (mine == [] ==> r == Some(DashboardData([], [])))
              && (mine != [] ==> (r.Some? <==> Entries(ChatMessages(messages, mine[0].id)).Some?))
              && (r.Some? ==> r.value.previousRecommendations == Summaries(mine))
              && (r.Some? && mine != [] ==> r.value.chatMessages == Entries(ChatMessages(messages, mine[0].id)).value)
  {
    match userIdAttribute
    case None => Some(DashboardData([], []))
    case Some(userId) =>
      var mine := UserChats(chats, userId);
      if mine == [] then Some(DashboardData(Summaries(mine), []))
      else
        match Entries(ChatMessages(messages, mine[0].id))
        case None => None
        case Some(entries) => Some(DashboardData(Summaries(mine), entries))
  }

  lemma FilterKeepsAscending(chats: seq<Chat>, p: Chat -> bool)
    requires Ascending(chats)
    ensures Ascending(Filter(chats, p))
  {
    var key := (c: Chat) => c.id;
    assert IncreasingBy(chats, key);
    FilterKeepsOrder(chats, p, key);
    assert IncreasingBy(Filter(chats, p), key);
  }

  /** With the table in id order, the dashboard lists the user's chats newest first. */
  lemma UserChatsNewestFirst(chats: seq<Chat>, userId: int)
    requires Ascending(chats)
    ensures Descending(UserChats(chats, userId))
  {
    FilterKeepsAscending(chats, (c: Chat) => c.userId == userId);
  }

  /**
   * The messages shown are those of the user's chat with the greatest id,
   * one entry per message in the order the query returns them, and in
   * ascending id order whenever the messages table is.
   */
  lemma ShowsNewestChat(userId: int, chats: seq<Chat>, messages: seq<ChatMessage>)
    requires Ascending(chats)
    requires Data(Some(userId), chats, messages).Some?
    requires exists c :: c in chats && c.userId == userId
    ensures UserChats(chats, userId) != []
    ensures forall c :: c in chats && c.userId == userId ==> c.id <= UserChats(chats, userId)[0].id
    ensures var newest := UserChats(chats, userId)[0];
            var shown := ChatMessages(messages, newest.id);
            var cm := Data(Some(userId), chats, messages).value.chatMessages;
            && cm == Entries(shown).value
            && |cm| == |shown|
            && (forall i :: 0 <= i < |cm| ==> cm[i].id == shown[i].id && shown[i] in messages && shown[i].chatId == newest.id)
            && (MessagesAscending(messages) ==> forall i, j :: 0 <= i < j < |cm| ==> cm[i].id < cm[j].id)
  {
    var mine := UserChats(chats, userId);
    var c :| c in chats && c.userId == userId;
    assert c in mine;
    UserChatsNewestFirst(chats, userId);
    FirstIsGreatest(mine);
    var shown := ChatMessages(messages, mine[0].id);
    var cm := Data(Some(userId), chats, messages).value.chatMessages;
    assert cm == Entries(shown).value;
    assert forall i :: 0 <= i < |shown| ==> shown[i] in shown;
  }

  /** The first of a list in descending id order has the greatest id. */
  lemma FirstIsGreatest(chats: seq<Chat>)
    requires chats != [] && Descending(chats)
    ensures forall c :: c in chats ==> c.id <= chats[0].id
  {
    forall c | c in chats
      ensures c.id <= chats[0].id
    {
      var k :| 0 <= k < |chats| && chats[k] == c;
      if k > 0 {
        assert chats[0].id > chats[k].id;
      }
    }
  }

  /** Every chat summary carries a non-blank title, and a chat's own non-blank title is kept. */
  lemma TitlesNeverBlank(userId: int, chats: seq<Chat>, messages: seq<ChatMessage>, i: int)
    requires Data(Some(userId), chats, messages).Some?
    requires 0 <= i < |Data(Some(userId), chats, messages).value.previousRecommendations|
    ensures var s := Data(Some(userId), chats, messages).value.previousRecommendations[i];
            var c := UserChats(chats, userId)[i];
            && !IsBlank(s.title) && c in chats && c.userId == userId
            && (c.title.Some? && !IsBlank(c.title.value) ==> s.title == c.title.value)
  {
  }
}
