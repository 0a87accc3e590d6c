/**
 * Chat messages as the chat endpoints see them: a chat's history is the list
 * the repository returns in ascending id order, and the helpers that walk it
 * (`findLastUserMessageIndex`, `deleteMessagesAfterIndex`) defend against
 * null entries, so a history is a sequence of nullable messages.
 *
 * Also here: the upload-marker messages the upload endpoints store and
 * `isUploadMessage` recognises, and the JSON shape `messageDto` gives a
 * message.
 */
module ChatModel {
  import opened Wrappers
  import opened JavaStrings
  import opened CodeFences

  /**
   * A stored chat message. `itineraryJson` is the extracted itinerary the
   * controller attaches to assistant replies.
   */
  datatype ChatMessage = ChatMessage(
    id: int,
    chatId: int,
    role: Option<string>,
    text: Option<string>,
    itineraryJson: Option<string>)

  /** A chat and the user it belongs to. */
  datatype Chat = Chat(id: int, userId: int, title: Option<string>)

  /** The chats table, by id. */
  type Chats = map<int, Chat>

  /** `findByIdAndUserId`: the chat with that id, provided the user owns it. */
  function FindOwnedChat(chats: Chats, chatId: int, userId: int): Option<Chat> {
    if chatId in chats && chats[chatId].userId == userId then Some(chats[chatId]) else None
  }

  /** A fetched message list; `None` entries are null references. */
  type History = seq<Option<ChatMessage>>

  const UserRole: string := "user"
  const AssistantRole: string := "assistant"

  /** `message != null && "user".equals(message.getRole())`. */
  predicate IsUserMessage(m: Option<ChatMessage>) {
    m.Some? && m.value.role == Some(UserRole)
  }

  /** The non-null entries of a history, in order. */
  function Compact(h: History): (r: seq<ChatMessage>)
    ensures |r| <= |h|
    ensures forall m :: m in r <==> Some(m) in h
    decreases |h|
  {
    if h == [] then []
    else
      var rest := Compact(h[1..]);
      assert forall m :: Some(m) in h <==> h[0] == Some(m) || Some(m) in h[1..];
      match h[0]
      case None => rest
      case Some(m) => [m] + rest
  }

  lemma {:induction false} CompactConcat(a: History, b: History)
    ensures Compact(a + b) == Compact(a) + Compact(b)
    decreases |a|
  {
    if a != [] {
      assert (a + b)[1..] == a[1..] + b;
      CompactConcat(a[1..], b);
    } else {
      assert a + b == b;
    }
  }

  function Reverse<T>(s: seq<T>): (r: seq<T>)
    ensures |r| == |s|
    ensures forall i :: 0 <= i < |s| ==> r[i] == s[|s| - 1 - i]
  {
    if s == [] then [] else Reverse(s[1..]) + [s[0]]
  }

  /**
   * The index `findLastUserMessageIndex` returns: the greatest index holding
   * a user message, or -1 when there is none (an empty history included).
   */
  function LastUserIndex(h: History): (r: int)
    ensures -1 <= r < |h|
    ensures r == -1 <==> (forall i :: 0 <= i < |h| ==> !IsUserMessage(h[i]))
    ensures r >= 0 ==> IsUserMessage(h[r])
    ensures forall j :: r < j < |h| ==> !IsUserMessage(h[j])
  {
    LastUserBefore(h, |h|)
  }

  /** The greatest index below `n` holding a user message, or -1. */
  function LastUserBefore(h: History, n: nat): (r: int)
    requires n <= |h|
    ensures -1 <= r < n
    ensures r == -1 <==> (forall i :: 0 <= i < n ==> !IsUserMessage(h[i]))
    ensures r >= 0 ==> IsUserMessage(h[r])
    ensures forall j :: r < j < n ==> !IsUserMessage(h[j])
  {
    if n == 0 then -1
    else if IsUserMessage(h[n - 1]) then n - 1
    else LastUserBefore(h, n - 1)
  }

  /** The controller's backwards scan; it finds the index defined above. */
  method FindLastUserMessageIndex(messages: History) returns (r: int)
    ensures r == LastUserIndex(messages)
    ensures r >= 0 ==> IsUserMessage(messages[r])
    ensures forall j :: r < j < |messages| ==> !IsUserMessage(messages[j])
  {
    if |messages| == 0 {
      return -1;
    }
    var i := |messages| - 1;
    while i >= 0
      invariant -1 <= i < |messages|
      invariant forall j :: i < j < |messages| ==> !IsUserMessage(messages[j])
      decreases i + 1
    {
      var message := messages[i];
      if message.Some? && message.value.role == Some(UserRole) {
        return i;
      }
      i := i - 1;
    }
    return -1;
  }

  /**
   * `deleteMessagesAfterIndex`: the non-null messages after `lastUserIndex`,
   * in the order the backwards loop deletes them; nothing for a negative
   * index.
   */
  method DeleteMessagesAfterIndex(messages: History, lastUserIndex: int) returns (deleted: seq<ChatMessage>)
    ensures lastUserIndex < 0 ==> deleted == []
    ensures 0 <= lastUserIndex < |messages| ==> deleted == Reverse(Compact(messages[lastUserIndex + 1..]))
    ensures lastUserIndex >= |messages| ==> deleted == []
  {
    deleted := [];
    if lastUserIndex < 0 {
      return;
    }
    var i := |messages| - 1;
    while i > lastUserIndex
      invariant lastUserIndex <= i < |messages| || (i == |messages| - 1 && i < lastUserIndex)
      invariant i >= lastUserIndex ==> deleted == Reverse(Compact(messages[i + 1..]))
      invariant i < lastUserIndex ==> deleted == []
      decreases i
    {
      var message := messages[i];
      assert messages[i..][1..] == messages[i + 1..];
      if message != None {
        deleted := deleted + [message.value];
      }
      i := i - 1;
    }
  }

  /**
   * Truncating at the last user message splits the history's messages
   * without loss: what is kept and what is deleted together are exactly
   * the messages fetched.
   */
  lemma TruncationPartitionsHistory(h: History, idx: int)
    requires 0 <= idx < |h|
    ensures multiset(Compact(h)) == multiset(Compact(h[..idx + 1])) + multiset(Reverse(Compact(h[idx + 1..])))
  {
    assert h == h[..idx + 1] + h[idx + 1..];
    CompactConcat(h[..idx + 1], h[idx + 1..]);
    ReverseSameMultiset(Compact(h[idx + 1..]));
  }

  lemma {:induction false} ReverseSameMultiset<T>(s: seq<T>)
    ensures multiset(Reverse(s)) == multiset(s)
    decreases |s|
  {
    if s != [] {
      ReverseSameMultiset(s[1..]);
      assert s == [s[0]] + s[1..];
    }
  }

  // ---------------------------------------------------------------------
  // Upload markers
  // ---------------------------------------------------------------------

  /** The three upload endpoints. */
  datatype UploadKind = Ticket | Accommodation | OtherDocument

  /** The text the upload endpoint stores as the user's message, before the file name. */
  function MarkerPrefix(kind: UploadKind): string {
    match kind
    case Ticket => "Uploaded airplane ticket: "
    case Accommodation => "Uploaded accommodation invoice: "
    case OtherDocument => "Uploaded document: "
  }

  /** The file name used when the upload has no original file name. */
  function DefaultFileName(kind: UploadKind): string {
    match kind
    case Ticket => "ticket"
    case Accommodation => "accommodation"
    case OtherDocument => "document"
  }

  /** The file name passed on to the analysis and shown in the marker. */
  function UploadFileName(kind: UploadKind, originalName: Option<string>): string {
    originalName.GetOr(DefaultFileName(kind))
  }

  function UploadMarker(kind: UploadKind, originalName: Option<string>): string {
    MarkerPrefix(kind) + UploadFileName(kind, originalName)
  }

  const TicketTag: string := "uploaded airplane ticket:"
  const AccommodationTag: string := "uploaded accommodation invoice:"
  const DocumentTag: string := "uploaded document:"

  /**
   * `isUploadMessage`: false for null; otherwise whether the trimmed,
   * lower-cased text starts with one of the three marker tags.
   */
  predicate IsUploadMessage(text: Option<string>) {
    text.Some? &&
    var normalized := ToLower(Trim(text.value));
    StartsWith(normalized, TicketTag) || StartsWith(normalized, AccommodationTag)
    || StartsWith(normalized, DocumentTag)
  }

  /** The marker tag that the prefix of each kind lower-cases to. */
  function MarkerTag(kind: UploadKind): string {
    match kind
    case Ticket => TicketTag
    case Accommodation => AccommodationTag
    case OtherDocument => DocumentTag
  }

  lemma MarkerPrefixShape(kind: UploadKind)
    ensures |MarkerPrefix(kind)| == |MarkerTag(kind)| + 1
    ensures !IsTrimChar(MarkerPrefix(kind)[0])
    ensures !IsTrimChar(MarkerPrefix(kind)[|MarkerTag(kind)| - 1])
    ensures ToLower(MarkerPrefix(kind)[..|MarkerTag(kind)|]) == MarkerTag(kind)
  {
    match kind
    case Ticket => TicketPrefixShape();
    case Accommodation => AccommodationPrefixShape();
    case OtherDocument => DocumentPrefixShape();
  }

  lemma TicketPrefixShape()
    ensures ToLower(MarkerPrefix(Ticket)[..|TicketTag|]) == TicketTag
  {
    assert MarkerPrefix(Ticket)[..|TicketTag|] == "Uploaded airplane ticket:";
  }

  lemma AccommodationPrefixShape()
    ensures ToLower(MarkerPrefix(Accommodation)[..|AccommodationTag|]) == AccommodationTag
  {
    assert MarkerPrefix(Accommodation)[..|AccommodationTag|] == "Uploaded accommodation invoice:";
  }

  lemma DocumentPrefixShape()
    ensures ToLower(MarkerPrefix(OtherDocument)[..|DocumentTag|]) == DocumentTag
  {
    assert MarkerPrefix(OtherDocument)[..|DocumentTag|] == "Uploaded document:";
  }

  /**
   * Trimming text that starts with a non-empty word ending in a kept
   * character keeps that word as a prefix.
   */
  lemma TrimKeepsPrefix(p: string, x: string)
    requires p != [] && !IsTrimChar(p[0]) && !IsTrimChar(p[|p| - 1])
    ensures StartsWith(Trim(p + x), p)
  {
    var s := p + x;
    var st := LeadingTrimCount(s);
    KeptBound(s, st, 0);
    var r := Trim(s);
    assert s[|p| - 1] == p[|p| - 1];
    DroppedBound(s, st + |r|, |p| - 1);
    assert r[..|p|] == s[..|p|];
  }

  lemma LowerPrefix(s: string, p: string)
    requires StartsWith(s, p)
    ensures StartsWith(ToLower(s), ToLower(p))
  {
    assert ToLower(s)[..|p|] == ToLower(p);
  }

  /**
   * Every marker an upload endpoint stores is recognised as an upload, for
   * any file name, including a missing, empty or blank one.
   */
  lemma UploadMarkerIsRecognised(kind: UploadKind, originalName: Option<string>)
    ensures IsUploadMessage(Some(UploadMarker(kind, originalName)))
  {
    var pre := MarkerPrefix(kind);
    var tag := MarkerTag(kind);
    MarkerPrefixShape(kind);
    var word := pre[..|tag|];
    var x := pre[|tag|..] + UploadFileName(kind, originalName);
    assert UploadMarker(kind, originalName) == word + x;
    TrimKeepsPrefix(word, x);
    LowerPrefix(Trim(word + x), word);
  }

  /**
   * A text that, once trimmed, starts with something other than `u` or `U`
   * is never taken for an upload.
   */
  lemma OtherInitialIsNoUpload(text: string)
    requires Trim(text) != [] && LowerChar(Trim(text)[0]) != 'u'
    ensures !IsUploadMessage(Some(text))
  {
    var n := ToLower(Trim(text));
    assert n[0] != 'u';
  }

  // ---------------------------------------------------------------------
  // Message DTO
  // ---------------------------------------------------------------------

  /**
   * The JSON object `messageDto` builds. `itinerary` is `None` when the key
   * is absent from the map.
   */
  datatype MessageDto = MessageDto(
    id: int,
    role: Option<string>,
    content: Option<string>,
    timestamp: string,
    itinerary: Option<string>)

  /**
   * `messageDto`: assistant replies are shown fence-stripped, every other
   * role verbatim; the itinerary key is present only for a non-blank
   * stored itinerary.
   */
  function ToMessageDto(m: ChatMessage): (d: MessageDto)
    ensures d.id == m.id && d.role == m.role && d.timestamp == []
    ensures m.role == Some(AssistantRole) ==> d.content == StripCodeFences(m.text)
    ensures m.role != Some(AssistantRole) ==> d.content == m.text
    ensures d.content.None? <==> m.text.None?
    ensures d.itinerary.Some? <==> m.itineraryJson.Some? && !IsBlank(m.itineraryJson.value)
    ensures d.itinerary.Some? ==> d.itinerary == m.itineraryJson
  {
    var content := if m.role == Some(AssistantRole) then StripCodeFences(m.text) else m.text;
    var itinerary :=
      if m.itineraryJson.Some? && !IsBlank(m.itineraryJson.value) then m.itineraryJson else None;
    MessageDto(m.id, m.role, content, [], itinerary)
  }

  /**
   * An assistant reply is stored already fence-stripped; the DTO shows the
   * stored text unchanged unless the stripped reply was itself a fenced
   * block (a reply wrapped in two fences loses a second layer).
   */
  lemma AssistantDtoShowsStoredReply(id: int, chatId: int, raw: string, itinerary: Option<string>)
    requires !IsFenced(StripCodeFences(Some(raw)).value)
    ensures var stored := StripCodeFences(Some(raw));
            ToMessageDto(ChatMessage(id, chatId, Some(AssistantRole), stored, itinerary)).content == stored
  {
    StripIdempotentUnlessNested(Some(raw));
  }
}
