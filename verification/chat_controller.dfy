/**
 * The chat endpoints of `ChatController` that rewrite a chat's history:
 * the three document uploads, editing the latest user message,
 * regenerating the latest reply, and the persistence outcome of a streamed
 * reply. The language-model client is a record of functions; a chat's
 * stored messages are the list the repository returns in ascending id
 * order, and each flow says which list is stored afterwards.
 */
module ChatController {
  import opened Wrappers
  import opened JavaStrings
  import opened CodeFences
  import opened ChatModel
  import opened LlmCommon
  import opened TripProfiles
  import OpenAiService

  /**
   * What the controller asks of `OpenAiChatService`. `KeyMissing` is the
   * `IllegalStateException` of a missing key and `CallFailed` every other
   * exception. `streamChat` may return null.
   */
  datatype Services = Services(
    chat: (History, Option<TripProfile>) -> ServiceResult<string>,
    streamChat: (History, Option<TripProfile>) -> ServiceResult<Option<string>>,
    analyze: (UploadKind, History, string, seq<bv8>, string) -> ServiceResult<string>,
    generateTitle: (string, string) -> ServiceResult<string>,
    extractItinerary: string -> Option<string>)

  const AuthenticationRequired: string := "Authentication required."
  const UserNotFound: string := "User not found."
  const ChatNotFound: string := "Chat not found."
  const ApiKeyMissing: string := "OpenAI API key is not configured on the server."
  const EngineUnreachable: string := "Failed to contact the recommendation engine."

  /** The JSON answers of the endpoints modelled here. */
  datatype ChatResponse =
    | BadRequest(error: string)
    | Unauthorized(error: string)
    | NotFound(error: string)
    | ServerError(error: string)
    | BadGateway(error: string)
    | Conversation(chatId: int, messages: seq<MessageDto>)
    | Uploaded(chatId: int, chatTitle: Option<string>, messages: seq<MessageDto>)

  /** `buildMessageDtos`: one DTO per message, in order. */
  function Dtos(messages: seq<ChatMessage>): (r: seq<MessageDto>)
    ensures |r| == |messages|
    ensures forall i {:trigger r[i]} :: 0 <= i < |messages| ==> r[i] == ToMessageDto(messages[i])
  {
    seq(|messages|, i requires 0 <= i < |messages| => ToMessageDto(messages[i]))
  }

  /** Every entry present: the history a list of stored messages reads back as. */
  function Fetched(messages: seq<ChatMessage>): (h: History)
    ensures |h| == |messages|
    ensures forall i :: 0 <= i < |messages| ==> h[i] == Some(messages[i])
  {
    seq(|messages|, i requires 0 <= i < |messages| => Some(messages[i]))
  }

  lemma {:induction false} CompactFetched(messages: seq<ChatMessage>)
    ensures Compact(Fetched(messages)) == messages
    decreases |messages|
  {
    if messages != [] {
      assert Fetched(messages)[1..] == Fetched(messages[1..]);
      CompactFetched(messages[1..]);
      assert messages == [messages[0]] + messages[1..];
    }
  }

  // ---------------------------------------------------------------------
  // Uploads
  // ---------------------------------------------------------------------

  /** The multipart file: its declared content type, its bytes and its original name. */
  datatype UploadFile = UploadFile(contentType: Option<string>, bytes: seq<bv8>, originalName: Option<string>)

  /** 10 MiB. */
  const MaxUploadBytes: nat := 10 * 1024 * 1024

  const UnsupportedType: string := "Only PDF or image files are supported."
  const FileTooLarge: string := "File too large. Please upload files up to 10MB."

  function FileRequired(kind: UploadKind): string {
    match kind
    case Ticket => "A ticket file is required."
    case Accommodation => "An accommodation invoice or booking file is required."
    case OtherDocument => "A document file is required."
  }

  function UploadFailed(kind: UploadKind): string {
    match kind
    case Ticket => "Failed to process the ticket. Please try again."
    case Accommodation => "Failed to process the accommodation document. Please try again."
    case OtherDocument => "Failed to process the document. Please try again."
  }

  /**
   * An image type, or "application/pdf" in any case: the same tests the
   * OpenAI client uses to pick the document block.
   */
  predicate IsSupportedType(contentType: Option<string>) {
    OpenAiService.IsImageType(contentType) || OpenAiService.IsPdfType(contentType)
  }

  /** The conditions an upload must meet before the user is even looked at. */
  predicate AcceptableFile(file: Option<UploadFile>) {
    && file.Some? && |file.value.bytes| > 0
    && IsSupportedType(file.value.contentType)
    && |file.value.bytes| <= MaxUploadBytes
  }

  /**
   * The checks every upload endpoint makes before touching the store: a
   * present, non-empty file, a supported type, at most 10 MiB, then a
   * signed-in user. `None` means all passed.
   */
  function CheckUpload(kind: UploadKind, file: Option<UploadFile>, userIdAttribute: Option<int>): (r: Option<ChatResponse>)
    ensures r.None? <==> AcceptableFile(file) && userIdAttribute.Some?
    ensures (file.None? || |file.value.bytes| == 0) ==> r == Some(BadRequest(FileRequired(kind)))
    ensures file.Some? && |file.value.bytes| > 0 && !IsSupportedType(file.value.contentType) ==>
              r == Some(BadRequest(UnsupportedType))
    ensures (file.Some? && |file.value.bytes| > 0 && IsSupportedType(file.value.contentType)
             && |file.value.bytes| > MaxUploadBytes) ==> r == Some(BadRequest(FileTooLarge))
    ensures AcceptableFile(file) && userIdAttribute.None? ==> r == Some(Unauthorized(AuthenticationRequired))
  {
    if file.None? || |file.value.bytes| == 0 then Some(BadRequest(FileRequired(kind)))
    else if !IsSupportedType(file.value.contentType) then Some(BadRequest(UnsupportedType))
    else if |file.value.bytes| > MaxUploadBytes then Some(BadRequest(FileTooLarge))
    else if userIdAttribute.None? then Some(Unauthorized(AuthenticationRequired))
    else None
  }

  /** A file the checks refuse is refused the same way whether or not anyone is signed in. */
  lemma FileCheckedBeforeAuthentication(kind: UploadKind, file: Option<UploadFile>, a: Option<int>, b: Option<int>)
    requires !AcceptableFile(file)
    ensures CheckUpload(kind, file, a) == CheckUpload(kind, file, b)
    ensures CheckUpload(kind, file, a).value.BadRequest?
  {
  }

  /**
   * With the OpenAI client, an accepted upload is always sent as an image
   * or as extracted PDF text, never through the base64 fallback block.
   */
  lemma AcceptedUploadNeverFallsBack(file: UploadFile, prefix: Option<string>,
                                     pdf: seq<bv8> -> OpenAiService.PdfText, base64: seq<bv8> -> string)
    requires AcceptableFile(Some(file))
    ensures var b := OpenAiService.DocumentBlock(file.contentType, file.bytes, prefix, pdf, base64);
            b.ImagePart? || b == TextPart(OpenAiService.ExtractPdfText(file.bytes, prefix, pdf))
  {
  }

  /** What an upload leaves behind: the answer, the chats table, and the messages it stored. */
  datatype UploadResult = UploadResult(response: ChatResponse, chats: Chats, stored: seq<ChatMessage>)

  /** The stored marker: the user message an upload adds before analysis. */
  function MarkerMessage(kind: UploadKind, file: UploadFile, id: int, chatId: int): ChatMessage {
    ChatMessage(id, chatId, Some(UserRole), Some(UploadMarker(kind, file.originalName)), None)
  }

  /** The title a new chat gets: the generated one, or "New travel chat" if generation failed. */
  function NewChatTitle(s: Services, userText: string, reply: string): (t: string)
    ensures s.generateTitle(userText, reply).Returned? ==> t == s.generateTitle(userText, reply).value
    ensures !s.generateTitle(userText, reply).Returned? ==> t == DefaultTitle
  {
    match s.generateTitle(userText, reply)
    case Returned(t) => t
    case _ => DefaultTitle
  }

  /** The chat an upload goes to: a new untitled chat without a chat id, else the caller's own chat. */
  function ResolveChat(chatId: Option<int>, userId: int, chats: Chats, newChatId: int): (r: Option<Chat>)
    ensures chatId.None? ==> r == Some(Chat(newChatId, userId, None))
    ensures chatId.Some? ==> r == FindOwnedChat(chats, chatId.value, userId)
  {
    if chatId.None? then Some(Chat(newChatId, userId, None)) else FindOwnedChat(chats, chatId.value, userId)
  }

  /**
   * An accepted upload once its chat is known: the marker is stored; the
   * analysis sees the chat's messages ending with the marker; a returned
   * reply is stored fence-stripped, and a new chat is then titled from the
   * marker and the raw reply.
   */
  function StoreUpload(kind: UploadKind, f: UploadFile, c: Chat, isNewChat: bool, prior: History,
                       markerId: int, replyId: int, chats: Chats, s: Services): (r: UploadResult)
    requires f.contentType.Some?
    ensures var marker := MarkerMessage(kind, f, markerId, c.id);
            var analysis := s.analyze(kind, prior + [Some(marker)], UploadFileName(kind, f.originalName),
                                      f.bytes, f.contentType.value);
            && |r.stored| >= 1 && r.stored[0] == marker && IsUploadMessage(marker.text)
            && (analysis.KeyMissing? ==> r == UploadResult(ServerError(ApiKeyMissing), chats[c.id := c], [marker]))
            && (analysis.CallFailed? ==> r == UploadResult(BadGateway(UploadFailed(kind)), chats[c.id := c], [marker]))
            && (analysis.Returned? ==>
                  && |r.stored| == 2
                  && r.stored[1] == ChatMessage(replyId, c.id, Some(AssistantRole), StripCodeFences(Some(analysis.value)), None)
                  && c.id in r.chats
                  && r.response == Uploaded(c.id, r.chats[c.id].title, Dtos(r.stored))
                  && (isNewChat ==> r.chats == chats[c.id := c.(title := Some(NewChatTitle(s, marker.text.value, analysis.value)))])
                  && (!isNewChat ==> r.chats == chats[c.id := c]))
  {
    var marker := MarkerMessage(kind, f, markerId, c.id);
    UploadMarkerIsRecognised(kind, f.originalName);
    match s.analyze(kind, prior + [Some(marker)], UploadFileName(kind, f.originalName), f.bytes, f.contentType.value)
    case KeyMissing => UploadResult(ServerError(ApiKeyMissing), chats[c.id := c], [marker])
    case CallFailed => UploadResult(BadGateway(UploadFailed(kind)), chats[c.id := c], [marker])
    case Returned(raw) =>
      var reply := ChatMessage(replyId, c.id, Some(AssistantRole), StripCodeFences(Some(raw)), None);
      var titled := if isNewChat then c.(title := Some(NewChatTitle(s, marker.text.value, raw))) else c;
      UploadResult(Uploaded(c.id, titled.title, Dtos([marker, reply])), chats[c.id := titled], [marker, reply])
  }

  /**
   * The upload endpoints, with their answer corrected so that a chat
   * without a title does not turn a stored reply into an error (see
   * `UploadAsWritten`): the checks, then the user must exist and the chat
   * must resolve before anything is stored. `ids` are the ids the store
   * hands out to a new chat, the marker and the reply.
   */
  function Upload(kind: UploadKind, chatId: Option<int>, file: Option<UploadFile>, userIdAttribute: Option<int>,
                  users: set<int>, chats: Chats, history: History, ids: (int, int, int), s: Services)
    : (r: UploadResult)
    ensures CheckUpload(kind, file, userIdAttribute).Some? ==>
              r == UploadResult(CheckUpload(kind, file, userIdAttribute).value, chats, [])
    ensures CheckUpload(kind, file, userIdAttribute).None? ==>
              var userId := userIdAttribute.value;
              var chat := ResolveChat(chatId, userId, chats, ids.0);
              && (userId !in users ==> r == UploadResult(Unauthorized(UserNotFound), chats, []))
              && (userId in users && chat.None? ==> r == UploadResult(NotFound(ChatNotFound), chats, []))
              && (userId in users && chat.Some? ==>
                    r == StoreUpload(kind, file.value, chat.value, chatId.None?, ResolvedHistory(chatId, history),
                                     ids.1, ids.2, chats, s))
    ensures r.stored != [] ==> AcceptableFile(file) && userIdAttribute.Some? && userIdAttribute.value in users
  {
    match CheckUpload(kind, file, userIdAttribute)
    case Some(refusal) => UploadResult(refusal, chats, [])
    case None =>
      var userId := userIdAttribute.value;
      if userId !in users then UploadResult(Unauthorized(UserNotFound), chats, [])
      else
        match ResolveChat(chatId, userId, chats, ids.0)
        case None => UploadResult(NotFound(ChatNotFound), chats, [])
        case Some(c) =>
          StoreUpload(kind, file.value, c, chatId.None?, ResolvedHistory(chatId, history), ids.1, ids.2, chats, s)
  }

  /** The messages a resolved chat already has: none for a new chat. */
  function ResolvedHistory(chatId: Option<int>, history: History): History {
    if chatId.None? then [] else history
  }

  /**
   * The upload endpoints as written: `Map.of` refuses the null title of an
   * untitled chat, and the resulting exception is answered as a failed
   * analysis although both messages are already stored.
   */
  function UploadAsWritten(kind: UploadKind, chatId: Option<int>, file: Option<UploadFile>, userIdAttribute: Option<int>,
                           users: set<int>, chats: Chats, history: History, ids: (int, int, int), s: Services)
    : (r: UploadResult)
    ensures var fixed := Upload(kind, chatId, file, userIdAttribute, users, chats, history, ids, s);
            && r.stored == fixed.stored && r.chats == fixed.chats
            && (fixed.response.Uploaded? && fixed.response.chatTitle.None? ==> r.response == BadGateway(UploadFailed(kind)))
            && (!(fixed.response.Uploaded? && fixed.response.chatTitle.None?) ==> r.response == fixed.response)
  {
    var r := Upload(kind, chatId, file, userIdAttribute, users, chats, history, ids, s);
    if r.response.Uploaded? && r.response.chatTitle.None? then r.(response := BadGateway(UploadFailed(kind))) else r
  }

  /** An upload that opens a new chat but whose analysis fails leaves that chat without a title. */
  lemma FailedFirstUploadLeavesChatUntitled(kind: UploadKind, file: UploadFile, userId: int, users: set<int>,
                                            chats: Chats, history: History, ids: (int, int, int), s: Services)
    requires AcceptableFile(Some(file)) && userId in users
    requires !s.analyze(kind, [Some(MarkerMessage(kind, file, ids.1, ids.0))], UploadFileName(kind, file.originalName),
                        file.bytes, file.contentType.value).Returned?
    ensures var r := Upload(kind, None, Some(file), Some(userId), users, chats, history, ids, s);
            ids.0 in r.chats && r.chats[ids.0] == Chat(ids.0, userId, None) && |r.stored| == 1
  {
    var c := Chat(ids.0, userId, None);
    assert CheckUpload(kind, Some(file), Some(userId)).None?;
    assert ResolveChat(None, userId, chats, ids.0) == Some(c);
    assert ResolvedHistory(None, history) == [];
    var stored := StoreUpload(kind, file, c, true, [], ids.1, ids.2, chats, s);
    assert Upload(kind, None, Some(file), Some(userId), users, chats, history, ids, s) == stored;
    assert [] + [Some(MarkerMessage(kind, file, ids.1, ids.0))] == [Some(MarkerMessage(kind, file, ids.1, ids.0))];
  }

  /**
   * A later successful upload into that untitled chat stores the marker and
   * the reply, yet the endpoint as written answers that the analysis failed;
   * the corrected endpoint answers with both messages.
   */
  lemma UntitledChatUploadReportsFailure(kind: UploadKind, chatId: int, file: UploadFile, userId: int, users: set<int>,
                                         chats: Chats, history: History, ids: (int, int, int), s: Services)
    requires AcceptableFile(Some(file)) && userId in users
    requires chatId in chats && chats[chatId] == Chat(chatId, userId, None)
    requires s.analyze(kind, history + [Some(MarkerMessage(kind, file, ids.1, chatId))],
                       UploadFileName(kind, file.originalName), file.bytes, file.contentType.value).Returned?
    ensures var written := UploadAsWritten(kind, Some(chatId), Some(file), Some(userId), users, chats, history, ids, s);
            var fixed := Upload(kind, Some(chatId), Some(file), Some(userId), users, chats, history, ids, s);
            && written.response == BadGateway(UploadFailed(kind)) && |written.stored| == 2
            && fixed.response.Uploaded? && fixed.response.messages == Dtos(fixed.stored)
  {
  }

  // ---------------------------------------------------------------------
  // Edit and regenerate
  // ---------------------------------------------------------------------

  /** What an edit or regeneration leaves behind: the answer and the chat's stored messages. */
  datatype Outcome = Outcome(response: ChatResponse, messages: seq<ChatMessage>)

  datatype EditRequest = EditRequest(chatId: Option<int>, messageId: Option<int>, message: Option<string>)

  const IdsRequired: string := "Chat and message IDs are required."
  const ContentRequired: string := "Message content is required."
  const NothingToEdit: string := "No user message found to edit."
  const OnlyLatestEditable: string := "Only the latest user message can be edited."
  const UploadNotEditable: string := "Editing uploaded documents is not supported."
  const RegenerationFailed: string := "Failed to regenerate the recommendation."
  const ChatIdRequired: string := "Chat ID is required."
  const NothingToRegenerate: string := "No user message found to regenerate."
  const UploadNotRegenerable: string := "Regeneration is not available for uploaded documents."

  /** The reply message stored for a chat call's returned text, with its extracted itinerary. */
  function ReplyMessage(s: Services, id: int, chatId: int, raw: string): (m: ChatMessage)
    ensures m.role == Some(AssistantRole) && m.text == StripCodeFences(Some(raw)) && m.text.Some?
    ensures m.itineraryJson == s.extractItinerary(m.text.value)
  {
    var reply := StripCodeFences(Some(raw)).value;
    ChatMessage(id, chatId, Some(AssistantRole), Some(reply), s.extractItinerary(reply))
  }

  /**
   * The common tail of edit and regenerate: the kept messages are already
   * stored whatever happens next; the service sees `prompt`, and a
   * returned reply is appended.
   */
  function Reply(kept: seq<ChatMessage>, prompt: History, chatId: int, profile: Option<TripProfile>, s: Services,
                 replyId: int): (r: Outcome)
    ensures r.response.Conversation? <==> s.chat(prompt, profile).Returned?
    ensures s.chat(prompt, profile).KeyMissing? ==> r == Outcome(ServerError(ApiKeyMissing), kept)
    ensures s.chat(prompt, profile).CallFailed? ==> r == Outcome(BadGateway(RegenerationFailed), kept)
    ensures s.chat(prompt, profile).Returned? ==>
              && r.messages == kept + [ReplyMessage(s, replyId, chatId, s.chat(prompt, profile).value)]
              && r.response == Conversation(chatId, Dtos(r.messages))
  {
    match s.chat(prompt, profile)
    case KeyMissing => Outcome(ServerError(ApiKeyMissing), kept)
    case CallFailed => Outcome(BadGateway(RegenerationFailed), kept)
    case Returned(raw) =>
      var messages := kept + [ReplyMessage(s, replyId, chatId, raw)];
      Outcome(Conversation(chatId, Dtos(messages)), messages)
  }

  /** The request and caller checks of `editLatestMessage`, before the history is read. */
  function EditGuard(request: Option<EditRequest>, userIdAttribute: Option<int>, chats: Chats): (r: Option<ChatResponse>)
    ensures r.None? <==> && request.Some? && request.value.chatId.Some? && request.value.messageId.Some?
                         && request.value.message.Some? && !IsBlank(request.value.message.value)
                         && userIdAttribute.Some?
                         && FindOwnedChat(chats, request.value.chatId.value, userIdAttribute.value).Some?
  {
    if request.None? || request.value.chatId.None? || request.value.messageId.None? then Some(BadRequest(IdsRequired))
    else if request.value.message.None? || IsBlank(request.value.message.value) then Some(BadRequest(ContentRequired))
    else if userIdAttribute.None? then Some(Unauthorized(AuthenticationRequired))
    else if FindOwnedChat(chats, request.value.chatId.value, userIdAttribute.value).None? then Some(NotFound(ChatNotFound))
    else None
  }

  /** The message an edit writes: the last user message with the trimmed new text. */
  function Edited(history: History, text: string): ChatMessage
    requires LastUserIndex(history) >= 0
  {
    history[LastUserIndex(history)].value.(text := Some(Trim(text)))
  }

  /**
   * `editLatestMessage`. Only the last user message, wherever it stands,
   * may be edited, and not an upload marker. The edit and the deletion of
   * every later message are stored before the model is called, so they
   * remain when the call fails.
   */
  function EditLatest(request: Option<EditRequest>, userIdAttribute: Option<int>, chats: Chats, history: History,
                      profile: Option<TripProfile>, s: Services, replyId: int): (r: Outcome)
    ensures EditGuard(request, userIdAttribute, chats).Some? ==>
              r == Outcome(EditGuard(request, userIdAttribute, chats).value, Compact(history))
    ensures EditGuard(request, userIdAttribute, chats).None? ==>
              var idx := LastUserIndex(history);
              && (idx < 0 ==> r == Outcome(BadRequest(NothingToEdit), Compact(history)))
              && (idx >= 0 && history[idx].value.id != request.value.messageId.value ==>
                    r == Outcome(BadRequest(OnlyLatestEditable), Compact(history)))
              && (idx >= 0 && history[idx].value.id == request.value.messageId.value
                  && IsUploadMessage(history[idx].value.text) ==>
                    r == Outcome(BadRequest(UploadNotEditable), Compact(history)))
              && (idx >= 0 && history[idx].value.id == request.value.messageId.value
                  && !IsUploadMessage(history[idx].value.text) ==>
                    var edited := Edited(history, request.value.message.value);
                    r == Reply(Compact(history[..idx]) + [edited], history[..idx] + [Some(edited)],
                               request.value.chatId.value, profile, s, replyId))
  {
    match EditGuard(request, userIdAttribute, chats)
    case Some(refusal) => Outcome(refusal, Compact(history))
    case None =>
      var idx := LastUserIndex(history);
      if idx < 0 then Outcome(BadRequest(NothingToEdit), Compact(history))
      else
        var last := history[idx].value;
        if last.id != request.value.messageId.value then Outcome(BadRequest(OnlyLatestEditable), Compact(history))
        else if IsUploadMessage(last.text) then Outcome(BadRequest(UploadNotEditable), Compact(history))
        else
          var edited := Edited(history, request.value.message.value);
          Reply(Compact(history[..idx]) + [edited], history[..idx] + [Some(edited)],
                request.value.chatId.value, profile, s, replyId)
  }

  /** The request and caller checks of `regenerateRecommendation`. */
  function RegenerateGuard(chatId: Option<int>, userIdAttribute: Option<int>, chats: Chats): (r: Option<ChatResponse>)
    ensures r.None? <==> chatId.Some? && userIdAttribute.Some? && FindOwnedChat(chats, chatId.value, userIdAttribute.value).Some?
    ensures r.Some? ==> r.value.BadRequest? || r.value.Unauthorized? || r.value.NotFound?
  {
    if chatId.None? then Some(BadRequest(ChatIdRequired))
    else if userIdAttribute.None? then Some(Unauthorized(AuthenticationRequired))
    else if FindOwnedChat(chats, chatId.value, userIdAttribute.value).None? then Some(NotFound(ChatNotFound))
    else None
  }

  /**
   * `regenerateRecommendation` (a null request is a null chat id here):
   * every message after the last user message is deleted before the model
   * is called with the rest, and a returned reply is appended.
   */
  function Regenerate(chatId: Option<int>, userIdAttribute: Option<int>, chats: Chats, history: History,
                      profile: Option<TripProfile>, s: Services, replyId: int): (r: Outcome)
    ensures RegenerateGuard(chatId, userIdAttribute, chats).Some? ==>
              r == Outcome(RegenerateGuard(chatId, userIdAttribute, chats).value, Compact(history))
    ensures RegenerateGuard(chatId, userIdAttribute, chats).None? ==>
              var idx := LastUserIndex(history);
              && (idx < 0 ==> r == Outcome(BadRequest(NothingToRegenerate), Compact(history)))
              && (idx >= 0 && IsUploadMessage(history[idx].value.text) ==>
                    r == Outcome(BadRequest(UploadNotRegenerable), Compact(history)))
              && (idx >= 0 && !IsUploadMessage(history[idx].value.text) ==>
                    r == Reply(Compact(history[..idx + 1]), history[..idx + 1], chatId.value, profile, s, replyId))
    ensures r.response.Conversation? ==>
              var idx := LastUserIndex(history);
              && RegenerateGuard(chatId, userIdAttribute, chats).None? && idx >= 0
              && !IsUploadMessage(history[idx].value.text) && s.chat(history[..idx + 1], profile).Returned?
  {
    match RegenerateGuard(chatId, userIdAttribute, chats)
    case Some(refusal) => Outcome(refusal, Compact(history))
    case None =>
      var idx := LastUserIndex(history);
      if idx < 0 then Outcome(BadRequest(NothingToRegenerate), Compact(history))
      else if IsUploadMessage(history[idx].value.text) then Outcome(BadRequest(UploadNotRegenerable), Compact(history))
      else Reply(Compact(history[..idx + 1]), history[..idx + 1], chatId.value, profile, s, replyId)
  }

  // ---------------------------------------------------------------------
  // Streaming
  // ---------------------------------------------------------------------

  /** The last event of a stream: an error, or `done` with the stored reply. */
  datatype StreamEvent =
    | ErrorEvent(error: string)
    | DoneEvent(chatId: int, chatTitle: Option<string>, message: MessageDto, streamingFallback: bool)

  /** What `streamAssistantReply` leaves behind: its last event, the stored reply, the chats table. */
  datatype StreamOutcome = StreamOutcome(event: StreamEvent, stored: Option<ChatMessage>, chats: Chats)

  /**
   * The reply text to store: the fence-stripped reply, or the fixed
   * no-content text when that is null or blank.
   */
  function FinalReply(reply: Option<string>): (r: string)
    ensures !IsBlank(r)
    ensures (reply.None? || IsBlank(reply.value)) ==> r == NoContentReply
    ensures reply.Some? && !IsBlank(reply.value) ==> r == reply.value
  {
    if reply.None? || IsBlank(reply.value) then
      assert NoContentReply[0] == 'T';
      NoContentReply
    else reply.value
  }

  /**
   * `streamAssistantReply` after the user message is stored: a streaming
   * failure other than a missing key gets exactly one plain retry; a
   * missing key or a failed retry stores nothing; otherwise one assistant
   * message is stored, marked as a fallback when the retry produced it,
   * and a new chat is titled.
   */
  function StreamAssistantReply(chat: Chat, userText: string, isNewChat: bool, history: History,
                                profile: Option<TripProfile>, s: Services, replyId: int, chats: Chats)
    : (r: StreamOutcome)
    ensures r.stored.Some? <==> r.event.DoneEvent?
    ensures r.stored.None? ==> r.chats == chats
    ensures s.streamChat(history, profile).KeyMissing? ==> r == StreamOutcome(ErrorEvent(ApiKeyMissing), None, chats)
    ensures s.streamChat(history, profile).CallFailed? ==>
              match s.chat(history, profile)
              case KeyMissing => r == StreamOutcome(ErrorEvent(ApiKeyMissing), None, chats)
              case CallFailed => r == StreamOutcome(ErrorEvent(EngineUnreachable), None, chats)
              case Returned(raw) =>
                r.event.DoneEvent? && r.event.streamingFallback
                && r.stored.value.text == Some(FinalReply(StripCodeFences(Some(raw))))
    ensures s.streamChat(history, profile).Returned? ==>
              r.event.DoneEvent? && !r.event.streamingFallback
              && r.stored.value.text == Some(FinalReply(StripCodeFences(s.streamChat(history, profile).value)))
    ensures r.stored.Some? ==>
              var m := r.stored.value;
              && m.id == replyId && m.chatId == chat.id && m.role == Some(AssistantRole)
              && m.text.Some? && !IsBlank(m.text.value) && m.itineraryJson == s.extractItinerary(m.text.value)
              && r.event.message == ToMessageDto(m)
              && chat.id in r.chats
              && r.event.chatTitle == r.chats[chat.id].title
              && (isNewChat ==> r.chats[chat.id].title == Some(NewChatTitle(s, userText, m.text.value)))
              && (!isNewChat ==> r.chats == chats[chat.id := chat])
  {
    var (reply, fallback) :=
      match s.streamChat(history, profile)
      case KeyMissing => (KeyMissing, false)
      case Returned(raw) => (Returned(StripCodeFences(raw)), false)
      case CallFailed =>
        match s.chat(history, profile)
        case KeyMissing => (KeyMissing, true)
        case CallFailed => (CallFailed, true)
        case Returned(raw) => (Returned(StripCodeFences(Some(raw))), true);
    match reply
    case KeyMissing => StreamOutcome(ErrorEvent(ApiKeyMissing), None, chats)
    case CallFailed => StreamOutcome(ErrorEvent(EngineUnreachable), None, chats)
    case Returned(text) =>
      var finalText := FinalReply(text);
      var m := ChatMessage(replyId, chat.id, Some(AssistantRole), Some(finalText), s.extractItinerary(finalText));
      var titled := if isNewChat then chat.(title := Some(NewChatTitle(s, userText, finalText))) else chat;
      StreamOutcome(DoneEvent(chat.id, titled.title, ToMessageDto(m), fallback), Some(m), chats[chat.id := titled])
  }

  /** The retry is attempted only after a streaming failure: a successful stream never calls it. */
  lemma FallbackOnlyAfterStreamFailure(chat: Chat, userText: string, isNewChat: bool, history: History,
                                       profile: Option<TripProfile>, s: Services, t: Services, replyId: int, chats: Chats)
    requires s.streamChat == t.streamChat && s.extractItinerary == t.extractItinerary
    requires s.generateTitle == t.generateTitle
    requires !s.streamChat(history, profile).CallFailed?
    ensures StreamAssistantReply(chat, userText, isNewChat, history, profile, s, replyId, chats)
            == StreamAssistantReply(chat, userText, isNewChat, history, profile, t, replyId, chats)
  {
  }
}
