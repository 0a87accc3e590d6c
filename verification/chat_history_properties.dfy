/**
 * Properties of the edit and regenerate flows of `ChatController`: what
 * they keep, what they delete, and what the model is sent.
 */
module ChatHistoryProperties {
  import opened Wrappers
  import opened JavaStrings
  import opened ChatModel
  import opened LlmCommon
  import opened TripProfiles
  import opened ChatController
  import OpenAiService

  /**
   * A successful edit keeps every message before the edited one in order,
   * changes only the edited message's text (to the trimmed new text), and
   * ends with exactly one new assistant message.
   */
  lemma EditRewritesTail(request: EditRequest, userId: int, chats: Chats, history: History,
                         profile: Option<TripProfile>, s: Services, replyId: int)
    requires EditLatest(Some(request), Some(userId), chats, history, profile, s, replyId).response.Conversation?
    ensures var idx := LastUserIndex(history);
            var m := EditLatest(Some(request), Some(userId), chats, history, profile, s, replyId).messages;
            var k := |Compact(history[..idx])|;
            && idx >= 0 && |m| == k + 2
            && m[..k] == Compact(history[..idx])
            && m[k] == history[idx].value.(text := Some(Trim(request.message.value)))
            && m[k].id == request.messageId.value
            && m[k + 1].role == Some(AssistantRole) && m[k + 1].id == replyId
  {
    var idx := LastUserIndex(history);
    var m := EditLatest(Some(request), Some(userId), chats, history, profile, s, replyId).messages;
    var k := |Compact(history[..idx])|;
    assert m[..k] == Compact(history[..idx]);
  }

  /**
   * The edit is not undone when the model call fails: the message keeps its
   * new text and every later message stays deleted.
   */
  lemma FailedEditStillTruncates(request: EditRequest, userId: int, chats: Chats, history: History,
                                 profile: Option<TripProfile>, s: Services, replyId: int)
    requires EditGuard(Some(request), Some(userId), chats).None?
    requires LastUserIndex(history) >= 0
    requires history[LastUserIndex(history)].value.id == request.messageId.value
    requires !IsUploadMessage(history[LastUserIndex(history)].value.text)
    requires var idx := LastUserIndex(history);
             !s.chat(history[..idx] + [Some(Edited(history, request.message.value))], profile).Returned?
    ensures var r := EditLatest(Some(request), Some(userId), chats, history, profile, s, replyId);
            var idx := LastUserIndex(history);
            && (r.response.ServerError? || r.response.BadGateway?)
            && r.messages == Compact(history[..idx]) + [Edited(history, request.message.value)]
  {
  }

  /** A successful regeneration is the common reply step on the messages up to the last user message. */
  lemma RegenerateIsReply(chatId: int, userId: int, chats: Chats, history: History,
                          profile: Option<TripProfile>, s: Services, replyId: int)
    requires Regenerate(Some(chatId), Some(userId), chats, history, profile, s, replyId).response.Conversation?
    ensures RegenerateGuard(Some(chatId), Some(userId), chats).None?
    ensures LastUserIndex(history) >= 0 && !IsUploadMessage(history[LastUserIndex(history)].value.text)
    ensures s.chat(history[..LastUserIndex(history) + 1], profile).Returned?
    ensures Regenerate(Some(chatId), Some(userId), chats, history, profile, s, replyId)
            == Reply(Compact(history[..LastUserIndex(history) + 1]), history[..LastUserIndex(history) + 1],
                     chatId, profile, s, replyId)
  {
  }

  /** The messages after the last user message, which edit and regenerate delete. */
  lemma RegenerateDeletesOnlyTheTail(chatId: int, userId: int, chats: Chats, history: History,
                                     profile: Option<TripProfile>, s: Services, replyId: int)
    requires Regenerate(Some(chatId), Some(userId), chats, history, profile, s, replyId).response.Conversation?
    ensures var idx := LastUserIndex(history);
            var m := Regenerate(Some(chatId), Some(userId), chats, history, profile, s, replyId).messages;
            && idx >= 0
            && multiset(Compact(history)) == multiset(m[..|m| - 1]) + multiset(Reverse(Compact(history[idx + 1..])))
            && m[|m| - 2] == history[idx].value
  {
    RegenerateIsReply(chatId, userId, chats, history, profile, s, replyId);
    var idx := LastUserIndex(history);
    var m := Regenerate(Some(chatId), Some(userId), chats, history, profile, s, replyId).messages;
    assert m == Compact(history[..idx + 1]) + [ReplyMessage(s, replyId, chatId, s.chat(history[..idx + 1], profile).value)];
    KeptThroughIndex(history, idx, m);
  }

  /** Messages that keep the history up to a non-null `idx` and add one more partition the history with its tail. */
  lemma KeptThroughIndex(history: History, idx: int, m: seq<ChatMessage>)
    requires 0 <= idx < |history| && history[idx].Some?
    requires |m| >= 1 && m[..|m| - 1] == Compact(history[..idx + 1])
    ensures multiset(Compact(history)) == multiset(m[..|m| - 1]) + multiset(Reverse(Compact(history[idx + 1..])))
    ensures |m| >= 2 && m[|m| - 2] == history[idx].value
  {
    TruncationPartitionsHistory(history, idx);
    CompactThrough(history, idx);
    var kept := m[..|m| - 1];
    assert m[|m| - 2] == kept[|kept| - 1];
  }

  /** Keeping the history through a non-null entry ends the kept messages with that entry. */
  lemma CompactThrough(history: History, idx: int)
    requires 0 <= idx < |history| && history[idx].Some?
    ensures Compact(history[..idx + 1]) == Compact(history[..idx]) + [history[idx].value]
  {
    assert history[..idx + 1] == history[..idx] + [history[idx]];
    CompactConcat(history[..idx], [history[idx]]);
    assert Compact([history[idx]]) == [history[idx].value];
  }

  /**
   * Regenerating twice in a row over a chat's stored messages sends the
   * model the same messages both times: the second run keeps exactly what
   * the first kept, and both replies are the model's answer to the same
   * prompt, differing only in their ids.
   */
  lemma RegenerateAgainReplacesOnlyReply(chatId: int, userId: int, chats: Chats, stored: seq<ChatMessage>,
                                         profile: Option<TripProfile>, s: Services, id1: int, id2: int)
    requires Regenerate(Some(chatId), Some(userId), chats, Fetched(stored), profile, s, id1).response.Conversation?
    ensures var first := Regenerate(Some(chatId), Some(userId), chats, Fetched(stored), profile, s, id1).messages;
            var second := Regenerate(Some(chatId), Some(userId), chats, Fetched(first), profile, s, id2);
            var idx := LastUserIndex(Fetched(stored));
            && second.response.Conversation?
            && |second.messages| == |first|
            && second.messages[..|first| - 1] == first[..|first| - 1]
            && idx >= 0
            && RepliesTo(first[|first| - 1], s, id1, chatId, Fetched(stored)[..idx + 1], profile)
            && RepliesTo(second.messages[|first| - 1], s, id2, chatId, Fetched(stored)[..idx + 1], profile)
  {
    var history := Fetched(stored);
    RegenerateIsReply(chatId, userId, chats, history, profile, s, id1);
    var idx := LastUserIndex(history);
    FetchedPrefix(stored, idx + 1);
    var answer := s.chat(history[..idx + 1], profile).value;
    var reply := ReplyMessage(s, id1, chatId, answer);
    var first := Regenerate(Some(chatId), Some(userId), chats, history, profile, s, id1).messages;
    assert first == stored[..idx + 1] + [reply];
    RegenerateOverReply(chatId, userId, chats, stored, idx, reply, profile, s, id2);
    var second := Regenerate(Some(chatId), Some(userId), chats, Fetched(first), profile, s, id2).messages;
    LastReplaced(stored[..idx + 1], reply, ReplyMessage(s, id2, chatId, answer), first, second);
  }

  /** `m` is the reply stored, under `id`, for the model's answer to `prompt`. */
  predicate RepliesTo(m: ChatMessage, s: Services, id: int, chatId: int, prompt: History, profile: Option<TripProfile>) {
    s.chat(prompt, profile).Returned? && m == ReplyMessage(s, id, chatId, s.chat(prompt, profile).value)
  }

  /** Two lists that share all but a last element differ only there. */
  lemma LastReplaced(kept: seq<ChatMessage>, r1: ChatMessage, r2: ChatMessage, first: seq<ChatMessage>,
                     second: seq<ChatMessage>)
    requires first == kept + [r1] && second == kept + [r2]
    ensures |second| == |first| && second[..|first| - 1] == first[..|first| - 1]
    ensures first[|first| - 1] == r1 && second[|first| - 1] == r2
  {
  }

  /** The first `n` entries of a stored list read back are the first `n` stored messages. */
  lemma FetchedPrefix(stored: seq<ChatMessage>, n: nat)
    requires 0 < n <= |stored|
    ensures Fetched(stored)[..n] == Fetched(stored[..n])
    ensures Compact(Fetched(stored)[..n]) == stored[..n]
    ensures Fetched(stored)[n - 1] == Some(stored[n - 1])
  {
    assert Fetched(stored)[..n] == Fetched(stored[..n]);
    CompactFetched(stored[..n]);
  }

  /** Regenerating over the kept messages and one reply keeps the same messages and sends the same prompt. */
  lemma RegenerateOverReply(chatId: int, userId: int, chats: Chats, stored: seq<ChatMessage>, idx: int,
                            reply: ChatMessage, profile: Option<TripProfile>, s: Services, replyId: int)
    requires RegenerateGuard(Some(chatId), Some(userId), chats).None?
    requires 0 <= idx < |stored| && idx == LastUserIndex(Fetched(stored))
    requires !IsUploadMessage(stored[idx].text)
    requires s.chat(Fetched(stored)[..idx + 1], profile).Returned?
    requires reply.role == Some(AssistantRole)
    ensures var second := Regenerate(Some(chatId), Some(userId), chats, Fetched(stored[..idx + 1] + [reply]), profile,
                                     s, replyId);
            && second.response.Conversation?
            && second.messages == stored[..idx + 1]
                                  + [ReplyMessage(s, replyId, chatId, s.chat(Fetched(stored)[..idx + 1], profile).value)]
  {
    var first := stored[..idx + 1] + [reply];
    StoredAgain(stored, idx, first, reply);
    RegenerateRunsOn(chatId, userId, chats, Fetched(first), Fetched(stored)[..idx + 1], stored[..idx + 1],
                     profile, s, replyId);
  }

  /** `RegenerateRuns`, with the prompt and the kept messages named. */
  lemma RegenerateRunsOn(chatId: int, userId: int, chats: Chats, history: History, prompt: History,
                         kept: seq<ChatMessage>, profile: Option<TripProfile>, s: Services, replyId: int)
    requires RegenerateGuard(Some(chatId), Some(userId), chats).None?
    requires LastUserIndex(history) >= 0 && !IsUploadMessage(history[LastUserIndex(history)].value.text)
    requires history[..LastUserIndex(history) + 1] == prompt && Compact(prompt) == kept
    requires s.chat(prompt, profile).Returned?
    ensures var r := Regenerate(Some(chatId), Some(userId), chats, history, profile, s, replyId);
            r.response.Conversation? && r.messages == kept + [ReplyMessage(s, replyId, chatId, s.chat(prompt, profile).value)]
  {
    RegenerateRuns(chatId, userId, chats, history, profile, s, replyId);
  }

  /** Reading back the kept messages and a reply finds the same last user message and the same prompt. */
  lemma StoredAgain(stored: seq<ChatMessage>, idx: int, first: seq<ChatMessage>, reply: ChatMessage)
    requires 0 <= idx < |stored| && idx == LastUserIndex(Fetched(stored))
    requires reply.role == Some(AssistantRole)
    requires first == stored[..idx + 1] + [reply]
    ensures LastUserIndex(Fetched(first)) == idx
    ensures Fetched(first)[..idx + 1] == Fetched(stored)[..idx + 1]
    ensures Fetched(first)[idx] == Some(stored[idx])
    ensures Compact(Fetched(first)[..idx + 1]) == stored[..idx + 1]
  {
    var h2 := Fetched(first);
    assert IsUserMessage(h2[idx]) by {
      assert h2[idx] == Fetched(stored)[idx];
    }
    assert !IsUserMessage(h2[idx + 1]);
    LastUserIndexIs(h2, idx);
    assert h2[..idx + 1] == Fetched(stored[..idx + 1]);
    assert Fetched(stored)[..idx + 1] == Fetched(stored[..idx + 1]);
    CompactFetched(stored[..idx + 1]);
  }

  /** Past every check and with a returned reply, a regeneration is the reply step. */
  lemma RegenerateRuns(chatId: int, userId: int, chats: Chats, history: History,
                       profile: Option<TripProfile>, s: Services, replyId: int)
    requires RegenerateGuard(Some(chatId), Some(userId), chats).None?
    requires LastUserIndex(history) >= 0 && !IsUploadMessage(history[LastUserIndex(history)].value.text)
    requires s.chat(history[..LastUserIndex(history) + 1], profile).Returned?
    ensures var idx := LastUserIndex(history);
            var r := Regenerate(Some(chatId), Some(userId), chats, history, profile, s, replyId);
            && r.response.Conversation?
            && r.messages == Compact(history[..idx + 1])
                             + [ReplyMessage(s, replyId, chatId, s.chat(history[..idx + 1], profile).value)]
  {
    var idx := LastUserIndex(history);
    RegenerateAtLastUser(chatId, userId, chats, history, profile, s, replyId);
    ReplyReturned(Compact(history[..idx + 1]), history[..idx + 1], chatId, profile, s, replyId);
  }

  /** Past the guard, regenerating replies to the history up to the last user message. */
  lemma RegenerateAtLastUser(chatId: int, userId: int, chats: Chats, history: History,
                             profile: Option<TripProfile>, s: Services, replyId: int)
    requires RegenerateGuard(Some(chatId), Some(userId), chats).None?
    requires LastUserIndex(history) >= 0 && !IsUploadMessage(history[LastUserIndex(history)].value.text)
    ensures var idx := LastUserIndex(history);
            Regenerate(Some(chatId), Some(userId), chats, history, profile, s, replyId)
            == Reply(Compact(history[..idx + 1]), history[..idx + 1], chatId, profile, s, replyId)
  {
  }

  /** A reply the engine returns is appended to the kept messages. */
  lemma ReplyReturned(kept: seq<ChatMessage>, prompt: History, chatId: int, profile: Option<TripProfile>,
                      s: Services, replyId: int)
    requires s.chat(prompt, profile).Returned?
    ensures var r := Reply(kept, prompt, chatId, profile, s, replyId);
            r.response.Conversation? && r.messages == kept + [ReplyMessage(s, replyId, chatId, s.chat(prompt, profile).value)]
  {
  }

  /** A user message followed only by non-user messages is the last user message. */
  lemma LastUserIndexIs(h: History, k: int)
    requires 0 <= k < |h| && IsUserMessage(h[k])
    requires forall j :: k < j < |h| ==> !IsUserMessage(h[j])
    ensures LastUserIndex(h) == k
  {
  }

  /** After an upload, the chat's latest user message is the marker, so regeneration is refused. */
  lemma UploadBlocksRegenerate(kind: UploadKind, chatId: int, file: UploadFile, userId: int, users: set<int>,
                               chats: Chats, history: History, ids: (int, int, int), s: Services,
                               profile: Option<TripProfile>, replyId: int)
    requires Upload(kind, Some(chatId), Some(file), Some(userId), users, chats, history, ids, s).response.Uploaded?
    ensures var u := Upload(kind, Some(chatId), Some(file), Some(userId), users, chats, history, ids, s);
            Regenerate(Some(chatId), Some(userId), u.chats, history + Fetched(u.stored), profile, s, replyId).response
            == BadRequest(UploadNotRegenerable)
  {
    var u := Upload(kind, Some(chatId), Some(file), Some(userId), users, chats, history, ids, s);
    UploadedIntoOwnedChat(kind, chatId, file, userId, users, chats, history, ids, s);
    MarkerIsLastUser(history, u.stored);
    RegenerateRefusesUpload(chatId, userId, u.chats, history + Fetched(u.stored), profile, s, replyId);
  }

  /** A successful upload into an existing chat stores the marker and then the assistant's reply. */
  lemma UploadedIntoOwnedChat(kind: UploadKind, chatId: int, file: UploadFile, userId: int, users: set<int>,
                              chats: Chats, history: History, ids: (int, int, int), s: Services)
    requires Upload(kind, Some(chatId), Some(file), Some(userId), users, chats, history, ids, s).response.Uploaded?
    ensures var u := Upload(kind, Some(chatId), Some(file), Some(userId), users, chats, history, ids, s);
            && chatId in u.chats && u.chats[chatId].userId == userId
            && |u.stored| == 2 && IsUserMessage(Some(u.stored[0])) && IsUploadMessage(u.stored[0].text)
            && !IsUserMessage(Some(u.stored[1]))
  {
  }

  /** Appending a user upload marker and a non-user reply makes the marker the last user message. */
  lemma MarkerIsLastUser(history: History, stored: seq<ChatMessage>)
    requires |stored| == 2 && IsUserMessage(Some(stored[0])) && !IsUserMessage(Some(stored[1]))
    ensures var h := history + Fetched(stored);
            LastUserIndex(h) == |history| && h[|history|] == Some(stored[0])
  {
    var h := history + Fetched(stored);
    assert h[|history|] == Some(stored[0]) && h[|history| + 1] == Some(stored[1]);
    LastUserIndexIs(h, |history|);
  }

  /** A chat whose last user message is an upload marker cannot be regenerated. */
  lemma RegenerateRefusesUpload(chatId: int, userId: int, chats: Chats, history: History,
                                profile: Option<TripProfile>, s: Services, replyId: int)
    requires chatId in chats && chats[chatId].userId == userId
    requires LastUserIndex(history) >= 0 && IsUploadMessage(history[LastUserIndex(history)].value.text)
    ensures Regenerate(Some(chatId), Some(userId), chats, history, profile, s, replyId).response
            == BadRequest(UploadNotRegenerable)
  {
  }

  /**
   * With the OpenAI client, the edited text is the last message the model
   * is sent.
   */
  lemma EditedTextIsLastPrompt(history: History, text: string, profile: Option<TripProfile>)
    requires LastUserIndex(history) >= 0
    ensures var idx := LastUserIndex(history);
            var request := OpenAiService.ChatRequest(profile, history[..idx] + [Some(Edited(history, text))]);
            request[|request| - 1] == ApiMessage(Some(UserRole), Text(Some(Trim(text))))
  {
    var idx := LastUserIndex(history);
    var edited := Edited(history, text);
    var prompt := history[..idx] + [Some(edited)];
    CompactConcat(history[..idx], [Some(edited)]);
    assert Compact([Some(edited)]) == [edited];
    var request := OpenAiService.ChatRequest(profile, prompt);
    var hm := OpenAiService.HistoryMessages(prompt);
    assert |hm| == |Compact(prompt)|;
    assert request[|request| - 1] == hm[|hm| - 1];
  }
}
