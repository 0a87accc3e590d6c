/**
 * `GroqChatServiceImpl`: the same key guard, reply handling and title
 * clamping as the OpenAI client, with a single fixed system prompt and a
 * history that passes null texts through as JSON null.
 */
module GroqService {
  import opened Wrappers
  import opened ChatModel
  import opened LlmCommon
  import OpenAiService

  /** One history entry as the Groq client sends it: role and text, null kept. */
  function ToGroqMessage(m: ChatMessage): ApiMessage {
    ApiMessage(m.role, Text(m.text))
  }

  /** The history part of the request: one message per non-null entry, in order. */
  function GroqHistory(h: History): (r: seq<ApiMessage>)
    ensures |r| == |Compact(h)|
    ensures forall i :: 0 <= i < |r| ==> r[i] == ToGroqMessage(Compact(h)[i])
    decreases |h|
  {
    if h == [] then []
    else
      var init := h[..|h| - 1];
      var last := h[|h| - 1];
      assert h == init + [last];
      CompactConcat(init, [last]);
      assert [last][1..] == [];
      GroqHistory(init) + (if last.Some? then [ToGroqMessage(last.value)] else [])
  }

  /** `baseChatRequest` and the history loop of `chat`. */
  function GroqRequest(h: History): (r: Request)
    ensures |r| == 1 + |Compact(h)|
    ensures r[0] == SystemMessage(GroqRecommendationPrompt) && r[1..] == GroqHistory(h)
  {
    [SystemMessage(GroqRecommendationPrompt)] + GroqHistory(h)
  }

  /** `chat`: the key guard, the request above, and the no-content reply for JSON null. */
  function GroqChat(key: Option<string>, h: History, llm: Llm): (r: ServiceResult<string>)
    ensures r.KeyMissing? <==> !KeyConfigured(key)
    ensures r.CallFailed? <==> KeyConfigured(key) && ExecuteChat(llm(GroqRequest(h))).None?
    ensures r.Returned? && ExecuteChat(llm(GroqRequest(h))).value.JsonNull? ==> r.value == NoContentReply
    ensures r.Returned? && !ExecuteChat(llm(GroqRequest(h))).value.JsonNull? ==>
              r.value == AsText(ExecuteChat(llm(GroqRequest(h))).value)
  {
    CompleteText(key, llm, GroqRequest(h), NoContentReply)
  }

  /**
   * The two clients send the same history except for null texts: the Groq
   * client sends JSON null where the OpenAI client sends "".
   */
  lemma HistoryDiffersOnlyInNullText(h: History, i: int)
    requires 0 <= i < |Compact(h)|
    ensures GroqHistory(h)[i].role == OpenAiService.HistoryMessages(h)[i].role
    ensures Compact(h)[i].text.Some? ==> GroqHistory(h)[i] == OpenAiService.HistoryMessages(h)[i]
    ensures Compact(h)[i].text.None? ==>
              GroqHistory(h)[i].content == Text(None)
              && OpenAiService.HistoryMessages(h)[i].content == Text(Some([]))
  {
  }

  /**
   * Without a trip profile, the Groq request is the OpenAI request with the
   * other system prompt, as long as every message has a text.
   */
  lemma SameRequestWhenTextsPresent(h: History)
    requires forall m :: m in Compact(h) ==> m.text.Some?
    ensures GroqRequest(h)[1..] == OpenAiService.ChatRequest(None, h)[1..]
  {
    var g := GroqHistory(h);
    var o := OpenAiService.HistoryMessages(h);
    forall i | 0 <= i < |g|
      ensures g[i] == o[i]
    {
      assert Compact(h)[i] in Compact(h);
    }
  }
}
