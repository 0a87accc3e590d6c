/**
 * `OpenAiChatServiceImpl`: the requests it builds (recommendation chat,
 * document analysis, itinerary extraction) and the post-processing of what
 * comes back. The model, PDF text extraction, Base64 and the JSON parser
 * are parameters.
 */
module OpenAiService {
  import opened Wrappers
  import opened JavaStrings
  import opened CodeFences
  import opened ChatModel
  import opened TripProfiles
  import opened LlmCommon

  // ---------------------------------------------------------------------
  // Trip-profile context
  // ---------------------------------------------------------------------

  const ProfileHeader: string := "Trip profile (user-provided). Use this to personalize recommendations.\n"
  const ProfileFooter: string := "If a field is missing, treat it as not provided and avoid guessing."

  function Label(f: Field): string {
    match f
    case Destination => "Destination"
    case StartDate => "Start date"
    case EndDate => "End date"
    case Budget => "Budget"
    case Travelers => "Travelers"
    case Interests => "Interests"
    case Constraints => "Constraints"
  }

  /** `appendProfileField`: "Label: value" and a newline, or nothing for null. */
  function FieldLine(f: Field, v: Option<string>): string {
    if v.None? then [] else Label(f) + ": " + v.value + "\n"
  }

  /** The lines of the given fields, in the given order, from normalised values. */
  function FieldLines(p: ProfileFields, fs: seq<Field>): string
    decreases |fs|
  {
    if fs == [] then [] else FieldLine(fs[0], TrimToNull(Get(p, fs[0]))) + FieldLines(p, fs[1..])
  }

  /** Every field is null once normalised: the profile carries nothing. */
  predicate NothingProvided(p: ProfileFields) {
    forall f: Field :: TrimToNull(Get(p, f)).None?
  }

  /**
   * `buildProfileContext`: null for a missing profile or one whose fields
   * are all null after normalising; otherwise the header, one line per
   * provided field in the fixed order, and the closing sentence.
   */
  function ProfileContext(profile: Option<TripProfile>): (r: Option<string>)
    ensures r.None? <==> profile.None? || NothingProvided(profile.value.fields)
    ensures r.Some? ==> StartsWith(r.value, ProfileHeader) && EndsWith(r.value, ProfileFooter)
    ensures r.Some? ==>
              var fs := ProvidedIn(profile.value.fields, FieldOrder);
              && fs != [] && InFieldOrder(fs)
              && r.value == ProfileHeader + Listing(profile.value.fields, fs) + ProfileFooter
  {
    match profile
    case None => None
    case Some(p) =>
      NothingProvidedIff(p.fields);
      if AllNormalizedNull(p.fields) then None
      else
        StartsAndEndsWith(ProfileHeader, FieldLines(p.fields, FieldOrder), ProfileFooter);
        FieldLinesListProvided(p.fields, FieldOrder);
        FieldOrderIsInOrder();
        ProvidedInKeepsOrder(p.fields, FieldOrder);
        assert ProvidedIn(p.fields, FieldOrder) != [] by {
          var f :| TrimToNull(Get(p.fields, f)).Some?;
          AllFieldsListed(f);
        }
        Some(ProfileHeader + FieldLines(p.fields, FieldOrder) + ProfileFooter)
  }

  /** Whether the profile carries a value for the field once normalised. */
  predicate IsProvided(p: ProfileFields, f: Field) {
    TrimToNull(Get(p, f)).Some?
  }

  /** The fields of `fs` the profile provides, in the order of `fs`. */
  function ProvidedIn(p: ProfileFields, fs: seq<Field>): (r: seq<Field>)
    ensures |r| <= |fs|
    ensures forall f :: f in r <==> f in fs && IsProvided(p, f)
    decreases |fs|
  {
    if fs == [] then []
    else
      var rest := ProvidedIn(p, fs[1..]);
      assert forall f :: f in fs <==> f == fs[0] || f in fs[1..];
      if IsProvided(p, fs[0]) then [fs[0]] + rest else rest
  }

  /** The line of a provided field: its label, a colon and its trimmed value. */
  function ProvidedLine(p: ProfileFields, f: Field): string {
    Label(f) + ": " + Trim(Get(p, f).GetOr([])) + "\n"
  }

  /** The lines of the given fields, one after the other. */
  function Listing(p: ProfileFields, fs: seq<Field>): string
    decreases |fs|
  {
    if fs == [] then [] else ProvidedLine(p, fs[0]) + Listing(p, fs[1..])
  }

  /** The position of a field in the fixed order of the context. */
  function Rank(f: Field): nat {
    match f
    case Destination => 0
    case StartDate => 1
    case EndDate => 2
    case Budget => 3
    case Travelers => 4
    case Interests => 5
    case Constraints => 6
  }

  /** No field comes before a field of lower rank, and none repeats. */
  predicate InFieldOrder(fs: seq<Field>) {
    forall a, b :: 0 <= a < b < |fs| ==> Rank(fs[a]) < Rank(fs[b])
  }

  lemma FieldOrderIsInOrder()
    ensures InFieldOrder(FieldOrder)
  {
    assert forall i :: 0 <= i < |FieldOrder| ==> Rank(FieldOrder[i]) == i;
  }

  /** Keeping only the provided fields keeps them in order. */
  lemma {:induction false} ProvidedInKeepsOrder(p: ProfileFields, fs: seq<Field>)
    requires InFieldOrder(fs)
    ensures InFieldOrder(ProvidedIn(p, fs))
    decreases |fs|
  {
    if fs != [] {
      assert InFieldOrder(fs[1..]);
      ProvidedInKeepsOrder(p, fs[1..]);
      var rest := ProvidedIn(p, fs[1..]);
      forall k | 0 <= k < |rest|
        ensures Rank(fs[0]) < Rank(rest[k])
      {
        assert rest[k] in fs[1..];
        var j :| 0 <= j < |fs[1..]| && fs[1..][j] == rest[k];
        assert fs[j + 1] == rest[k];
      }
    }
  }

  /**
   * Building the lines skips exactly the fields the profile does not
   * provide and writes one line for each field it does.
   */
  lemma {:induction false} FieldLinesListProvided(p: ProfileFields, fs: seq<Field>)
    ensures FieldLines(p, fs) == Listing(p, ProvidedIn(p, fs))
    decreases |fs|
  {
    if fs != [] {
      FieldLinesListProvided(p, fs[1..]);
      var rest := ProvidedIn(p, fs[1..]);
      if IsProvided(p, fs[0]) {
        assert FieldLine(fs[0], TrimToNull(Get(p, fs[0]))) == ProvidedLine(p, fs[0]);
        assert ([fs[0]] + rest)[1..] == rest;
      } else {
        assert FieldLine(fs[0], TrimToNull(Get(p, fs[0]))) == [];
      }
    }
  }

  /** The line a field contributes to the context: empty when it is not provided. */
  function LineOf(p: ProfileFields, f: Field): string {
    FieldLine(f, TrimToNull(Get(p, f)))
  }

  /** The lines of two fields appear in the order the fields are listed. */
  lemma LinesOccurInOrder(p: ProfileFields, fs: seq<Field>, i: int, j: int)
    returns (k1: int, k2: int)
    requires 0 <= i < j < |fs|
    ensures OccursAt(FieldLines(p, fs), LineOf(p, fs[i]), k1)
    ensures OccursAt(FieldLines(p, fs), LineOf(p, fs[j]), k2)
    ensures k1 + |LineOf(p, fs[i])| <= k2
  {
    LinesAreConcat(p, fs);
    k1, k2 := PartsInOrder(Lines(p, fs), i, j);
  }

  lemma SplitLines(p: ProfileFields, fs: seq<Field>)
    requires fs != []
    ensures FieldLines(p, fs) == LineOf(p, fs[0]) + FieldLines(p, fs[1..])
  {
  }

  /** The parts joined end to end. */
  function Concat(parts: seq<string>): string {
    if parts == [] then [] else parts[0] + Concat(parts[1..])
  }

  /** The line of each field of `fs`, in order. */
  function Lines(p: ProfileFields, fs: seq<Field>): (r: seq<string>)
    ensures |r| == |fs|
  {
    seq(|fs|, n requires 0 <= n < |fs| => LineOf(p, fs[n]))
  }

  /** The lines of `fs` are their parts joined end to end. */
  lemma {:induction false} LinesAreConcat(p: ProfileFields, fs: seq<Field>)
    ensures FieldLines(p, fs) == Concat(Lines(p, fs))
    decreases |fs|
  {
    if fs != [] {
      SplitLines(p, fs);
      assert Lines(p, fs)[1..] == Lines(p, fs[1..]);
      LinesAreConcat(p, fs[1..]);
    }
  }

  /**
   * Part `i` occurs in the joined parts, after the first part when `i` is
   * not the first position.
   */
  lemma {:induction false} PartOccurs(parts: seq<string>, i: int) returns (k: int)
    requires 0 <= i < |parts|
    ensures OccursAt(Concat(parts), parts[i], k)
    ensures i > 0 ==> |parts[0]| <= k
    decreases |parts|
  {
    if i == 0 {
      OccursAtHead(parts[0], Concat(parts[1..]));
      k := 0;
    } else {
      var tail := parts[1..];
      assert tail[i - 1] == parts[i];
      var j := PartOccurs(tail, i - 1);
      ShiftOccurrence(parts[0], Concat(tail), parts[i], j);
      k := |parts[0]| + j;
    }
  }

  /** Two parts occur in the joined parts in the order they are listed. */
  lemma {:induction false} PartsInOrder(parts: seq<string>, i: int, j: int) returns (k1: int, k2: int)
    requires 0 <= i < j < |parts|
    ensures OccursAt(Concat(parts), parts[i], k1)
    ensures OccursAt(Concat(parts), parts[j], k2)
    ensures k1 + |parts[i]| <= k2
    decreases |parts|
  {
    if i == 0 {
      OccursAtHead(parts[0], Concat(parts[1..]));
      k1 := 0;
      k2 := PartOccurs(parts, j);
    } else {
      var tail := parts[1..];
      assert tail[i - 1] == parts[i] && tail[j - 1] == parts[j];
      var a, b := PartsInOrder(tail, i - 1, j - 1);
      ShiftOccurrence(parts[0], Concat(tail), parts[i], a);
      ShiftOccurrence(parts[0], Concat(tail), parts[j], b);
      k1, k2 := |parts[0]| + a, |parts[0]| + b;
    }
  }

  /** An occurrence in the tail is an occurrence in the whole, shifted by the head. */
  lemma ShiftOccurrence(head: string, rest: string, part: string, j: int)
    requires OccursAt(rest, part, j)
    ensures OccursAt(head + rest, part, |head| + j)
  {
    OccursInMiddle(head, rest, [], part, j);
    assert head + rest + [] == head + rest;
  }

  /**
   * Of two provided fields, the one earlier in the fixed order is listed
   * earlier in the context, each as its label, a colon and its trimmed
   * value.
   */
  lemma ContextKeepsFieldOrder(p: TripProfile, i: int, j: int) returns (k1: int, k2: int)
    requires 0 <= i < j < |FieldOrder|
    requires IsProvided(p.fields, FieldOrder[i]) && IsProvided(p.fields, FieldOrder[j])
    ensures ProfileContext(Some(p)).Some?
    ensures var c := ProfileContext(Some(p)).value;
            var lineI := Label(FieldOrder[i]) + ": " + Trim(Get(p.fields, FieldOrder[i]).value) + "\n";
            var lineJ := Label(FieldOrder[j]) + ": " + Trim(Get(p.fields, FieldOrder[j]).value) + "\n";
            OccursAt(c, lineI, k1) && OccursAt(c, lineJ, k2) && k1 + |lineI| <= k2
  {
    ProvidedFieldIsListed(p, FieldOrder[i]);
    var lines := FieldLines(p.fields, FieldOrder);
    assert ProfileContext(Some(p)) == Some(ProfileHeader + lines + ProfileFooter);
    var a, b := LinesOccurInOrder(p.fields, FieldOrder, i, j);
    OccursInMiddle(ProfileHeader, lines, ProfileFooter, LineOf(p.fields, FieldOrder[i]), a);
    OccursInMiddle(ProfileHeader, lines, ProfileFooter, LineOf(p.fields, FieldOrder[j]), b);
    k1, k2 := |ProfileHeader| + a, |ProfileHeader| + b;
  }


  /** The seven null checks of `buildProfileContext`. */
  predicate AllNormalizedNull(fs: ProfileFields) {
    && TrimToNull(fs.destination).None?
    && TrimToNull(fs.startDate).None?
    && TrimToNull(fs.endDate).None?
    && TrimToNull(fs.budget).None?
    && TrimToNull(fs.travelers).None?
    && TrimToNull(fs.interests).None?
    && TrimToNull(fs.constraints).None?
  }

  lemma NothingProvidedIff(fs: ProfileFields)
    ensures AllNormalizedNull(fs) <==> NothingProvided(fs)
  {
    if AllNormalizedNull(fs) {
      forall f: Field
        ensures TrimToNull(Get(fs, f)).None?
      {
      }
    } else {
      assert !NothingProvided(fs) by {
        if TrimToNull(fs.destination).Some? { assert TrimToNull(Get(fs, Destination)).Some?; }
        else if TrimToNull(fs.startDate).Some? { assert TrimToNull(Get(fs, StartDate)).Some?; }
        else if TrimToNull(fs.endDate).Some? { assert TrimToNull(Get(fs, EndDate)).Some?; }
        else if TrimToNull(fs.budget).Some? { assert TrimToNull(Get(fs, Budget)).Some?; }
        else if TrimToNull(fs.travelers).Some? { assert TrimToNull(Get(fs, Travelers)).Some?; }
        else if TrimToNull(fs.interests).Some? { assert TrimToNull(Get(fs, Interests)).Some?; }
        else { assert TrimToNull(Get(fs, Constraints)).Some?; }
      }
    }
  }

  /** The line of the field at position `i` occurs in the lines of `fs`. */
  lemma LineAtOccurs(p: ProfileFields, fs: seq<Field>, i: int) returns (k: int)
    requires 0 <= i < |fs|
    ensures OccursAt(FieldLines(p, fs), LineOf(p, fs[i]), k)
  {
    LinesAreConcat(p, fs);
    k := PartOccurs(Lines(p, fs), i);
  }

  /** The line of a field listed in `fs` occurs in the lines of `fs`. */
  lemma LineOccursInLines(p: ProfileFields, fs: seq<Field>, f: Field) returns (k: int)
    requires f in fs
    ensures OccursAt(FieldLines(p, fs), LineOf(p, f), k)
  {
    var i :| 0 <= i < |fs| && fs[i] == f;
    k := LineAtOccurs(p, fs, i);
  }

  /**
   * Every provided field appears in the context as its label, a colon and
   * its trimmed value.
   */
  lemma ProvidedFieldIsListed(p: TripProfile, f: Field)
    requires TrimToNull(Get(p.fields, f)).Some?
    ensures ProfileContext(Some(p)).Some?
    ensures Contains(ProfileContext(Some(p)).value,
                     Label(f) + ": " + Trim(Get(p.fields, f).value) + "\n")
  {
    AllFieldsListed(f);
    var lines := FieldLines(p.fields, FieldOrder);
    var k := LineOccursInLines(p.fields, FieldOrder, f);
    var line := FieldLine(f, TrimToNull(Get(p.fields, f)));
    assert ProfileContext(Some(p)) == Some(ProfileHeader + lines + ProfileFooter);
    OccursInMiddle(ProfileHeader, lines, ProfileFooter, line, k);
    ContainsIffOccurs(ProfileHeader + lines + ProfileFooter, line, |ProfileHeader| + k);
  }

  lemma AllFieldsListed(f: Field)
    ensures f in FieldOrder
  {
  }

  /**
   * The service normalises again what the profile already stores in
   * normal form, so the context of a stored profile is built from its
   * stored values.
   */
  lemma ContextOfStoredProfile(p: TripProfile, f: Field)
    requires Normalized(p.fields) && Get(p.fields, f).Some?
    ensures Contains(ProfileContext(Some(p)).value, Label(f) + ": " + Get(p.fields, f).value + "\n")
  {
    assert IsNormal(Get(p.fields, f));
    TrimToNullFixedPoint(Get(p.fields, f));
    ProvidedFieldIsListed(p, f);
  }

  // ---------------------------------------------------------------------
  // History and the chat request
  // ---------------------------------------------------------------------

  /** One history entry as `appendHistory` sends it: its role, and its text or "" for null. */
  function ToApiMessage(m: ChatMessage): ApiMessage {
    ApiMessage(m.role, Text(Some(m.text.GetOr([]))))
  }

  /**
   * The messages `appendHistory` adds: one per non-null history entry, in
   * order.
   */
  function HistoryMessages(h: History): (r: seq<ApiMessage>)
    ensures |r| == |Compact(h)|
    ensures forall i :: 0 <= i < |r| ==> r[i] == ToApiMessage(Compact(h)[i])
    decreases |h|
  {
    if h == [] then []
    else
      var init := h[..|h| - 1];
      var last := h[|h| - 1];
      assert h == init + [last];
      CompactConcat(init, [last]);
      assert [last][1..] == [];
      HistoryMessages(init) + (if last.Some? then [ToApiMessage(last.value)] else [])
  }

  /** `appendHistory`: the loop that adds the history to the request's messages. */
  method AppendHistory(apiMessages: seq<ApiMessage>, messages: History) returns (result: seq<ApiMessage>)
    ensures result == apiMessages + HistoryMessages(messages)
  {
    result := apiMessages;
    var i := 0;
    while i < |messages|
      invariant 0 <= i <= |messages|
      invariant result == apiMessages + HistoryMessages(messages[..i])
    {
      var message := messages[i];
      assert messages[..i + 1][..i] == messages[..i];
      if message.Some? {
        result := result + [ApiMessage(message.value.role, Text(Some(message.value.text.GetOr([]))))];
      }
      i := i + 1;
    }
    assert messages[..i] == messages;
  }

  function ProfileMessages(profile: Option<TripProfile>): seq<ApiMessage> {
    match ProfileContext(profile)
    case None => []
    case Some(ctx) => [ApiMessage(Some(SystemRole), Text(Some(ctx)))]
  }

  /**
   * `baseChatRequest` followed by `appendHistory`: the system prompt, the
   * profile context when there is one, then the history.
   */
  function ChatRequest(profile: Option<TripProfile>, h: History): (r: Request)
    ensures |r| >= 1 && r[0] == SystemMessage(RecommendationPrompt)
    ensures var ctx := ProfileContext(profile);
            && (ctx.Some? ==> |r| == 2 + |Compact(h)| && r[1] == ApiMessage(Some(SystemRole), Text(ctx))
                              && r[2..] == HistoryMessages(h))
            && (ctx.None? ==> |r| == 1 + |Compact(h)| && r[1..] == HistoryMessages(h))
  {
    var ctx := ProfileContext(profile);
    var r := [SystemMessage(RecommendationPrompt)] + ProfileMessages(profile) + HistoryMessages(h);
    if ctx.Some? then
      assert r[2..] == HistoryMessages(h);
      r
    else
      assert r[1..] == HistoryMessages(h);
      r
  }

  /**
   * Only system messages precede the history, and the history's messages
   * keep the roles of the non-null entries, in order.
   */
  lemma HistoryRolesKept(profile: Option<TripProfile>, h: History, i: int)
    requires 0 <= i < |Compact(h)|
    ensures var r := ChatRequest(profile, h);
            var k := |r| - |Compact(h)|;
            (forall j :: 0 <= j < k ==> r[j].role == Some(SystemRole))
            && r[k + i].role == Compact(h)[i].role
  {
    var r := ChatRequest(profile, h);
    var k := |r| - |Compact(h)|;
    var hm := HistoryMessages(h);
    assert r[k..] == hm;
    assert r[k + i] == hm[i];
    assert hm[i] == ToApiMessage(Compact(h)[i]);
  }

  /** `chat`: the key guard, the request above, and the no-content reply for JSON null. */
  function Chat(key: Option<string>, h: History, profile: Option<TripProfile>, llm: Llm): (r: ServiceResult<string>)
    ensures r.KeyMissing? <==> !KeyConfigured(key)
    ensures r.CallFailed? <==> KeyConfigured(key) && ExecuteChat(llm(ChatRequest(profile, h))).None?
    ensures r.Returned? && ExecuteChat(llm(ChatRequest(profile, h))).value.JsonNull? ==> r.value == NoContentReply
    ensures r.Returned? && !ExecuteChat(llm(ChatRequest(profile, h))).value.JsonNull? ==>
              r.value == AsText(ExecuteChat(llm(ChatRequest(profile, h))).value)
  {
    CompleteText(key, llm, ChatRequest(profile, h), NoContentReply)
  }

  // ---------------------------------------------------------------------
  // Documents
  // ---------------------------------------------------------------------

  /** What PDFBox makes of the bytes: an `IOException`, a null text, or a text. */
  datatype PdfText = Unreadable | NoText | Extracted(text: string)

  const PdfBudget: nat := 8000
  const NoPdfContent: string := "No PDF content provided."
  const PdfNoText: string := "PDF text could not be extracted."
  const PdfUnreadable: string := "Unable to extract text from PDF. Please rely on the image or provide key details manually."

  /**
   * `extractPdfText`: fixed messages for empty bytes, unreadable PDFs and
   * texts that are blank; otherwise the prefix (null taken as "") followed
   * by the trimmed text, cut to its first 8000 characters.
   */
  function ExtractPdfText(bytes: seq<bv8>, prefix: Option<string>, pdf: seq<bv8> -> PdfText): (r: string)
    ensures |bytes| == 0 ==> r == NoPdfContent
    ensures |bytes| > 0 && pdf(bytes).Unreadable? ==> r == PdfUnreadable
    ensures |bytes| > 0 && pdf(bytes).NoText? ==> r == PdfNoText
    ensures |bytes| > 0 && pdf(bytes).Extracted? && AllTrimChars(pdf(bytes).text) ==> r == PdfNoText
    ensures |bytes| > 0 && pdf(bytes).Extracted? && !AllTrimChars(pdf(bytes).text) ==>
              var p := prefix.GetOr([]);
              var t := Trim(pdf(bytes).text);
              |r| == |p| + Min(|t|, PdfBudget) && r[..|p|] == p && StartsWith(t, r[|p|..])
  {
    if |bytes| == 0 then NoPdfContent
    else
      match pdf(bytes)
      case Unreadable => PdfUnreadable
      case NoText => PdfNoText
      case Extracted(raw) =>
        var t := Trim(raw);
        var text := if |t| > PdfBudget then t[..PdfBudget] else t;
        if text == [] then PdfNoText
        else
          var p := prefix.GetOr([]);
          assert (p + text)[|p|..] == text;
          p + text
  }

  /** A text within the budget is passed on whole. */
  lemma ShortPdfTextKept(bytes: seq<bv8>, prefix: Option<string>, pdf: seq<bv8> -> PdfText)
    requires |bytes| > 0 && pdf(bytes).Extracted? && !AllTrimChars(pdf(bytes).text)
    requires |Trim(pdf(bytes).text)| <= PdfBudget
    ensures ExtractPdfText(bytes, prefix, pdf) == prefix.GetOr([]) + Trim(pdf(bytes).text)
  {
    var r := ExtractPdfText(bytes, prefix, pdf);
    var p := prefix.GetOr([]);
    var t := Trim(pdf(bytes).text);
    assert r[|p|..] == t;
    assert r == r[..|p|] + r[|p|..];
  }

  const ImagePrefix: string := "image/"
  const PdfType: string := "application/pdf"

  /** `"application/pdf".equalsIgnoreCase(contentType)`: false for null. */
  predicate IsPdfType(contentType: Option<string>) {
    contentType.Some? && EqualsIgnoreCase(PdfType, contentType.value)
  }

  predicate IsImageType(contentType: Option<string>) {
    contentType.Some? && StartsWith(contentType.value, ImagePrefix)
  }

  /**
   * The second part of the analysis message: an image data URL at high
   * detail for an "image/" type, the PDF's text for a PDF, and otherwise the raw
   * Base64 payload under an "unknown file type" label.
   */
  function DocumentBlock(contentType: Option<string>, bytes: seq<bv8>, prefix: Option<string>,
                         pdf: seq<bv8> -> PdfText, base64: seq<bv8> -> string): (b: ContentPart)
    ensures IsImageType(contentType) ==>
              b == ImagePart("data:" + contentType.value + ";base64," + base64(bytes), "high")
    ensures !IsImageType(contentType) && IsPdfType(contentType) ==>
              b == TextPart(ExtractPdfText(bytes, prefix, pdf))
    ensures !IsImageType(contentType) && !IsPdfType(contentType) ==>
              b == TextPart("Unknown file type (" + contentType.GetOr("null") + "). Base64 payload:\n" + base64(bytes))
  {
    if IsImageType(contentType) then
      ImagePart("data:" + contentType.value + ";base64," + base64(bytes), "high")
    else if IsPdfType(contentType) then
      TextPart(ExtractPdfText(bytes, prefix, pdf))
    else
      TextPart("Unknown file type (" + contentType.GetOr("null") + "). Base64 payload:\n" + base64(bytes))
  }

  function AnalysisPrompt(kind: UploadKind): Prompt {
    match kind
    case Ticket => TicketPrompt
    case Accommodation => AccommodationPrompt
    case OtherDocument => DocumentPrompt
  }

  function PdfPrefix(kind: UploadKind): string {
    match kind
    case Ticket => "Ticket PDF text (truncated):\n"
    case Accommodation => "Accommodation PDF text (truncated):\n"
    case OtherDocument => "Document PDF text (truncated):\n"
  }

  /** `analyzeOtherDocument`'s `safeName`: "document" for a null or blank name. */
  function SafeName(fileName: Option<string>): (s: string)
    ensures fileName.Some? && !IsBlank(fileName.value) ==> s == fileName.value
    ensures s != [] && !IsBlank(s)
  {
    if fileName.None? || IsBlank(fileName.value) then
      assert !IsJavaWhitespace("document"[0]);
      "document"
    else fileName.value
  }

  /** Only the request about another document names the file. */
  function IntroFor(kind: UploadKind, fileName: Option<string>): ContentPart {
    IntroPart(kind, if kind == OtherDocument then Some(SafeName(fileName)) else None)
  }

  const UninterpretedDocument: string := "The document could not be interpreted."

  /**
   * `analyzeDocument`: the kind's system prompt, the history, then one user
   * message with the introduction and the document block.
   */
  function AnalysisRequest(kind: UploadKind, h: History, fileName: Option<string>, bytes: seq<bv8>,
                           contentType: Option<string>, pdf: seq<bv8> -> PdfText, base64: seq<bv8> -> string)
    : (r: Request)
    ensures |r| == 2 + |Compact(h)|
    ensures r[0] == SystemMessage(AnalysisPrompt(kind)) && r[1..|r| - 1] == HistoryMessages(h)
    ensures r[|r| - 1].role == Some(UserRole)
    ensures r[|r| - 1].content.Parts? && |r[|r| - 1].content.parts| == 2
    ensures r[|r| - 1].content.parts[1] == DocumentBlock(contentType, bytes, Some(PdfPrefix(kind)), pdf, base64)
  {
    var block := DocumentBlock(contentType, bytes, Some(PdfPrefix(kind)), pdf, base64);
    var r := [SystemMessage(AnalysisPrompt(kind))] + HistoryMessages(h)
      + [ApiMessage(Some(UserRole), Parts([IntroFor(kind, fileName), block]))];
    assert r[1..|r| - 1] == HistoryMessages(h);
    r
  }

  /**
   * `analyzeTicket`, `analyzeAccommodation` and `analyzeOtherDocument`: the
   * key guard, the analysis request, and a fixed reply for JSON null.
   */
  function Analyze(kind: UploadKind, key: Option<string>, h: History, fileName: Option<string>, bytes: seq<bv8>,
                   contentType: Option<string>, llm: Llm, pdf: seq<bv8> -> PdfText, base64: seq<bv8> -> string)
    : (r: ServiceResult<string>)
    ensures r.KeyMissing? <==> !KeyConfigured(key)
    ensures var request := AnalysisRequest(kind, h, fileName, bytes, contentType, pdf, base64);
            && (r.CallFailed? <==> KeyConfigured(key) && ExecuteChat(llm(request)).None?)
            && (r.Returned? && ExecuteChat(llm(request)).value.JsonNull? ==> r.value == UninterpretedDocument)
            && (r.Returned? && !ExecuteChat(llm(request)).value.JsonNull? ==> r.value == AsText(ExecuteChat(llm(request)).value))
  {
    CompleteText(key, llm, AnalysisRequest(kind, h, fileName, bytes, contentType, pdf, base64), UninterpretedDocument)
  }

  // ---------------------------------------------------------------------
  // Itinerary extraction
  // ---------------------------------------------------------------------

  /**
   * What Jackson makes of the cleaned reply: whether its `days` is an empty
   * array, and the text `writeValueAsString` gives back.
   */
  datatype ParsedJson = ParsedJson(daysIsEmptyArray: bool, serialized: string)

  /** `readTree`; `None` when it throws. */
  type JsonParser = string -> Option<ParsedJson>

  function ItineraryRequest(response: string): Request {
    [SystemMessage(ItineraryPrompt), ApiMessage(Some(UserRole), Text(Some("Assistant response:\n" + response)))]
  }

  /**
   * The text `extractItineraryJson` hands to the parser: the model's reply
   * with its "json" fence removed. `None` when the call fails, the reply
   * is JSON null, the stripper throws, or nothing but blanks is left.
   */
  function CleanedItinerary(response: string, llm: Llm): (c: Option<string>)
    ensures c.Some? <==>
              var node := ExecuteChat(llm(ItineraryRequest(response)));
              && node.Some? && !node.value.JsonNull?
              && StripJsonFences(Some(AsText(node.value))).Ok?
              && !IsBlank(StripJsonFences(Some(AsText(node.value))).value.value)
    ensures c.Some? ==>
              && !IsBlank(c.value)
              && c == StripJsonFences(Some(AsText(ExecuteChat(llm(ItineraryRequest(response))).value))).value
  {
    match ExecuteChat(llm(ItineraryRequest(response)))
    case None => None
    case Some(node) =>
      if node.JsonNull? then None
      else
        match StripJsonFences(Some(AsText(node)))
        case Err(_) => None
        case Ok(content) => if IsBlank(content.value) then None else content
  }

  /**
   * `extractItineraryJson`: an itinerary exactly when the response is
   * non-blank, the key is configured, the model's reply cleans to a
   * non-blank text, and that text parses to JSON whose `days` is not an
   * empty array; the itinerary is then the re-serialised JSON. Every other
   * case, failures included, gives null.
   */
  function ExtractItineraryJson(key: Option<string>, response: Option<string>, llm: Llm, parse: JsonParser)
    : (r: Option<string>)
    ensures response.None? || IsBlank(response.value) || !KeyConfigured(key) ==> r.None?
    ensures r.Some? <==>
              && response.Some? && !IsBlank(response.value) && KeyConfigured(key)
              && CleanedItinerary(response.value, llm).Some?
              && parse(CleanedItinerary(response.value, llm).value).Some?
              && !parse(CleanedItinerary(response.value, llm).value).value.daysIsEmptyArray
    ensures r.Some? ==> r.value == parse(CleanedItinerary(response.value, llm).value).value.serialized
  {
    if response.None? || IsBlank(response.value) then None
    else if !KeyConfigured(key) then None
    else
      match CleanedItinerary(response.value, llm)
      case None => None
      case Some(content) =>
        match parse(content)
        case None => None
        case Some(json) => if json.daysIsEmptyArray then None else Some(json.serialized)
  }

  /**
   * A reply that trims to a fence too short to hold two makes the stripper
   * throw; the extraction swallows it and yields null.
   */
  lemma ShortFenceYieldsNull(key: Option<string>, response: string, llm: Llm, parse: JsonParser, reply: string)
    requires llm(ItineraryRequest(response)) == Answered(200, Value(reply))
    requires StartsWith(Trim(reply), Fence) && EndsWith(Trim(reply), Fence) && |Trim(reply)| < 6
    ensures ExtractItineraryJson(key, Some(response), llm, parse).None?
  {
    assert StripJsonFences(Some(reply)).Err?;
  }

  /** An itinerary with no days is reported as no itinerary. */
  lemma EmptyDaysYieldNull(key: Option<string>, response: string, llm: Llm, parse: JsonParser, x: string)
    requires KeyConfigured(key) && !IsBlank(response)
    requires IsTrimmed(x) && x != []
    requires llm(ItineraryRequest(response)) == Answered(200, Value(Fence + "json" + ("\n" + x + "\n") + Fence))
    requires parse(x).Some? && parse(x).value.daysIsEmptyArray
    ensures ExtractItineraryJson(key, Some(response), llm, parse).None?
  {
    JsonBlockStripsToText(x);
  }

  /**
   * A "json" block around a parsable itinerary with days is returned as
   * the parser re-serialises it.
   */
  lemma JsonBlockItineraryFound(key: Option<string>, response: string, llm: Llm, parse: JsonParser, x: string)
    requires KeyConfigured(key) && !IsBlank(response)
    requires IsTrimmed(x) && x != [] && !IsBlank(x)
    requires llm(ItineraryRequest(response)) == Answered(200, Value(Fence + "json" + ("\n" + x + "\n") + Fence))
    requires parse(x).Some? && !parse(x).value.daysIsEmptyArray
    ensures ExtractItineraryJson(key, Some(response), llm, parse) == Some(parse(x).value.serialized)
  {
    JsonBlockStripsToText(x);
  }
}
