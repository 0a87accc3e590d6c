/**
 * `TripProfileController`: reading and upserting the trip profile of a chat
 * the caller owns. Profiles are stored by chat id, which the unique
 * `chat_id` column makes a key.
 */
module TripProfileController {
  import opened Wrappers
  import opened JavaStrings
  import opened ChatModel
  import opened TripProfiles

  /** The profiles table, by chat id. */
  type Profiles = map<int, TripProfile>

  /** Every stored profile sits under its own chat's id and is in normal form. */
  predicate WellFormed(profiles: Profiles) {
    forall c :: c in profiles ==> profiles[c].chatId == c && Normalized(profiles[c].fields)
  }

  datatype ProfileResponse =
    | BadRequest(message: string)
    | Unauthorized(message: string)
    | NotFound(message: string)
    | Found(profile: ProfileDto)

  const ProfileRequired: string := "Profile data is required."
  const AuthenticationRequired: string := "Authentication required."
  const ChatNotFound: string := "Chat not found."

  /** `findByChatId`. */
  function FindProfile(profiles: Profiles, chatId: int): Option<TripProfile> {
    if chatId in profiles then Some(profiles[chatId]) else None
  }

  /**
   * `getProfile`: 401 without a user id, 404 for a chat the caller does not
   * own, and otherwise the DTO of the chat's profile or of no profile.
   */
  function GetProfile(chats: Chats, profiles: Profiles, chatId: int, uid: Option<int>): (r: ProfileResponse)
    ensures uid.None? ==> r == Unauthorized(AuthenticationRequired)
    ensures uid.Some? && FindOwnedChat(chats, chatId, uid.value).None? ==> r == NotFound(ChatNotFound)
    ensures uid.Some? && FindOwnedChat(chats, chatId, uid.value).Some? ==>
              && r.Found? && (chatId !in profiles ==> r.profile == ToProfileDto(None))
              && (chatId in profiles ==> r.profile == ToProfileDto(Some(profiles[chatId])))
  {
    if uid.None? then Unauthorized(AuthenticationRequired)
    else if FindOwnedChat(chats, chatId, uid.value).None? then NotFound(ChatNotFound)
    else Found(ToProfileDto(FindProfile(profiles, chatId)))
  }

  /**
   * `saveProfile`: a null body is refused before authentication, then 401
   * and 404 as for reading; otherwise the chat's profile (created when
   * missing) gets every field from the request through the normalising
   * setters and is stored.
   */
  function SaveProfile(chats: Chats, profiles: Profiles, chatId: int, request: Option<ProfileFields>, uid: Option<int>)
    : (r: (ProfileResponse, Profiles))
    ensures request.None? ==> r == (BadRequest(ProfileRequired), profiles)
    ensures request.Some? && uid.None? ==> r == (Unauthorized(AuthenticationRequired), profiles)
    ensures request.Some? && uid.Some? && FindOwnedChat(chats, chatId, uid.value).None? ==>
              r == (NotFound(ChatNotFound), profiles)
    ensures request.Some? && uid.Some? && FindOwnedChat(chats, chatId, uid.value).Some? ==>
              var stored := if chatId in r.1 then r.1[chatId] else Create(chatId);
              && chatId in r.1 && r.1 == profiles[chatId := stored]
              && stored.fields == NormalizeAll(request.value)
              && stored.chatId == (if chatId in profiles then profiles[chatId].chatId else chatId)
              && r.0 == Found(ToProfileDto(Some(stored)))
  {
    if request.None? then (BadRequest(ProfileRequired), profiles)
    else if uid.None? then (Unauthorized(AuthenticationRequired), profiles)
    else if FindOwnedChat(chats, chatId, uid.value).None? then (NotFound(ChatNotFound), profiles)
    else
      var profile := match FindProfile(profiles, chatId)
        case Some(p) => p
        case None => Create(chatId);
      var saved := SetAll(profile, request.value);
      (Found(ToProfileDto(Some(saved))), profiles[chatId := saved])
  }

  /** Saving keeps the table keyed by chat id and every profile in normal form. */
  lemma SaveKeepsWellFormed(chats: Chats, profiles: Profiles, chatId: int, request: Option<ProfileFields>, uid: Option<int>)
    requires WellFormed(profiles)
    ensures WellFormed(SaveProfile(chats, profiles, chatId, request, uid).1)
  {
  }

  /**
   * The stored profile does not depend on what was stored before: every
   * field is overwritten, so a field absent from the request is cleared.
   */
  lemma SaveOverwritesEveryField(chats: Chats, a: Profiles, b: Profiles, chatId: int, request: ProfileFields, userId: int)
    requires FindOwnedChat(chats, chatId, userId).Some?
    requires WellFormed(a) && WellFormed(b)
    ensures SaveProfile(chats, a, chatId, Some(request), Some(userId)).1[chatId]
         == SaveProfile(chats, b, chatId, Some(request), Some(userId)).1[chatId]
    ensures forall f: Field :: Get(request, f).None? ==>
              Get(SaveProfile(chats, a, chatId, Some(request), Some(userId)).1[chatId].fields, f).None?
  {
  }

  /** Saving the same request twice stores the same table as saving it once. */
  lemma SaveIsIdempotent(chats: Chats, profiles: Profiles, chatId: int, request: Option<ProfileFields>, uid: Option<int>)
    ensures var once := SaveProfile(chats, profiles, chatId, request, uid);
            SaveProfile(chats, once.1, chatId, request, uid) == once
  {
    var once := SaveProfile(chats, profiles, chatId, request, uid);
    var twice := SaveProfile(chats, once.1, chatId, request, uid);
    if request.Some? && uid.Some? && FindOwnedChat(chats, chatId, uid.value).Some? {
      assert twice.1[chatId] == once.1[chatId];
      assert twice.1 == once.1;
    }
  }

  /**
   * Reading after a successful save shows, for each field, the request's
   * value trimmed, or "" where it was null or blank.
   */
  lemma SaveThenGet(chats: Chats, profiles: Profiles, chatId: int, request: ProfileFields, userId: int, f: Field)
    requires FindOwnedChat(chats, chatId, userId).Some?
    ensures var after := SaveProfile(chats, profiles, chatId, Some(request), Some(userId)).1;
            var r := GetProfile(chats, after, chatId, Some(userId));
            r.Found? && FromDtoValue(r.profile[f]) == TrimToNull(Get(request, f))
  {
    var stored := SaveProfile(chats, profiles, chatId, Some(request), Some(userId)).1[chatId];
    DtoRoundTrip(stored, f);
  }
}
