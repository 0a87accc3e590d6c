# Travel-Recommendation: a Dafny model of its request rules

This project models the small, sequential rules inside the Travel-Recommendation
Spring application: how a chat's history is kept, edited and regenerated, how
document uploads are accepted and recorded, how replies from the language model
are post-processed, how trip profiles and accounts are normalised, and how a
request is signed in or turned away. Each rule is a pure function over immutable
datatypes; the language model, Mapbox, PDF text extraction, Base64, JSON parsing,
password hashing and JWT signature checking are parameters of the functions that
use them.

Modules, one per file:

- `Wrappers`: `Option` and `Result`.
- `JavaStrings`: Java's `trim`, `isBlank`, `startsWith`, `contains` and ASCII case mapping, with the trim-to-null normaliser the models share.
- `CodeFences`: the two code-fence strippers, the controller's regular expression and the OpenAI client's `json` fence.
- `ChatModel`: chats, stored messages, the last-user-message scan, the deletion of later messages, upload markers and the message DTO.
- `ChatController`: upload acceptance and recording, editing the latest message, regenerating the latest reply, and the stored outcome of a streamed reply.
- `ChatHistoryProperties`: what edit and regenerate keep, delete and send, and how they interact with uploads.
- `LlmCommon`, `OpenAiService`, `GroqService`: the requests the two chat clients build, the API-key guard, the reply and title post-processing, the profile context, PDF text budgeting, the document block choice and itinerary extraction.
- `TripProfiles`, `TripProfileController`: the normalising setters of a trip profile, the upsert and the profile DTO.
- `Users`, `UserService`, `SettingsApi`: email normalisation, name sanitisation, registration and sign-in, and the settings validators.
- `AuthSessions`, `JwtFilter`, `Interceptors`: session activity and revocation, the JWT filter's token choice and acceptance, and the two page interceptors.
- `Geocoding`: the capped geocoding loop and the shaping of each result.
- `Dashboard`: the dashboard's chat list and the messages of the newest chat.

Repositories are modelled as maps (chats and profiles by id) or as lists in
ascending id order (a chat's messages, as `findByChatIdOrderByIdAsc` returns
them); a fetched list may hold null entries, modelled as `None`.

## Model

| member | source | states |
|---|---|---|
| AuthSessions.Create | Application/src/main/java/eu/popalexr/travel_recommendation/Models/AuthSession.java:35-43 | a session exists exactly when id, user id and expiry are all non-null; it carries them and starts unrevoked |
| AuthSessions.Revoke | Application/src/main/java/eu/popalexr/travel_recommendation/Models/AuthSession.java:55-57 | only the revocation time changes: it becomes `when`, or the clock's reading when `when` is null |
| AuthSessions.NewSessionActiveUntilExpiry | Application/src/main/java/eu/popalexr/travel_recommendation/Models/AuthSession.java:41-53 | a fresh session is active exactly at instants strictly before its expiry, so not at the expiry itself |
| AuthSessions.RevokedNeverActive | Application/src/main/java/eu/popalexr/travel_recommendation/Models/AuthSession.java:51-57 | a revoked session is inactive at every instant, whatever time the revocation recorded |
| AuthSessions.ActiveIsAPrefix | Application/src/main/java/eu/popalexr/travel_recommendation/Models/AuthSession.java:51-53 | activity is downward closed in time: active at a later instant implies active at every earlier one |
| AuthSessions.RevokeOverwrites | Application/src/main/java/eu/popalexr/travel_recommendation/Models/AuthSession.java:55-57 | revoking twice equals revoking once with the second time |
| Users.NormalizeEmail | Application/src/main/java/eu/popalexr/travel_recommendation/Models/User.java:44 | the stored email is trimmed, has no upper-case letter, is no longer than the input and equals the trimmed input ignoring case |
| Users.NormalizeEmailIdempotent | Application/src/main/java/eu/popalexr/travel_recommendation/Models/User.java:44 | normalising an already-stored email changes nothing |
| Users.NormalizeEmailIgnoresPaddingAndCase | Application/src/main/java/eu/popalexr/travel_recommendation/Models/User.java:44 | emails differing only in surrounding blanks and ASCII case normalise to the same value |
| Users.TrimOfLower | Application/src/main/java/eu/popalexr/travel_recommendation/Models/User.java:44 | trimming and lower-casing commute, so the order in the constructor does not matter |
| Users.Create | Application/src/main/java/eu/popalexr/travel_recommendation/Models/User.java:43-52 | creation fails exactly on a null email or hash; the result is well formed, with the normalised email, the given hash and trimmed-to-null names |
| Users.UpdateProfile | Application/src/main/java/eu/popalexr/travel_recommendation/Models/User.java:82-85 | only the two names change, each to its trimmed-to-null form, and well-formedness is preserved |
| Users.ChangePassword | Application/src/main/java/eu/popalexr/travel_recommendation/Models/User.java:87-89 | a null hash fails; otherwise only the hash changes |
| Users.EmailNeverChanges | Application/src/main/java/eu/popalexr/travel_recommendation/Models/User.java:82-109 | no sequence of profile and password updates changes the id or the email, and each keeps the user well formed |
| JavaStrings.Trim | Application/src/main/java/eu/popalexr/travel_recommendation/Models/User.java:107 | the result is the infix of the input left after removing trim characters (code points up to U+0020) from both ends: it has none at either end, only trim characters were dropped, and it is empty exactly when the input is all trim characters |
| JavaStrings.TrimIdempotent | Application/src/main/java/eu/popalexr/travel_recommendation/Models/User.java:107 | trimming a trimmed text changes nothing |
| JavaStrings.TrimUnique | Application/src/main/java/eu/popalexr/travel_recommendation/Models/User.java:107 | any split into trim-character padding around a part that starts and ends with kept characters is the split trim makes |
| JavaStrings.TrimIgnoresPadding | Application/src/main/java/eu/popalexr/travel_recommendation/Models/User.java:107 | adding padding of trim characters around a text does not change its trimmed form |
| JavaStrings.TrimToNull | Application/src/main/java/eu/popalexr/travel_recommendation/Models/User.java:103-109 | null, or a text that trims to nothing, becomes null; anything else becomes its non-empty trimmed form |
| JavaStrings.TrimToNullIdempotent | Application/src/main/java/eu/popalexr/travel_recommendation/Models/User.java:103-109 | normalising an already normalised value changes nothing |
| JavaStrings.TrimToNullFixedPoint | Application/src/main/java/eu/popalexr/travel_recommendation/Models/User.java:103-109 | a value already null or non-empty and trimmed is left as it is |
| JavaStrings.ContainsIffOccurs | Application/src/main/java/eu/popalexr/travel_recommendation/Interceptors/AuthenticatedInterceptor.java:35-36 | `contains` holds whenever the part occurs at some position |
| JavaStrings.ContainsHasOccurrence | Application/src/main/java/eu/popalexr/travel_recommendation/Interceptors/AuthenticatedInterceptor.java:35-36 | when `contains` holds, the part occurs at a position it returns, so the two views agree in both directions |
| JavaStrings.ToLowerIdempotent | Application/src/main/java/eu/popalexr/travel_recommendation/Models/User.java:44 | lower-casing a lower-cased text changes nothing |
| JavaStrings.ToLowerKeepsTrimmed | Application/src/main/java/eu/popalexr/travel_recommendation/Models/User.java:44 | lower-casing a trimmed text leaves it trimmed |
| Interceptors.EscapeQuotes | Application/src/main/java/eu/popalexr/travel_recommendation/Interceptors/AuthenticatedInterceptor.java:42 | escaping never shortens the message and never yields a text that starts with a bare quote |
| Interceptors.EscapeRoundTrip | Application/src/main/java/eu/popalexr/travel_recommendation/Interceptors/AuthenticatedInterceptor.java:42 | reading the escaped text back (a backslash-quote pair becomes a quote) gives the original message |
| Interceptors.EveryQuoteEscaped | Application/src/main/java/eu/popalexr/travel_recommendation/Interceptors/AuthenticatedInterceptor.java:42 | every double quote in the escaped text is preceded by a backslash |
| Interceptors.JsonBodyRoundTrip | Application/src/main/java/eu/popalexr/travel_recommendation/Interceptors/AuthenticatedInterceptor.java:39-44 | the message can be read back from between the fixed start and end of the JSON body |
| Interceptors.RequireAuthenticated | Application/src/main/java/eu/popalexr/travel_recommendation/Interceptors/AuthenticatedInterceptor.java:18-37 | the request proceeds exactly when a session exists and holds the user id; otherwise a JSON request gets 401 with the fixed message and any other request is redirected to /login |
| Interceptors.RequireGuest | Application/src/main/java/eu/popalexr/travel_recommendation/Interceptors/GuestOnlyInterceptor.java:16-35 | the request proceeds exactly when it has no user-id attribute; otherwise a JSON request gets 409 with the fixed message and any other request is redirected to /dashboard |
| Interceptors.TokenWithoutSessionRefusedByBoth | Application/src/main/java/eu/popalexr/travel_recommendation/Interceptors/GuestOnlyInterceptor.java:16-28 | a request the JWT filter signs in, but with no session holding the user id, is refused by both interceptors: one redirects to /login, the other to /dashboard |
| JwtFilter.BearerToken | Application/src/main/java/eu/popalexr/travel_recommendation/Filters/JwtAuthenticationFilter.java:42-46 | a token is taken exactly when the header starts with "Bearer " (case-sensitive), and the header is that prefix followed by the token |
| JwtFilter.CookieToken | Application/src/main/java/eu/popalexr/travel_recommendation/Filters/JwtAuthenticationFilter.java:48-57 | no token exactly when no cookie has the configured name; otherwise the value of the first such cookie |
| JwtFilter.SelectToken | Application/src/main/java/eu/popalexr/travel_recommendation/Filters/JwtAuthenticationFilter.java:41-57 | a Bearer header token wins; without one, a null cookie array gives no token, and otherwise the cookie token is used |
| JwtFilter.SafeJti | Application/src/main/java/eu/popalexr/travel_recommendation/Filters/JwtAuthenticationFilter.java:79-86 | the jti is kept exactly when it is readable, non-null and not blank |
| JwtFilter.Filter | Application/src/main/java/eu/popalexr/travel_recommendation/Filters/JwtAuthenticationFilter.java:38-77 | the user id is set exactly when the token validates with a uid and a usable jti naming an active session of that same user; the session id is set with it and never without it |
| JwtFilter.InvalidBearerDoesNotFallBack | Application/src/main/java/eu/popalexr/travel_recommendation/Filters/JwtAuthenticationFilter.java:44-59 | a Bearer token that fails validation leaves the request anonymous even when the cookie holds a good token |
| JwtFilter.RevokedSessionRejected | Application/src/main/java/eu/popalexr/travel_recommendation/Filters/JwtAuthenticationFilter.java:64-70 | a token whose jti names a revoked session signs nothing in |
| JwtFilter.RevocationSignsOut | Application/src/main/java/eu/popalexr/travel_recommendation/Filters/JwtAuthenticationFilter.java:64-70 | revoking the session a request signed in with makes the same request anonymous |
| Dashboard.Filter | Application/src/main/java/eu/popalexr/travel_recommendation/Repositories/ChatRepository.java:11 | the result holds exactly the elements of the table that satisfy the query and is no longer than the table; its order is stated by `FilterKeepsOrder` |
| Dashboard.UserChats | Application/src/main/java/eu/popalexr/travel_recommendation/Repositories/ChatRepository.java:11 | the list holds exactly the chats of the user |
| Dashboard.ChatMessages | Application/src/main/java/eu/popalexr/travel_recommendation/Repositories/ChatMessageRepository.java:10 | the list holds exactly the messages of the chat and, with the table in id order, comes in ascending id order |
| Dashboard.FilterKeepsOrder | Application/src/main/java/eu/popalexr/travel_recommendation/Repositories/ChatMessageRepository.java:10 | a query keeps the table's order: any key that strictly increases along the table strictly increases along the result |
| Dashboard.DisplayTitle | Application/src/main/java/eu/popalexr/travel_recommendation/Controllers/DashboardDataController.java:47 | the title shown is never blank: the chat's own title when it is non-null and not blank, otherwise "Untitled chat" |
| Dashboard.DisplayTitleStable | Application/src/main/java/eu/popalexr/travel_recommendation/Controllers/DashboardDataController.java:47 | a title already shown is shown unchanged |
| Dashboard.Summaries | Application/src/main/java/eu/popalexr/travel_recommendation/Controllers/DashboardDataController.java:44-50 | one summary per chat, in order, with the chat's id, its display title and the fixed subtitle |
| Dashboard.Entries | Application/src/main/java/eu/popalexr/travel_recommendation/Controllers/DashboardDataController.java:58-65 | one entry per message, in order, with empty timestamp; the request fails exactly when some message has a null role or text, which `Map.of` refuses |
| Dashboard.Data | Application/src/main/java/eu/popalexr/travel_recommendation/Controllers/DashboardDataController.java:31-74 | no user id gives two empty lists; otherwise the summaries of all the user's chats and, when there is one, the entries of the first chat's messages, failing exactly when those entries fail |
| Dashboard.FilterKeepsAscending | Application/src/main/java/eu/popalexr/travel_recommendation/Repositories/ChatRepository.java:11 | filtering an id-ordered table keeps it in id order |
| Dashboard.UserChatsNewestFirst | Application/src/main/java/eu/popalexr/travel_recommendation/Repositories/ChatRepository.java:11 | with the table in id order, the user's chats come newest first |
| Dashboard.ShowsNewestChat | Application/src/main/java/eu/popalexr/travel_recommendation/Controllers/DashboardDataController.java:52-66 | when the user has chats, the messages shown are the entries of the messages of the chat with the greatest id, one per message and in the order the query returns them, each with that message's id; with the messages table in id order they come in ascending id order |
| Dashboard.FirstIsGreatest | Application/src/main/java/eu/popalexr/travel_recommendation/Controllers/DashboardDataController.java:56 | the first chat of a list in descending id order has the greatest id |
| Dashboard.TitlesNeverBlank | Application/src/main/java/eu/popalexr/travel_recommendation/Controllers/DashboardDataController.java:44-50 | every summary has a non-blank title, belongs to the user's chat at the same position, and keeps that chat's own non-blank title |
| UserService.FindByEmail | Application/src/main/java/eu/popalexr/travel_recommendation/Services/Impl/UserServiceImpl.java:46 | finds nothing exactly when no stored email equals the query ignoring case; otherwise the first match |
| UserService.Register | Application/src/main/java/eu/popalexr/travel_recommendation/Services/Impl/UserServiceImpl.java:27-41 | fails with "Email is already registered." exactly when the normalised email is taken ignoring case; otherwise appends a well-formed user with the next id, the normalised email, the encoded password and sanitised names |
| UserService.Authenticate | Application/src/main/java/eu/popalexr/travel_recommendation/Services/Impl/UserServiceImpl.java:45-49 | succeeds exactly when the normalised email is found and the password matches its hash, returning that stored user; an unknown email and a wrong password give the same error |
| UserService.RegisterThenAuthenticate | Application/src/main/java/eu/popalexr/travel_recommendation/Services/Impl/UserServiceImpl.java:27-49 | with an encoder that verifies its own hashes, a new account signs in with its password under any spelling of its email that normalises alike, and the sign-in returns the new user |
| UserService.AppendedUserFound | Application/src/main/java/eu/popalexr/travel_recommendation/Services/Impl/UserServiceImpl.java:40-46 | a user appended under an email nobody had is the one the lookup finds |
| UserService.SecondRegistrationRefused | Application/src/main/java/eu/popalexr/travel_recommendation/Services/Impl/UserServiceImpl.java:28-31 | registering the same normalised email a second time fails |
| UserService.RegisterKeepsEmailsDistinct | Application/src/main/java/eu/popalexr/travel_recommendation/Services/Impl/UserServiceImpl.java:28-40 | registration keeps the stored emails pairwise distinct ignoring case |
| TripProfiles.Create | Application/src/main/java/eu/popalexr/travel_recommendation/Models/TripProfile.java:59-65 | a new profile is bound to its chat with every field null, hence in normal form |
| TripProfiles.Set | Application/src/main/java/eu/popalexr/travel_recommendation/Models/TripProfile.java:79-137 | a setter stores the trimmed-to-null argument in its own field and changes no other field and not the chat |
| TripProfiles.SetKeepsNormalized | Application/src/main/java/eu/popalexr/travel_recommendation/Models/TripProfile.java:131-137 | whatever a setter is given, every field stays null or non-empty and trimmed |
| TripProfiles.SetToCurrentIsNoOp | Application/src/main/java/eu/popalexr/travel_recommendation/Models/TripProfile.java:75-137 | setting a field to what its getter returns leaves the profile unchanged |
| TripProfiles.FieldsEqual | Application/src/main/java/eu/popalexr/travel_recommendation/Models/TripProfile.java:32-53 | two field records that agree on all seven getters are equal |
| TripProfiles.SetAll | Application/src/main/java/eu/popalexr/travel_recommendation/Controllers/TripProfileController.java:148-154 | calling the seven setters in the controller's order keeps the chat and leaves exactly the normalised request fields |
| TripProfiles.NormalizeAll | Application/src/main/java/eu/popalexr/travel_recommendation/Models/TripProfile.java:131-137 | each field of the result is the trimmed-to-null request field, so the result is in normal form |
| TripProfiles.AllFieldsComplete | Application/src/main/java/eu/popalexr/travel_recommendation/Controllers/TripProfileController.java:160-181 | the DTO's key set covers all seven fields |
| TripProfiles.ToProfileDto | Application/src/main/java/eu/popalexr/travel_recommendation/Controllers/TripProfileController.java:160-185 | the DTO has all seven keys; with no profile each maps to ""; otherwise each maps to the field's value, or "" where it is null |
| TripProfiles.DtoRoundTrip | Application/src/main/java/eu/popalexr/travel_recommendation/Controllers/TripProfileController.java:160-185 | for a profile in normal form, reading "" back as null recovers every field from its DTO |
| TripProfiles.NewProfileLooksMissing | Application/src/main/java/eu/popalexr/travel_recommendation/Controllers/TripProfileController.java:160-181 | a freshly created profile has the same DTO as no profile at all |
| TripProfileController.GetProfile | Application/src/main/java/eu/popalexr/travel_recommendation/Controllers/TripProfileController.java:96-117 | 401 without a user id, 404 for a chat the caller does not own, otherwise the DTO of the chat's stored profile or of no profile |
| TripProfileController.SaveProfile | Application/src/main/java/eu/popalexr/travel_recommendation/Controllers/TripProfileController.java:119-158 | a null body is refused before authentication, then 401 and 404 leave the table unchanged; otherwise the chat's profile, created when missing, gets every normalised request field and is stored and returned |
| TripProfileController.SaveKeepsWellFormed | Application/src/main/java/eu/popalexr/travel_recommendation/Controllers/TripProfileController.java:145-156 | saving keeps every profile under its own chat id and in normal form |
| TripProfileController.SaveOverwritesEveryField | Application/src/main/java/eu/popalexr/travel_recommendation/Controllers/TripProfileController.java:148-154 | the stored profile does not depend on what was stored before, and a field absent from the request is cleared |
| TripProfileController.SaveIsIdempotent | Application/src/main/java/eu/popalexr/travel_recommendation/Controllers/TripProfileController.java:119-158 | saving the same request twice gives the same response and table as saving it once |
| TripProfileController.SaveThenGet | Application/src/main/java/eu/popalexr/travel_recommendation/Controllers/TripProfileController.java:96-158 | after a successful save, reading shows each field as the request's value trimmed, or "" where it was null or blank |
| SettingsApi.FindById | Application/src/main/java/eu/popalexr/travel_recommendation/Controllers/SettingsApiController.java:151-157 | the index found holds a user with that id, and no user has the id when nothing is found |
| SettingsApi.UpdateProfile | Application/src/main/java/eu/popalexr/travel_recommendation/Controllers/SettingsApiController.java:72-108 | 400 for a null body, then 401 without a signed-in user, then 400 when a trimmed name is longer than 80; otherwise only the signed-in user's names change, to their trimmed-to-null values, and the response echoes them with the email |
| SettingsApi.PaddingDoesNotCount | Application/src/main/java/eu/popalexr/travel_recommendation/Controllers/SettingsApiController.java:89-98 | padding around a name of at most 80 characters never makes it too long, and the stored name is the unpadded one |
| SettingsApi.UpdatePassword | Application/src/main/java/eu/popalexr/travel_recommendation/Controllers/SettingsApiController.java:112-148 | 400 when a password is null or blank after trim, then 401, then 400 for a wrong current password, then 400 for a trimmed new password shorter than 8; the table changes only on success, and then only the user's hash changes, to the encoding of the trimmed new password |
| SettingsApi.WrongPasswordCheckedFirst | Application/src/main/java/eu/popalexr/travel_recommendation/Controllers/SettingsApiController.java:130-143 | a wrong current password is reported whatever the new password is, and nothing changes |
| SettingsApi.TypedPaddingIsLost | Application/src/main/java/eu/popalexr/travel_recommendation/Controllers/SettingsApiController.java:136-143 | with an encoder that verifies exactly its own hashes, a padded new password no longer matches as typed after the change, while its trimmed form does |
| SettingsApi.StoredEmailNormal | Application/src/main/java/eu/popalexr/travel_recommendation/Models/User.java:44 | an email as the entity stores it is its own normalised form |
| SettingsApi.ChangedPasswordSignsIn | Application/src/main/java/eu/popalexr/travel_recommendation/Controllers/SettingsApiController.java:136-143 | after a password change, with emails unique ignoring case, the user signs in with the stored email and the trimmed new password |
| Geocoding.GeocodeSingle | Application/src/main/java/eu/popalexr/travel_recommendation/Controllers/GeocodingController.java:103-147 | a result exactly for a reply with status below 400 whose first feature has a centre with at least two finite entries; it carries the query, longitude first then latitude, and the place name or, failing that, the query |
| Geocoding.NonBlank | Application/src/main/java/eu/popalexr/travel_recommendation/Controllers/GeocodingController.java:85-88 | the entries the loop considers are non-empty and trimmed, and there are no more of them than entries |
| Geocoding.Take | Application/src/main/java/eu/popalexr/travel_recommendation/Controllers/GeocodingController.java:82-84 | the first n elements, or all of them when there are fewer |
| Geocoding.Collect | Application/src/main/java/eu/popalexr/travel_recommendation/Controllers/GeocodingController.java:89-96 | one result at most per query, failed lookups left out |
| Geocoding.GeocodeAll | Application/src/main/java/eu/popalexr/travel_recommendation/Controllers/GeocodingController.java:79-98 | the loop returns exactly the results of the first eight trimmed non-blank entries, in order, so never more than eight |
| Geocoding.AttemptedStep | Application/src/main/java/eu/popalexr/travel_recommendation/Controllers/GeocodingController.java:81-98 | before the cap, one more entry adds its trimmed text to the queries sent, unless it is null or blank |
| Geocoding.NonBlankStep | Application/src/main/java/eu/popalexr/travel_recommendation/Controllers/GeocodingController.java:85-88 | one more entry adds its trimmed text to the considered entries unless it is null or blank |
| Geocoding.CollectStep | Application/src/main/java/eu/popalexr/travel_recommendation/Controllers/GeocodingController.java:89-96 | one more query adds its result, unless the lookup gives none |
| Geocoding.TakeSaturates | Application/src/main/java/eu/popalexr/travel_recommendation/Controllers/GeocodingController.java:82-84 | once eight queries were sent, the remaining entries add none |
| Geocoding.Geocode | Application/src/main/java/eu/popalexr/travel_recommendation/Controllers/GeocodingController.java:54-101 | 401 without a user id, then 500 without a non-blank Mapbox token, then 400 for a null body or a missing or empty list, and otherwise the results of the first eight trimmed non-blank entries |
| Geocoding.BlankEntryIgnored | Application/src/main/java/eu/popalexr/travel_recommendation/Controllers/GeocodingController.java:85-88 | a null or blank entry is neither sent nor counted |
| Geocoding.NonBlankConcat | Application/src/main/java/eu/popalexr/travel_recommendation/Controllers/GeocodingController.java:81-88 | the entries considered from a concatenation are those of each part, in order |
| Geocoding.FailuresCountTowardCap | Application/src/main/java/eu/popalexr/travel_recommendation/Controllers/GeocodingController.java:89-97 | a failed lookup still uses one of the eight attempts: after eight failing entries a ninth good one is never looked up |
| Geocoding.NonBlankOfTrimmed | Application/src/main/java/eu/popalexr/travel_recommendation/Controllers/GeocodingController.java:149-155 | a list of non-empty trimmed texts is considered as it is |
| Geocoding.AllFail | Application/src/main/java/eu/popalexr/travel_recommendation/Controllers/GeocodingController.java:89-96 | when every lookup fails, the result list is empty |
| Geocoding.ResultsAnswerQueries | Application/src/main/java/eu/popalexr/travel_recommendation/Controllers/GeocodingController.java:89-96 | every result carries one of the queries that were sent |
| LlmCommon.ExecuteChat | Application/src/main/java/eu/popalexr/travel_recommendation/Services/Impl/OpenAiChatServiceImpl.java:339-359 | a content node exactly for a reply with status below 400, and it is the reply's node; a failed send or parse and any status of 400 or more fail |
| LlmCommon.CompleteText | Application/src/main/java/eu/popalexr/travel_recommendation/Services/Impl/OpenAiChatServiceImpl.java:44-63 | a missing or blank key fails with the key error before any call; a failed call fails with the wrapped error; otherwise the node's text, or the fallback for JSON null |
| LlmCommon.ClampTitle | Application/src/main/java/eu/popalexr/travel_recommendation/Services/Impl/OpenAiChatServiceImpl.java:90-102 | the title is non-empty, trimmed and at most 60 characters; JSON null or a blank reply gives "New travel chat"; otherwise it is a prefix of the trimmed reply, cut at 60 or earlier with only trim characters dropped up to 60, and the whole trimmed reply when that fits |
| LlmCommon.TrimOfPrefix | Application/src/main/java/eu/popalexr/travel_recommendation/Services/Impl/OpenAiChatServiceImpl.java:96-98 | trimming the first n characters of a trimmed text gives a non-empty prefix of it, followed up to n only by trim characters |
| LlmCommon.ClampTitleIdempotent | Application/src/main/java/eu/popalexr/travel_recommendation/Services/Impl/OpenAiChatServiceImpl.java:95-102 | clamping a generated title again changes nothing |
| LlmCommon.GenerateTitle | Application/src/main/java/eu/popalexr/travel_recommendation/Services/Impl/OpenAiChatServiceImpl.java:66-106 | the key guard and call failures as for chat; a returned title is non-empty, trimmed and at most 60 characters, and the default one for JSON null |
| LlmCommon.ShortTitleKept | Application/src/main/java/eu/popalexr/travel_recommendation/Services/Impl/GroqChatServiceImpl.java:102-109 | a reply that is already a short trimmed title is returned unchanged |
| OpenAiService.ProfileContext | Application/src/main/java/eu/popalexr/travel_recommendation/Services/Impl/OpenAiChatServiceImpl.java:288-322 | no context exactly when there is no profile or every field is null or blank after trimming; otherwise the fixed header, then one line "Label: value" for each provided field and for no other, in the fixed order Destination to Constraints, then the fixed closing sentence |
| OpenAiService.ProvidedIn | Application/src/main/java/eu/popalexr/travel_recommendation/Services/Impl/OpenAiChatServiceImpl.java:301-319 | the provided fields of a list are exactly the fields of the list that are non-blank once normalised |
| OpenAiService.ProvidedInKeepsOrder | Application/src/main/java/eu/popalexr/travel_recommendation/Services/Impl/OpenAiChatServiceImpl.java:313-319 | keeping only the provided fields keeps them in the fixed field order, each at most once |
| OpenAiService.FieldLinesListProvided | Application/src/main/java/eu/popalexr/travel_recommendation/Services/Impl/OpenAiChatServiceImpl.java:313-329 | building the lines writes nothing for a null field and exactly one "Label: value" line, with the trimmed value, for each provided field, in list order |
| OpenAiService.LinesOccurInOrder | Application/src/main/java/eu/popalexr/travel_recommendation/Services/Impl/OpenAiChatServiceImpl.java:313-319 | the line of an earlier field occurs, in full, before the line of a later one |
| OpenAiService.ContextKeepsFieldOrder | Application/src/main/java/eu/popalexr/travel_recommendation/Services/Impl/OpenAiChatServiceImpl.java:313-319 | of two provided fields, the one earlier in the order Destination to Constraints is listed earlier in the context |
| OpenAiService.NothingProvidedIff | Application/src/main/java/eu/popalexr/travel_recommendation/Services/Impl/OpenAiChatServiceImpl.java:301-309 | the seven null checks hold together exactly when no field is provided |
| OpenAiService.LineOccursInLines | Application/src/main/java/eu/popalexr/travel_recommendation/Services/Impl/OpenAiChatServiceImpl.java:313-319 | the line of any listed field occurs in the lines built for the list |
| OpenAiService.ProvidedFieldIsListed | Application/src/main/java/eu/popalexr/travel_recommendation/Services/Impl/OpenAiChatServiceImpl.java:311-329 | every provided field appears in the context as its label, a colon, a space, its trimmed value and a newline |
| OpenAiService.AllFieldsListed | Application/src/main/java/eu/popalexr/travel_recommendation/Services/Impl/OpenAiChatServiceImpl.java:313-319 | every field appears in the fixed field order, so every provided field gets a line |
| OpenAiService.ContextOfStoredProfile | Application/src/main/java/eu/popalexr/travel_recommendation/Services/Impl/OpenAiChatServiceImpl.java:331-337 | for a stored profile, each non-null field appears in the context with its stored value |
| OpenAiService.HistoryMessages | Application/src/main/java/eu/popalexr/travel_recommendation/Services/Impl/OpenAiChatServiceImpl.java:192-204 | one message per non-null history entry, in order, with its role and its text or "" for null |
| OpenAiService.AppendHistory | Application/src/main/java/eu/popalexr/travel_recommendation/Services/Impl/OpenAiChatServiceImpl.java:192-204 | the loop appends exactly the history messages to those already in the request |
| OpenAiService.ChatRequest | Application/src/main/java/eu/popalexr/travel_recommendation/Services/Impl/OpenAiChatServiceImpl.java:156-190 | the system prompt first, then the profile context as a system message when there is one, then the history messages |
| OpenAiService.HistoryRolesKept | Application/src/main/java/eu/popalexr/travel_recommendation/Services/Impl/OpenAiChatServiceImpl.java:156-204 | only system messages precede the history, and each history message keeps the role of its entry |
| OpenAiService.Chat | Application/src/main/java/eu/popalexr/travel_recommendation/Services/Impl/OpenAiChatServiceImpl.java:44-63 | the key guard; a failed call fails; JSON null gives the fixed no-content reply; otherwise the node's text |
| OpenAiService.ExtractPdfText | Application/src/main/java/eu/popalexr/travel_recommendation/Services/Impl/OpenAiChatServiceImpl.java:415-437 | fixed messages for empty bytes, an unreadable PDF, a null text and a blank text; otherwise the prefix followed by the first 8000 characters of the trimmed text |
| OpenAiService.ShortPdfTextKept | Application/src/main/java/eu/popalexr/travel_recommendation/Services/Impl/OpenAiChatServiceImpl.java:426-433 | a trimmed text within 8000 characters is passed on whole after the prefix |
| OpenAiService.DocumentBlock | Application/src/main/java/eu/popalexr/travel_recommendation/Services/Impl/OpenAiChatServiceImpl.java:388-405 | an image data URL at high detail for a content type starting with "image/", the PDF text for "application/pdf" in any case, and otherwise the Base64 payload under an "unknown file type" label |
| OpenAiService.SafeName | Application/src/main/java/eu/popalexr/travel_recommendation/Services/Impl/OpenAiChatServiceImpl.java:217 | the file name when it is non-null and not blank, otherwise "document"; never blank |
| OpenAiService.AnalysisRequest | Application/src/main/java/eu/popalexr/travel_recommendation/Services/Impl/OpenAiChatServiceImpl.java:361-406 | the kind's system prompt, then the history messages, then one user message of two parts whose second is the document block |
| OpenAiService.Analyze | Application/src/main/java/eu/popalexr/travel_recommendation/Services/Impl/OpenAiChatServiceImpl.java:109-154 | the key guard; a failed call fails; JSON null gives "The document could not be interpreted."; otherwise the node's text |
| OpenAiService.ExtractItineraryJson | Application/src/main/java/eu/popalexr/travel_recommendation/Services/Impl/OpenAiChatServiceImpl.java:237-286 | an itinerary exactly when the response is non-blank, the key is configured, the reply cleans to a non-blank text, and that text parses to JSON whose days are not an empty array, the itinerary being the re-serialised JSON; a null or blank response, a missing key, a failed call, a JSON-null reply, a stripper exception, a blank cleaned text, a parse failure and an empty days array all give null |
| OpenAiService.CleanedItinerary | Application/src/main/java/eu/popalexr/travel_recommendation/Services/Impl/OpenAiChatServiceImpl.java:267-275 | the text handed to the parser is the json-fence-stripped reply; there is none when the call fails, the reply is JSON null, the stripper throws, or only blanks remain |
| OpenAiService.ShortFenceYieldsNull | Application/src/main/java/eu/popalexr/travel_recommendation/Services/Impl/OpenAiChatServiceImpl.java:439-452 | a reply that trims to a fence too short to hold two makes the stripper throw, and the extraction gives null |
| OpenAiService.EmptyDaysYieldNull | Application/src/main/java/eu/popalexr/travel_recommendation/Services/Impl/OpenAiChatServiceImpl.java:277-281 | an itinerary with an empty days array gives null |
| OpenAiService.JsonBlockItineraryFound | Application/src/main/java/eu/popalexr/travel_recommendation/Services/Impl/OpenAiChatServiceImpl.java:272-282 | a json-tagged block around a parsable itinerary with days is returned as the parser re-serialises it |
| GroqService.GroqHistory | Application/src/main/java/eu/popalexr/travel_recommendation/Services/Impl/GroqChatServiceImpl.java:48-57 | one message per non-null history entry, in order, with its role and its text, null kept |
| GroqService.GroqRequest | Application/src/main/java/eu/popalexr/travel_recommendation/Services/Impl/GroqChatServiceImpl.java:45-57 | the fixed system prompt followed by the history messages |
| GroqService.GroqChat | Application/src/main/java/eu/popalexr/travel_recommendation/Services/Impl/GroqChatServiceImpl.java:38-68 | the key guard; a failed call fails; JSON null gives the fixed no-content reply; otherwise the node's text |
| GroqService.HistoryDiffersOnlyInNullText | Application/src/main/java/eu/popalexr/travel_recommendation/Services/Impl/GroqChatServiceImpl.java:53-55 | the two clients send the same history message for each entry, except that a null text goes to Groq as JSON null and to OpenAI as "" |
| GroqService.SameRequestWhenTextsPresent | Application/src/main/java/eu/popalexr/travel_recommendation/Services/Impl/GroqChatServiceImpl.java:45-57 | without a trip profile and with every text present, the two clients send the same messages after the system prompt |
| CodeFences.SpacesAreTrimChars | Application/src/main/java/eu/popalexr/travel_recommendation/Controllers/ChatController.java:45-46 | every regex space is a character trim removes |
| CodeFences.WordRun | Application/src/main/java/eu/popalexr/travel_recommendation/Controllers/ChatController.java:45-46 | the longest run of word characters from a position: all word characters, and not extendable |
| CodeFences.SpaceRun | Application/src/main/java/eu/popalexr/travel_recommendation/Controllers/ChatController.java:45-46 | the longest run of regex spaces from a position: all spaces, and not extendable |
| CodeFences.TrailingSpaceRun | Application/src/main/java/eu/popalexr/travel_recommendation/Controllers/ChatController.java:45-46 | the longest run of regex spaces ending at a position: all spaces, and not extendable to the left |
| CodeFences.FenceTests | Application/src/main/java/eu/popalexr/travel_recommendation/Controllers/ChatController.java:45-46 | the character-wise fence tests agree with startsWith and endsWith of a fence |
| CodeFences.EngineMatch | Application/src/main/java/eu/popalexr/travel_recommendation/Controllers/ChatController.java:997-999 | every fenced text has a match with the engine's preferences |
| CodeFences.MatchIsFenced | Application/src/main/java/eu/popalexr/travel_recommendation/Controllers/ChatController.java:45-46 | only a text at least two fences long that starts and ends with one can match the pattern |
| CodeFences.EngineMatchUnique | Application/src/main/java/eu/popalexr/travel_recommendation/Controllers/ChatController.java:997-999 | the engine's preferences (greedy tag, greedy spaces, lazy group) leave exactly one match |
| CodeFences.TagIsGreedy | Application/src/main/java/eu/popalexr/travel_recommendation/Controllers/ChatController.java:45-46 | the tag the engine takes is the longest run of word characters after the opening fence |
| CodeFences.LeadingSpacesAreGreedy | Application/src/main/java/eu/popalexr/travel_recommendation/Controllers/ChatController.java:45-46 | after the tag the engine takes every regex space before group 1 |
| CodeFences.GroupIsLazy | Application/src/main/java/eu/popalexr/travel_recommendation/Controllers/ChatController.java:45-46 | group 1 stops before the trailing spaces that precede the closing fence |
| CodeFences.WordRunExact | Application/src/main/java/eu/popalexr/travel_recommendation/Controllers/ChatController.java:45-46 | a word run that cannot be extended is the greedy one |
| CodeFences.SpaceRunExact | Application/src/main/java/eu/popalexr/travel_recommendation/Controllers/ChatController.java:45-46 | a space run that cannot be extended is the greedy one |
| CodeFences.TrailingSpaceRunExact | Application/src/main/java/eu/popalexr/travel_recommendation/Controllers/ChatController.java:45-46 | a trailing space run that cannot be extended is the greedy one |
| CodeFences.GroupTrimsToBody | Application/src/main/java/eu/popalexr/travel_recommendation/Controllers/ChatController.java:997-999 | group 1, trimmed, is the text between the greedy tag and the closing fence, trimmed |
| CodeFences.StripCodeFences | Application/src/main/java/eu/popalexr/travel_recommendation/Controllers/ChatController.java:989-1002 | null stays null; a blank reply becomes ""; a reply whose trimmed text is fenced becomes the trimmed text after the tag, at least six characters shorter; anything else is returned as given, untrimmed |
| CodeFences.StripChangesOnlyToTrimmed | Application/src/main/java/eu/popalexr/travel_recommendation/Controllers/ChatController.java:989-1002 | whatever the stripper changes comes out trimmed |
| CodeFences.StripIdempotentUnlessNested | Application/src/main/java/eu/popalexr/travel_recommendation/Controllers/ChatController.java:989-1002 | stripping again changes nothing unless the first pass uncovered another whole fence |
| CodeFences.StripTaggedFence | Application/src/main/java/eu/popalexr/travel_recommendation/Controllers/ChatController.java:989-1002 | a fence, a word tag, a rest that does not continue the tag and a closing fence become the rest, trimmed |
| CodeFences.TaggedFenceBody | Application/src/main/java/eu/popalexr/travel_recommendation/Controllers/ChatController.java:45-46 | such a text is fenced and trimmed, and its body is the rest after the tag |
| CodeFences.WrappedIsFenced | Application/src/main/java/eu/popalexr/travel_recommendation/Controllers/ChatController.java:45-46 | wrapping any text in fences gives a trimmed fenced text |
| CodeFences.FencedAlwaysChanges | Application/src/main/java/eu/popalexr/travel_recommendation/Controllers/ChatController.java:989-1002 | a reply whose trimmed text is fenced always changes |
| CodeFences.NestedFencePeelsOneLayer | Application/src/main/java/eu/popalexr/travel_recommendation/Controllers/ChatController.java:989-1002 | a fence nested directly in a fence loses one layer per call, so stripping is not idempotent on such replies |
| CodeFences.StripFencedTo | Application/src/main/java/eu/popalexr/travel_recommendation/Controllers/ChatController.java:989-1002 | a tagged fence strips to the trimmed rest, stated for any spelling of the same text |
| CodeFences.TaggedBlockStripsToText | Application/src/main/java/eu/popalexr/travel_recommendation/Controllers/ChatController.java:989-1002 | a block written as fence and tag, newline, a trimmed text, newline, fence comes out as that text |
| CodeFences.StripJsonFences | Application/src/main/java/eu/popalexr/travel_recommendation/Services/Impl/OpenAiChatServiceImpl.java:439-452 | null stays null; a trimmed text of 3 to 5 characters that starts and ends with a fence throws; a text not fenced after trimming is returned as given; whatever changes comes out trimmed |
| CodeFences.StripJsonOfFenced | Application/src/main/java/eu/popalexr/travel_recommendation/Services/Impl/OpenAiChatServiceImpl.java:444-449 | on a fenced text the inside is trimmed and one leading "json" is dropped, then the rest is trimmed again |
| CodeFences.StripJsonFencedTo | Application/src/main/java/eu/popalexr/travel_recommendation/Services/Impl/OpenAiChatServiceImpl.java:444-449 | the same, stated for any spelling of the text |
| CodeFences.JsonBlockStripsToText | Application/src/main/java/eu/popalexr/travel_recommendation/Services/Impl/OpenAiChatServiceImpl.java:444-449 | on a json-tagged block the service gives the same text as the controller |
| CodeFences.JsonIsWord | Application/src/main/java/eu/popalexr/travel_recommendation/Controllers/ChatController.java:45-46 | "json" is a tag the controller's pattern accepts |
| CodeFences.JsonLineStrips | Application/src/main/java/eu/popalexr/travel_recommendation/Services/Impl/OpenAiChatServiceImpl.java:446-448 | after "json" is cut off the first line, the trimmed remainder is the text |
| CodeFences.OtherTagSurvivesJsonStrip | Application/src/main/java/eu/popalexr/travel_recommendation/Services/Impl/OpenAiChatServiceImpl.java:444-451 | on a block with another tag not beginning with "j", the service keeps the tag as the first line, where the controller drops it |
| CodeFences.TaggedBodyTrims | Application/src/main/java/eu/popalexr/travel_recommendation/Services/Impl/OpenAiChatServiceImpl.java:445 | trimming the inside of a tagged block keeps the tag line and the text |
| CodeFences.BareFenceThrows | Application/src/main/java/eu/popalexr/travel_recommendation/Services/Impl/OpenAiChatServiceImpl.java:445 | a lone fence makes the service's substring throw |
| ChatModel.Compact | Application/src/main/java/eu/popalexr/travel_recommendation/Controllers/ChatController.java:971-975 | the messages present in a fetched list, in order: exactly the non-null entries, never more than the list's length |
| ChatModel.CompactConcat | Application/src/main/java/eu/popalexr/travel_recommendation/Controllers/ChatController.java:971-975 | the messages present in two consecutive parts of a list are those of the first part followed by those of the second |
| ChatModel.LastUserIndex | Application/src/main/java/eu/popalexr/travel_recommendation/Controllers/ChatController.java:954-965 | -1 exactly when no entry is a non-null user message (an empty list included); otherwise an index holding a user message with no user message after it |
| ChatModel.FindLastUserMessageIndex | Application/src/main/java/eu/popalexr/travel_recommendation/Controllers/ChatController.java:954-965 | the backwards scan returns the last user message's index as defined independently, and no later entry is a user message |
| ChatModel.DeleteMessagesAfterIndex | Application/src/main/java/eu/popalexr/travel_recommendation/Controllers/ChatController.java:967-977 | deletes nothing for a negative index; otherwise exactly the non-null messages after the index, the last one first |
| ChatModel.TruncationPartitionsHistory | Application/src/main/java/eu/popalexr/travel_recommendation/Controllers/ChatController.java:967-977 | the messages kept through the last user message and the messages deleted after it together are exactly the messages fetched, none lost or duplicated |
| ChatModel.MarkerPrefixShape | Application/src/main/java/eu/popalexr/travel_recommendation/Controllers/ChatController.java:359 | each upload's marker text begins with a word that lower-cases to the tag the upload check looks for, with no trimmed character at either end |
| ChatModel.UploadMarkerIsRecognised | Application/src/main/java/eu/popalexr/travel_recommendation/Controllers/ChatController.java:979-987 | every marker text an upload stores, whatever the file name (missing, empty or blank included), is recognised as an upload message |
| ChatModel.OtherInitialIsNoUpload | Application/src/main/java/eu/popalexr/travel_recommendation/Controllers/ChatController.java:979-987 | a text that, trimmed, begins with anything but u or U is never taken for an upload |
| ChatModel.ToMessageDto | Application/src/main/java/eu/popalexr/travel_recommendation/Controllers/ChatController.java:938-952 | the DTO keeps the id and role and an empty timestamp; an assistant's content is its text fence-stripped and any other role's the text verbatim; content is null exactly when the text is; the itinerary key is present exactly for a non-null, non-blank stored itinerary |
| ChatModel.AssistantDtoShowsStoredReply | Application/src/main/java/eu/popalexr/travel_recommendation/Controllers/ChatController.java:938-942 | a reply stored fence-stripped is shown unchanged unless the stripped reply is itself a fenced block |
| ChatController.Dtos | Application/src/main/java/eu/popalexr/travel_recommendation/Controllers/ChatController.java:929-936 | one DTO per message, in the same order |
| ChatController.CheckUpload | Application/src/main/java/eu/popalexr/travel_recommendation/Controllers/ChatController.java:305-332 | an upload passes exactly when the file is present, non-empty, a PDF or image, at most 10 MiB, and a user id is present; each failure gets its own message, in that order of precedence |
| ChatController.FileCheckedBeforeAuthentication | Application/src/main/java/eu/popalexr/travel_recommendation/Controllers/ChatController.java:305-332 | a refused file is answered with the same 400 whether or not the caller is signed in |
| ChatController.AcceptedUploadNeverFallsBack | Application/src/main/java/eu/popalexr/travel_recommendation/Controllers/ChatController.java:311-318 | a file the type check accepts is sent to the OpenAI model as an image or as extracted PDF text, never through the base64 fallback |
| ChatController.NewChatTitle | Application/src/main/java/eu/popalexr/travel_recommendation/Controllers/ChatController.java:369-378 | a new chat gets the generated title, or "New travel chat" when generation throws |
| ChatController.ResolveChat | Application/src/main/java/eu/popalexr/travel_recommendation/Controllers/ChatController.java:343-356 | without a chat id, a new untitled chat of the user; with one, the chat only if the user owns it |
| ChatController.StoreUpload | Application/src/main/java/eu/popalexr/travel_recommendation/Controllers/ChatController.java:358-378 | the marker is stored first and the analysis sees the chat's messages ending with it; a failed analysis answers 500 or 502 with only the marker stored; a returned analysis stores the fence-stripped reply, titles a new chat from the marker and the raw reply, and answers with both messages and the chat's title |
| ChatController.Upload | Application/src/main/java/eu/popalexr/travel_recommendation/Controllers/ChatController.java:299-399 | a refused check changes nothing; an unknown user gets 401 and a chat the user does not own 404, both storing nothing; otherwise the stored outcome above; whenever anything is stored, the file passed every check and the user exists |
| ChatController.UploadAsWritten | Application/src/main/java/eu/popalexr/travel_recommendation/Controllers/ChatController.java:380-398 | stores exactly what the corrected endpoint stores, but answers "Failed to process ..." with 502 whenever the answer would carry a null chat title |
| ChatController.FailedFirstUploadLeavesChatUntitled | Application/src/main/java/eu/popalexr/travel_recommendation/Controllers/ChatController.java:343-348 | a first upload whose analysis fails leaves the new chat saved without a title and only the marker stored |
| ChatController.UntitledChatUploadReportsFailure | Application/src/main/java/eu/popalexr/travel_recommendation/Controllers/ChatController.java:380-398 | a successful upload into an untitled chat stores both messages yet is answered with 502 as written; the corrected endpoint answers with the messages |
| ChatController.ReplyMessage | Application/src/main/java/eu/popalexr/travel_recommendation/Controllers/ChatController.java:731-734 | the stored reply is an assistant message holding the fence-stripped reply, with the itinerary extracted from that stored text |
| ChatController.Reply | Application/src/main/java/eu/popalexr/travel_recommendation/Controllers/ChatController.java:727-751 | the answer is a conversation exactly when the model returns; a missing key answers 500 and any other failure 502, with the kept messages still stored; a returned reply is appended to the kept messages and every stored message is answered |
| ChatController.EditGuard | Application/src/main/java/eu/popalexr/travel_recommendation/Controllers/ChatController.java:610-633 | the edit proceeds exactly when both ids and a non-blank message are given, the caller is signed in, and the chat is the caller's |
| ChatController.EditLatest | Application/src/main/java/eu/popalexr/travel_recommendation/Controllers/ChatController.java:605-684 | a refused guard, a chat without user messages, a message id other than the last user message's, or an upload marker leave the messages as they were with the matching 400/401/404; otherwise the last user message gets the trimmed text, everything after it is deleted, and the model is sent the messages through the edited one |
| ChatController.RegenerateGuard | Application/src/main/java/eu/popalexr/travel_recommendation/Controllers/ChatController.java:691-709 | regeneration proceeds exactly when a chat id is given, the caller is signed in and owns the chat; every refusal is a 400, 401 or 404 |
| ChatController.Regenerate | Application/src/main/java/eu/popalexr/travel_recommendation/Controllers/ChatController.java:686-752 | a refused guard, no user message, or an upload marker as the last user message leave the messages unchanged with the matching error; otherwise everything after the last user message is deleted and the model is sent the messages through it; a conversation answer implies all checks passed and the model returned |
| ChatController.FinalReply | Application/src/main/java/eu/popalexr/travel_recommendation/Controllers/ChatController.java:836-838 | the stored reply is never blank: the reply itself when non-null and non-blank, else the fixed no-content text |
| ChatController.StreamAssistantReply | Application/src/main/java/eu/popalexr/travel_recommendation/Controllers/ChatController.java:808-875 | a missing key while streaming stores nothing; any other streaming failure gets one plain retry whose missing key or failure stores nothing; otherwise exactly one non-blank assistant reply is stored with its itinerary, flagged as a fallback exactly when the retry produced it, a new chat is titled from the user text and the reply, and the done event carries the stored message and the chat's title |
| ChatController.FallbackOnlyAfterStreamFailure | Application/src/main/java/eu/popalexr/travel_recommendation/Controllers/ChatController.java:814-834 | when streaming does not fail with an ordinary error, the outcome does not depend on the plain chat call at all |
| ChatHistoryProperties.EditRewritesTail | Application/src/main/java/eu/popalexr/travel_recommendation/Controllers/ChatController.java:656-668 | after a successful edit the messages before the edited one are kept in order, the edited message keeps its id and gets the trimmed text, and exactly one assistant reply follows |
| ChatHistoryProperties.FailedEditStillTruncates | Application/src/main/java/eu/popalexr/travel_recommendation/Controllers/ChatController.java:656-683 | when the model call fails the edit is not undone: the edited text stays and every later message stays deleted |
| ChatHistoryProperties.RegenerateIsReply | Application/src/main/java/eu/popalexr/travel_recommendation/Controllers/ChatController.java:711-742 | a successful regeneration passed every check and is the reply step over the messages up to the last user message |
| ChatHistoryProperties.RegenerateDeletesOnlyTheTail | Application/src/main/java/eu/popalexr/travel_recommendation/Controllers/ChatController.java:727-734 | a successful regeneration keeps every message up to the last user message, which stays second to last, and deletes exactly the messages after it |
| ChatHistoryProperties.RegenerateAgainReplacesOnlyReply | Application/src/main/java/eu/popalexr/travel_recommendation/Controllers/ChatController.java:712-736 | regenerating again right after a regeneration succeeds too, keeps exactly the messages the first run kept, and both replies are the model's answer to the same prompt, the messages through the last user message, so the two runs send the same messages and their replies differ only in id |
| ChatHistoryProperties.RegenerateRuns | Application/src/main/java/eu/popalexr/travel_recommendation/Controllers/ChatController.java:727-734 | past every check and with a returned reply, the kept messages are followed by exactly the new reply |
| ChatHistoryProperties.UploadedIntoOwnedChat | Application/src/main/java/eu/popalexr/travel_recommendation/Controllers/ChatController.java:358-367 | a successful upload into an existing chat stores a user message recognised as an upload marker, then a non-user reply |
| ChatHistoryProperties.UploadBlocksRegenerate | Application/src/main/java/eu/popalexr/travel_recommendation/Controllers/ChatController.java:720-725 | right after a successful upload into a chat, regenerating that chat is refused as an uploaded document |
| ChatHistoryProperties.RegenerateRefusesUpload | Application/src/main/java/eu/popalexr/travel_recommendation/Controllers/ChatController.java:720-725 | a chat of the caller whose last user message is an upload marker is refused regeneration |
| ChatHistoryProperties.EditedTextIsLastPrompt | Application/src/main/java/eu/popalexr/travel_recommendation/Controllers/ChatController.java:656-663 | with the OpenAI client the last message the model is sent is the user's trimmed edited text |

## Left out

- HTTP, JSON and server-sent events: status codes and bodies are datatypes; the SSE emitter, its delta and warning events, and the asynchronous task that runs the stream are not modelled, only the stored outcome of `streamAssistantReply`.
- The `chat` and `chatStream` endpoints' own request handling, `getChatMessages` and `deleteChat`: only the parts they share with the modelled flows (the message DTO, the last-user scan, the streamed reply) are modelled.
- The language model, Mapbox, PDFBox, Base64 and the JSON parser are parameters. In particular `ChatController.Services.chat` is a function of the messages and the profile, so two calls with the same history give the same answer.
- Password hashing and JWT signing and verification (RFC 7519, RFC 7515) are parameters; only what the code does with their results is modelled.
- Time is an integer instant supplied by the caller; `LocalDateTime.now()` and the persistence timestamps are left out.
- Character handling: strings are sequences of Unicode scalar values, not UTF-16 code units, and case mapping covers ASCII only, not Java's locale-sensitive `toLowerCase`.
- Doubles in geocoding are reals with an explicit NaN; floating-point rounding is not modelled.
- A null history list and a null cookie value are not modelled; null entries inside a history and a null cookie array are.
- `GroqChatController` is a superseded variant on the same routes and is not part of this model; the `OpenAiChatService` interface is modelled through the implementation's methods.
- Inertia page controllers, `WebConfig`, `RestExceptionHandler` and Bean Validation annotations are framework behaviour and are not modelled.
- `ChatMessage.java` as it stands has no itinerary field, yet the controller reads and writes one; the model gives stored messages that field, following the controller.
- The wording of the fixed system prompts is not modelled; only where they appear in the request is.
- Dashboard.Filter: its own contract states which elements the query returns and not their order; that the query keeps the table's order is proved separately, for any strictly increasing key, by `Dashboard.FilterKeepsOrder`, and used by `ChatMessages`, `UserChatsNewestFirst` and `ShowsNewestChat`.
- Persistence failures of the repository itself (a `save` or `delete` that throws) are not modelled; the model follows the paths where storage succeeds.

## Findings

| source | as written | input that shows it | evidently intended | confidence | as-written member | corrected member |
|---|---|---|---|---|---|---|
| Application/src/main/java/eu/popalexr/travel_recommendation/Controllers/ChatController.java:380-398 | the upload answer is built with `Map.of(..., "chatTitle", chat.getTitle(), ...)`, which throws on a null title; the catch-all then answers 502 "Failed to process ..." although the marker and the reply are already stored (the same in the accommodation and document uploads at lines 482-500 and 584-602) | a first upload whose analysis fails leaves its new chat saved with a null title; a later successful upload into that chat stores both messages and is still answered with 502 | answer the stored messages with a null `chatTitle`, as the streamed reply does through a `HashMap` | not executed | ChatController.UploadAsWritten | ChatController.Upload |
