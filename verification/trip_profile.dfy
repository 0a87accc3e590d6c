/**
 * The trip profile attached to a chat: seven optional text fields that are
 * always stored in normal form (trimmed, with blank meaning absent), and a
 * binding to exactly one chat.
 */
module TripProfiles {
  import opened Wrappers
  import opened JavaStrings

  /** The seven profile fields, in the order the application lists them. */
  datatype Field = Destination | StartDate | EndDate | Budget | Travelers | Interests | Constraints

  const FieldOrder: seq<Field> := [Destination, StartDate, EndDate, Budget, Travelers, Interests, Constraints]

  /** Seven nullable strings, one per field: the stored profile and the request body alike. */
  datatype ProfileFields = ProfileFields(
    destination: Option<string>,
    startDate: Option<string>,
    endDate: Option<string>,
    budget: Option<string>,
    travelers: Option<string>,
    interests: Option<string>,
    constraints: Option<string>)

  /** The getter for one field. */
  function Get(p: ProfileFields, f: Field): Option<string> {
    match f
    case Destination => p.destination
    case StartDate => p.startDate
    case EndDate => p.endDate
    case Budget => p.budget
    case Travelers => p.travelers
    case Interests => p.interests
    case Constraints => p.constraints
  }

  const NoFields: ProfileFields := ProfileFields(None, None, None, None, None, None, None)

  datatype TripProfile = TripProfile(chatId: int, fields: ProfileFields)

  /** A field value as the setters store it: null, or non-empty and trimmed. */
  predicate IsNormal(v: Option<string>) {
    v.None? || (v.value != [] && IsTrimmed(v.value))
  }

  predicate Normalized(p: ProfileFields) {
    forall f: Field :: IsNormal(Get(p, f))
  }

  /** `TripProfile.create`: bound to the chat, every field null. */
  function Create(chatId: int): (p: TripProfile)
    ensures p.chatId == chatId
    ensures forall f: Field :: Get(p.fields, f).None?
    ensures Normalized(p.fields)
  {
    TripProfile(chatId, NoFields)
  }

  /**
   * The seven setters: each stores the trim-to-null form of its argument in
   * its own field.
   */
  function Set(p: TripProfile, f: Field, value: Option<string>): (q: TripProfile)
    ensures q.chatId == p.chatId
    ensures Get(q.fields, f) == TrimToNull(value)
    ensures forall g: Field :: g != f ==> Get(q.fields, g) == Get(p.fields, g)
  {
    var v := TrimToNull(value);
    var fs := p.fields;
    var updated :=
      match f
      case Destination => fs.(destination := v)
      case StartDate => fs.(startDate := v)
      case EndDate => fs.(endDate := v)
      case Budget => fs.(budget := v)
      case Travelers => fs.(travelers := v)
      case Interests => fs.(interests := v)
      case Constraints => fs.(constraints := v);
    TripProfile(p.chatId, updated)
  }

  /** Whatever a setter is given, the profile stays in normal form. */
  lemma SetKeepsNormalized(p: TripProfile, f: Field, value: Option<string>)
    requires Normalized(p.fields)
    ensures Normalized(Set(p, f, value).fields)
  {
    var q := Set(p, f, value);
    forall g: Field
      ensures IsNormal(Get(q.fields, g))
    {
      if g == f {
        assert IsNormal(TrimToNull(value));
      } else {
        assert IsNormal(Get(p.fields, g));
      }
    }
  }

  /** Setting a field to what its getter returns changes nothing. */
  lemma SetToCurrentIsNoOp(p: TripProfile, f: Field)
    requires Normalized(p.fields)
    ensures Set(p, f, Get(p.fields, f)) == p
  {
    assert IsNormal(Get(p.fields, f));
    TrimToNullFixedPoint(Get(p.fields, f));
    var q := Set(p, f, Get(p.fields, f));
    assert forall g: Field :: Get(q.fields, g) == Get(p.fields, g);
    FieldsEqual(q.fields, p.fields);
  }

  /** Two field records that agree on every getter are equal. */
  lemma FieldsEqual(a: ProfileFields, b: ProfileFields)
    requires forall f: Field :: Get(a, f) == Get(b, f)
    ensures a == b
  {
    assert Get(a, Destination) == Get(b, Destination);
    assert Get(a, StartDate) == Get(b, StartDate);
    assert Get(a, EndDate) == Get(b, EndDate);
    assert Get(a, Budget) == Get(b, Budget);
    assert Get(a, Travelers) == Get(b, Travelers);
    assert Get(a, Interests) == Get(b, Interests);
    assert Get(a, Constraints) == Get(b, Constraints);
  }

  /**
   * Overwriting every field from a request, through the setters in the
   * order the controller calls them.
   */
  function SetAll(p: TripProfile, request: ProfileFields): (q: TripProfile)
    ensures q.chatId == p.chatId
    ensures q.fields == NormalizeAll(request)
  {
    var p1 := Set(p, Destination, request.destination);
    var p2 := Set(p1, StartDate, request.startDate);
    var p3 := Set(p2, EndDate, request.endDate);
    var p4 := Set(p3, Budget, request.budget);
    var p5 := Set(p4, Travelers, request.travelers);
    var p6 := Set(p5, Interests, request.interests);
    Set(p6, Constraints, request.constraints)
  }

  /** Every field of a request in normal form. */
  function NormalizeAll(request: ProfileFields): (r: ProfileFields)
    ensures forall f: Field :: Get(r, f) == TrimToNull(Get(request, f))
    ensures Normalized(r)
  {
    var r := ProfileFields(
      TrimToNull(request.destination), TrimToNull(request.startDate), TrimToNull(request.endDate),
      TrimToNull(request.budget), TrimToNull(request.travelers), TrimToNull(request.interests),
      TrimToNull(request.constraints));
    assert forall f: Field :: Get(r, f) == TrimToNull(Get(request, f));
    r
  }

  // ---------------------------------------------------------------------
  // The profile DTO
  // ---------------------------------------------------------------------

  /** The JSON object of the profile endpoints: one string per field. */
  type ProfileDto = map<Field, string>

  const AllFields: set<Field> := {Destination, StartDate, EndDate, Budget, Travelers, Interests, Constraints}

  lemma AllFieldsComplete()
    ensures forall f: Field :: f in AllFields
  {
    forall f: Field
      ensures f in AllFields
    {
      match f
      case Destination =>
      case StartDate =>
      case EndDate =>
      case Budget =>
      case Travelers =>
      case Interests =>
      case Constraints =>
    }
  }

  /** `nullToEmpty`. */
  function NullToEmpty(v: Option<string>): string {
    v.GetOr([])
  }

  /**
   * `profileDto`: every key maps to "" for a missing profile; otherwise each
   * field's value, with null shown as "".
   */
  function ToProfileDto(p: Option<TripProfile>): (d: ProfileDto)
    ensures forall f: Field :: f in d
    ensures p.None? ==> forall f: Field :: d[f] == []
    ensures p.Some? ==> forall f: Field :: Get(p.value.fields, f).Some? ==> d[f] == Get(p.value.fields, f).value
    ensures p.Some? ==> forall f: Field :: Get(p.value.fields, f).None? ==> d[f] == []
  {
    AllFieldsComplete();
    if p.None? then map f | f in AllFields :: []
    else map f | f in AllFields :: NullToEmpty(Get(p.value.fields, f))
  }

  /** Reading a DTO back: "" is taken for an absent field. */
  function FromDtoValue(s: string): Option<string> {
    if s == [] then None else Some(s)
  }

  /**
   * A stored profile survives the trip through its DTO: since a stored
   * field is never empty, "" unambiguously means null.
   */
  lemma DtoRoundTrip(p: TripProfile, f: Field)
    requires Normalized(p.fields)
    ensures FromDtoValue(ToProfileDto(Some(p))[f]) == Get(p.fields, f)
  {
    assert IsNormal(Get(p.fields, f));
  }

  /** The DTO of a freshly created profile is the DTO of no profile at all. */
  lemma NewProfileLooksMissing(chatId: int)
    ensures ToProfileDto(Some(Create(chatId))) == ToProfileDto(None)
  {
  }
}
