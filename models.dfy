/**
 * The wire-facing shapes (DTOs) and the declarative validation attributes on
 * the two point-of-interest input DTOs, read as functions that add errors to
 * an MVC `ModelStateDictionary`.
 */
module Models {
  import opened Options
  import opened Text

  /**
   * `ModelStateDictionary`, reduced to what the handlers use: each key with at
   * least one error maps to its error messages in the order they were added.
   * A key without errors is absent, so the state is valid exactly when empty.
   */
  type ModelState = map<string, seq<string>>

  predicate IsValid(ms: ModelState) {
    ms == map[]
  }

  function MessagesFor(ms: ModelState, key: string): seq<string> {
    if key in ms then ms[key] else []
  }

  /** `ModelState.AddModelError(key, message)`. */
  function AddModelError(ms: ModelState, key: string, message: string): (r: ModelState)
    ensures r.Keys == ms.Keys + {key}
    ensures MessagesFor(r, key) == MessagesFor(ms, key) + [message]
    ensures forall k :: k != key ==> MessagesFor(r, k) == MessagesFor(ms, k)
    ensures !IsValid(r)
  {
    ms[key := MessagesFor(ms, key) + [message]]
  }

  // ---------------------------------------------------------------------------
  // Data annotation attributes on string properties.
  // ---------------------------------------------------------------------------

  /** `[Required]` on a string: fails for null, empty and all-white-space text. */
  predicate RequiredHolds(value: Option<string>) {
    !IsNullOrWhiteSpace(value)
  }

  /** `[MaxLength(max)]` on a string: null passes; otherwise the UTF-16 length is bounded. */
  predicate MaxLengthHolds(value: Option<string>, max: nat) {
    value.None? || Utf16Length(value.value) <= max
  }

  function CheckRequired(ms: ModelState, key: string, value: Option<string>, message: string): ModelState {
    if RequiredHolds(value) then ms else AddModelError(ms, key, message)
  }

  function CheckMaxLength(ms: ModelState, key: string, value: Option<string>, max: nat, message: string): ModelState {
    if MaxLengthHolds(value, max) then ms else AddModelError(ms, key, message)
  }

  /** The message `MaxLengthAttribute` uses when none is given. */
  function DefaultMaxLengthMessage(field: string, max: nat): string {
    "The field " + field + " must be a string or array type with a maximum length of '" + NatToString(max) + "'."
  }

  const NameMaxLength: nat := 50
  const DescriptionMaxLength: nat := 200

  const NameRequiredMessage := "You must provide a name value"
  const NameMaxLengthMessage := "Name value is longer then max length of 50 characters"
  /** The creation DTO's description message says "Name" (a slip in the source). */
  const CreationDescriptionMaxLengthMessage := "Name value is longer then max length of 200 characters"

  /**
   * The (Name, Description) pairs that pass the attributes of both input DTOs:
   * a name that is present, not blank and at most 50 UTF-16 units, and a
   * description that is absent or at most 200 units.
   */
  predicate AcceptablePoint(name: Option<string>, description: Option<string>) {
    && name.Some?
    && !IsNullOrWhiteSpace(name)
    && Utf16Length(name.value) <= NameMaxLength
    && (description.Some? ==> Utf16Length(description.value) <= DescriptionMaxLength)
  }

  /** `[Required]` holds exactly for present text with a character that is not white space. */
  lemma RequiredMeansNonBlank(value: Option<string>)
    ensures RequiredHolds(value) <==>
              value.Some? && exists i :: 0 <= i < |value.value| && !IsWhiteSpace(value.value[i])
  {
  }

  /**
   * `[MaxLength(max)]` counts UTF-16 units: text of at most `max / 2`
   * characters always passes, and text of more than `max` characters never does.
   */
  lemma MaxLengthByCharacters(value: string, max: nat)
    ensures 2 * |value| <= max ==> MaxLengthHolds(Some(value), max)
    ensures |value| > max ==> !MaxLengthHolds(Some(value), max)
  {
    Utf16LengthBounds(value);
  }

  /** A point is acceptable exactly when each of its three attributes holds. */
  lemma AcceptablePointByAttributes(name: Option<string>, description: Option<string>)
    ensures AcceptablePoint(name, description) <==>
              RequiredHolds(name) && MaxLengthHolds(name, NameMaxLength) && MaxLengthHolds(description, DescriptionMaxLength)
  {
  }

  /** Short texts whose name starts with a visible character make an acceptable point. */
  lemma ShortTextsAcceptable(name: string, description: string)
    requires 0 < |name| && 2 * |name| <= NameMaxLength && !IsWhiteSpace(name[0])
    requires 2 * |description| <= DescriptionMaxLength
    ensures AcceptablePoint(Some(name), Some(description))
  {
    MaxLengthByCharacters(name, NameMaxLength);
    MaxLengthByCharacters(description, DescriptionMaxLength);
  }

  // ---------------------------------------------------------------------------
  // Input DTOs.
  // ---------------------------------------------------------------------------

  datatype PointOfInterestForCreationDto = PointOfInterestForCreationDto(name: Option<string>, description: Option<string>)

  datatype PointOfInterestForUpdateDto = PointOfInterestForUpdateDto(name: Option<string>, description: Option<string>)

  /** Only the cross-field rule of the city handler is known for this DTO. */
  datatype CityForCreationDto = CityForCreationDto(name: Option<string>, description: Option<string>)

  /**
   * Validation of a `PointOfInterestForCreationDto` (run by model binding):
   * Name is `[Required]` and `[MaxLength(50)]`, Description `[MaxLength(200)]`,
   * each with the messages the source gives.
   */
  function ValidateCreationDto(ms: ModelState, dto: PointOfInterestForCreationDto): (r: ModelState)
    ensures r.Keys <= ms.Keys + {"Name", "Description"}
    ensures r == ms <==> AcceptablePoint(dto.name, dto.description)
    ensures IsValid(r) <==> IsValid(ms) && AcceptablePoint(dto.name, dto.description)
    ensures dto.name.None? ==> MessagesFor(r, "Name") == MessagesFor(ms, "Name") + [NameRequiredMessage]
    ensures MessagesFor(r, "Description") ==
              MessagesFor(ms, "Description")
              + (if MaxLengthHolds(dto.description, DescriptionMaxLength) then [] else [CreationDescriptionMaxLengthMessage])
    ensures forall k :: k != "Name" && k != "Description" ==> MessagesFor(r, k) == MessagesFor(ms, k)
  {
    var ms1 := CheckRequired(ms, "Name", dto.name, NameRequiredMessage);
    var ms2 := CheckMaxLength(ms1, "Name", dto.name, NameMaxLength, NameMaxLengthMessage);
    var r := CheckMaxLength(ms2, "Description", dto.description, DescriptionMaxLength, CreationDescriptionMaxLengthMessage);
    assert r == ms ==> ms1 == ms && ms2 == ms1 by {
      if ms1 != ms { assert |MessagesFor(r, "Name")| > |MessagesFor(ms, "Name")|; }
      else if ms2 != ms1 { assert |MessagesFor(r, "Name")| > |MessagesFor(ms, "Name")|; }
    }
    r
  }

  /** The messages the update DTO's Name attributes give, in the order they run. */
  function UpdateNameMessages(name: Option<string>): seq<string> {
    (if RequiredHolds(name) then [] else [NameRequiredMessage])
    + (if MaxLengthHolds(name, NameMaxLength) then [] else [NameMaxLengthMessage])
  }

  /** The message the update DTO's Description attribute gives, if any. */
  function UpdateDescriptionMessages(description: Option<string>): seq<string> {
    if MaxLengthHolds(description, DescriptionMaxLength) then []
    else [DefaultMaxLengthMessage("Description", DescriptionMaxLength)]
  }

  /** The update DTO's Name attributes, `[Required]` then `[MaxLength(50)]`. */
  function CheckUpdateName(ms: ModelState, name: Option<string>): (r: ModelState)
    ensures ms.Keys <= r.Keys <= ms.Keys + {"Name"}
    ensures forall k :: k != "Name" ==> MessagesFor(r, k) == MessagesFor(ms, k)
    ensures r == ms <==> RequiredHolds(name) && MaxLengthHolds(name, NameMaxLength)
    ensures MessagesFor(r, "Name") == MessagesFor(ms, "Name") + UpdateNameMessages(name)
  {
    var required := CheckRequired(ms, "Name", name, NameRequiredMessage);
    var r := CheckMaxLength(required, "Name", name, NameMaxLength, NameMaxLengthMessage);
    assert r == ms ==> required == ms by {
      if required != ms { assert |MessagesFor(r, "Name")| > |MessagesFor(ms, "Name")|; }
    }
    r
  }

  /** The update DTO's Description attribute, `[MaxLength(200)]` with the default message. */
  function CheckUpdateDescription(ms: ModelState, description: Option<string>): (r: ModelState)
    ensures ms.Keys <= r.Keys <= ms.Keys + {"Description"}
    ensures forall k :: k != "Description" ==> MessagesFor(r, k) == MessagesFor(ms, k)
    ensures MessagesFor(r, "Description") == MessagesFor(ms, "Description") + UpdateDescriptionMessages(description)
  {
    CheckMaxLength(ms, "Description", description, DescriptionMaxLength, DefaultMaxLengthMessage("Description", DescriptionMaxLength))
  }

  /**
   * Validation of a `PointOfInterestForUpdateDto` (model binding for PUT,
   * `TryValidateModel` for PATCH): the same attributes, but Description keeps
   * the default `MaxLength` message.
   */
  function ValidateUpdateDto(ms: ModelState, dto: PointOfInterestForUpdateDto): (r: ModelState)
    ensures r.Keys <= ms.Keys + {"Name", "Description"}
    ensures r == ms <==> AcceptablePoint(dto.name, dto.description)
    ensures IsValid(r) <==> IsValid(ms) && AcceptablePoint(dto.name, dto.description)
    ensures MessagesFor(r, "Name") == MessagesFor(ms, "Name") + UpdateNameMessages(dto.name)
    ensures dto.name.None? ==> MessagesFor(r, "Name") == MessagesFor(ms, "Name") + [NameRequiredMessage]
    ensures MessagesFor(r, "Description") == MessagesFor(ms, "Description") + UpdateDescriptionMessages(dto.description)
    ensures forall k :: k != "Name" && k != "Description" ==> MessagesFor(r, k) == MessagesFor(ms, k)
  {
    CheckUpdateDescription(CheckUpdateName(ms, dto.name), dto.description)
  }

  /**
   * `TryValidateModel` on an update DTO whose model state may already hold
   * errors: MVC's validation visitor runs a property's attributes only while
   * that property's key has no error, so a key that is already invalid keeps
   * exactly the messages it had.
   */
  function TryValidateUpdateDto(ms: ModelState, dto: PointOfInterestForUpdateDto): (r: ModelState)
    ensures IsValid(ms) ==> r == ValidateUpdateDto(ms, dto)
    ensures IsValid(r) <==> IsValid(ms) && AcceptablePoint(dto.name, dto.description)
    ensures AcceptablePoint(dto.name, dto.description) ==> r == ms
    ensures r.Keys <= ms.Keys + {"Name", "Description"}
  {
    var named := if "Name" in ms then ms else CheckUpdateName(ms, dto.name);
    if "Description" in ms then named else CheckUpdateDescription(named, dto.description)
  }

  /**
   * What `TryValidateUpdateDto` reports under each key: a key that already
   * had errors keeps exactly those, a key without errors gets the messages
   * the DTO's attributes give, and every other key is untouched.
   */
  lemma TryValidateUpdateMessages(ms: ModelState, dto: PointOfInterestForUpdateDto)
    ensures var r := TryValidateUpdateDto(ms, dto);
            && ("Name" in ms ==> MessagesFor(r, "Name") == ms["Name"])
            && ("Name" !in ms ==> MessagesFor(r, "Name") == UpdateNameMessages(dto.name))
            && ("Description" in ms ==> MessagesFor(r, "Description") == ms["Description"])
            && ("Description" !in ms ==> MessagesFor(r, "Description") == UpdateDescriptionMessages(dto.description))
            && (forall k :: k != "Name" && k != "Description" ==> MessagesFor(r, k) == MessagesFor(ms, k))
  {
    var named := if "Name" in ms then ms else CheckUpdateName(ms, dto.name);
    assert MessagesFor(named, "Description") == MessagesFor(ms, "Description");
    assert "Name" in ms ==> MessagesFor(named, "Name") == ms["Name"];
  }

  /**
   * The two input DTOs accept exactly the same (Name, Description) pairs, and
   * report a failure under the same keys; only the Description message differs.
   */
  lemma CreationAndUpdateAgree(ms: ModelState, name: Option<string>, description: Option<string>)
    ensures var c := ValidateCreationDto(ms, PointOfInterestForCreationDto(name, description));
            var u := ValidateUpdateDto(ms, PointOfInterestForUpdateDto(name, description));
            && (c == ms <==> u == ms)
            && c.Keys == u.Keys
            && MessagesFor(c, "Name") == MessagesFor(u, "Name")
  {
  }

  // ---------------------------------------------------------------------------
  // Output DTOs (shapes inferred from the AutoMapper maps).
  // ---------------------------------------------------------------------------

  datatype PointOfInterestDto = PointOfInterestDto(id: int, name: Option<string>, description: Option<string>)

  datatype CityWithoutPointsOfInterestDto = CityWithoutPointsOfInterestDto(id: int, name: Option<string>, description: Option<string>)

  datatype CityDto = CityDto(id: int, name: Option<string>, description: Option<string>, pointsOfInterest: seq<PointOfInterestDto>)
}
