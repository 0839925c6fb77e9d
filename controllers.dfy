/**
 * The two MVC controllers of the API: `PointsOfInterestController` (GET, POST,
 * PUT, PATCH and DELETE on `api/cities/{cityId}/pointsofinterest`) and
 * `CitiesController` (GET and POST on `api/cities`). Each handler is a
 * function (the reads) or a method (the writes) of its controller and returns
 * an `ActionResult`; the model state it builds and the patch working copy it
 * validates are the pure functions at the top of the module.
 */
module Controllers {
  import opened Options
  import opened Text
  import opened Sequences
  import opened Models
  import opened JsonPatch
  import opened Entities
  import opened Mapping
  import opened Store
  import opened Services

  /** The route a `CreatedAtRoute` result names: "GetCity" or "GetPointOfInterest". */
  datatype Location = CityRoute(id: int) | PointOfInterestRoute(cityId: int, id: int)

  /** The results the handlers return, with the status code each stands for. */
  datatype ActionResult<T> =
    | Ok(value: T)                          // 200
    | Created(location: Location, value: T) // 201
    | NoContent                             // 204
    | BadRequest(errors: Option<ModelState>) // 400, with or without the model state
    | NotFound                              // 404
    | ServerError(message: string)          // 500

  const CreateNameDiffersMessage := "Description value must be different from the name value."
  /** The update handlers spell the same rule's message differently. */
  const UpdateNameDiffersMessage := "Description value must be differen from the name value."

  const DeletionSubject := "Point of interest was deleted"

  /** The text C# string interpolation gives a string that may be null. */
  function Interpolated(s: Option<string>): string {
    if s.Some? then s.value else ""
  }

  /** `$"POI: {Name} with id {Id} was deleted"`. */
  function DeletionMessage(name: Option<string>, id: int): string {
    "POI: " + Interpolated(name) + " with id " + IntToString(id) + " was deleted"
  }

  /**
   * The deletion mail names the point: after "POI: " comes its name (empty
   * for a null name), and the text between " with id " and " was deleted"
   * reads back as its key.
   */
  lemma DeletionMessageNamesPoint(name: Option<string>, id: int)
    ensures var m := DeletionMessage(name, id);
            var n := Interpolated(name);
            var k := 5 + |n| + 9;
            && k < |m| - 12
            && m[..5] == "POI: " && m[5..5 + |n|] == n && m[k - 9..k] == " with id "
            && m[|m| - 12..] == " was deleted"
            && var digits := m[k..|m| - 12];
               && (digits[0] == '-' ==> |digits| > 1)
               && (forall i :: (if digits[0] == '-' then 1 else 0) <= i < |digits| ==> IsDigit(digits[i]))
               && ParseInt(digits) == id
  {
    var m := DeletionMessage(name, id);
    var n := Interpolated(name);
    var s := IntToString(id);
    IntToStringRoundTrip(id);
    var k := 5 + |n| + 9;
    assert m == "POI: " + n + " with id " + s + " was deleted";
    assert |m| == k + |s| + 12;
    assert m[..5] == "POI: ";
    assert m[5..5 + |n|] == n;
    assert m[k - 9..k] == " with id ";
    assert m[|m| - 12..] == " was deleted";
    assert m[k..|m| - 12] == s;
  }

  // ---------------------------------------------------------------------------
  // Model state of each write handler.
  // ---------------------------------------------------------------------------

  /**
   * The cross-field rule: a name equal to the description (two nulls
   * included, as C# `==` on strings has it) adds `message` under "Description".
   */
  function CheckNameDiffers(ms: ModelState, name: Option<string>, description: Option<string>, message: string)
    : (r: ModelState)
    ensures name != description ==> r == ms
    ensures r.Keys == ms.Keys + (if name == description then {"Description"} else {})
    ensures name == description ==> !IsValid(r)
    ensures MessagesFor(r, "Description")
              == MessagesFor(ms, "Description") + (if name == description then [message] else [])
    ensures forall k :: k != "Description" ==> MessagesFor(r, k) == MessagesFor(ms, k)
  {
    if name == description then AddModelError(ms, "Description", message) else ms
  }

  /**
   * The model state POST for a point checks: the creation DTO's attributes
   * (model binding), then the cross-field rule.
   */
  function CreationModelState(dto: PointOfInterestForCreationDto): (r: ModelState)
    ensures IsValid(r) <==> AcceptablePoint(dto.name, dto.description) && dto.name != dto.description
    ensures r.Keys <= {"Name", "Description"}
    ensures dto.name == dto.description ==>
              |MessagesFor(r, "Description")| > 0
              && MessagesFor(r, "Description")[|MessagesFor(r, "Description")| - 1] == CreateNameDiffersMessage
  {
    CheckNameDiffers(ValidateCreationDto(map[], dto), dto.name, dto.description, CreateNameDiffersMessage)
  }

  /** The model state PUT checks: the update DTO's attributes, then the cross-field rule. */
  function UpdateModelState(dto: PointOfInterestForUpdateDto): (r: ModelState)
    ensures IsValid(r) <==> AcceptablePoint(dto.name, dto.description) && dto.name != dto.description
    ensures r.Keys <= {"Name", "Description"}
    ensures dto.name == dto.description ==>
              |MessagesFor(r, "Description")| > 0
              && MessagesFor(r, "Description")[|MessagesFor(r, "Description")| - 1] == UpdateNameDiffersMessage
  {
    CheckNameDiffers(ValidateUpdateDto(map[], dto), dto.name, dto.description, UpdateNameDiffersMessage)
  }

  /**
   * The model state POST for a city checks. The attributes of
   * `CityForCreationDto` are not part of this model, so only the
   * cross-field rule can fail.
   */
  function CityModelState(dto: CityForCreationDto): (r: ModelState)
    ensures IsValid(r) <==> dto.name != dto.description
    ensures !IsValid(r) ==> r == map["Description" := [CreateNameDiffersMessage]]
  {
    var r := CheckNameDiffers(map[], dto.name, dto.description, CreateNameDiffersMessage);
    assert !IsValid(r) ==> r.Keys == {"Description"} && r["Description"] == [CreateNameDiffersMessage] by {
      assert MessagesFor(map[], "Description") == [];
    }
    r
  }

  /** What PATCH makes of its working copy: the errors it stops at, or the copy to write back. */
  datatype PatchOutcome = Rejected(errors: ModelState) | Accepted(patched: PointOfInterestForUpdateDto)

  /**
   * PATCH on the working copy: apply the document and stop on a path error;
   * otherwise check the cross-field rule and the update DTO's attributes on
   * the patched copy and stop on any error. The copy is accepted exactly when
   * every path names a property and the values the patch leaves (the last
   * written to each property) pass both checks.
   */
  function PatchWorkingCopy(patch: PatchDocument, copy: PointOfInterestForUpdateDto): (r: PatchOutcome)
    ensures var name := FinalValue(patch, NameProperty, copy.name);
            var description := FinalValue(patch, DescriptionProperty, copy.description);
            && (r.Accepted? <==> AllTargetsExist(patch) && AcceptablePoint(name, description) && name != description)
            && (r.Accepted? ==> r.patched == PointOfInterestForUpdateDto(name, description))
    ensures r.Rejected? ==> !IsValid(r.errors)
    ensures !AllTargetsExist(patch) ==> r.Rejected? && r.errors.Keys == {PatchErrorKey}
  {
    ApplyToLastWriteWins(patch, copy, map[]);
    var (patched, applied) := ApplyTo(patch, copy, map[]);
    if !IsValid(applied) then Rejected(applied)
    else
      var checked := TryValidateUpdateDto(CheckNameDiffers(applied, patched.name, patched.description, UpdateNameDiffersMessage), patched);
      if !IsValid(checked) then Rejected(checked) else Accepted(patched)
  }

  /**
   * The errors PATCH reports when the patched name equals the patched
   * description: Description carries only the cross-field message, because
   * `TryValidateModel` skips the attributes of a key that already has an
   * error, and Name carries what its own attributes give.
   */
  lemma PatchEqualValuesMessages(patch: PatchDocument, copy: PointOfInterestForUpdateDto)
    requires AllTargetsExist(patch)
    requires FinalValue(patch, NameProperty, copy.name) == FinalValue(patch, DescriptionProperty, copy.description)
    ensures var name := FinalValue(patch, NameProperty, copy.name);
            var r := PatchWorkingCopy(patch, copy);
            && r.Rejected?
            && r.errors.Keys <= {"Name", "Description"}
            && MessagesFor(r.errors, "Description") == [UpdateNameDiffersMessage]
            && MessagesFor(r.errors, "Name") == UpdateNameMessages(name)
  {
    ApplyToLastWriteWins(patch, copy, map[]);
    var (patched, applied) := ApplyTo(patch, copy, map[]);
    var crossField := CheckNameDiffers(applied, patched.name, patched.description, UpdateNameDiffersMessage);
    assert MessagesFor(applied, "Description") == [];
    assert "Name" !in crossField && crossField.Keys == {"Description"};
    TryValidateUpdateMessages(crossField, patched);
    assert PatchWorkingCopy(patch, copy) == Rejected(TryValidateUpdateDto(crossField, patched));
  }

  /** When the patched name and description differ, PATCH reports exactly the update DTO's attribute errors. */
  lemma PatchDistinctValuesMessages(patch: PatchDocument, copy: PointOfInterestForUpdateDto)
    requires AllTargetsExist(patch)
    ensures var name := FinalValue(patch, NameProperty, copy.name);
            var description := FinalValue(patch, DescriptionProperty, copy.description);
            var r := PatchWorkingCopy(patch, copy);
            name != description && r.Rejected? ==>
              r.errors == ValidateUpdateDto(map[], PointOfInterestForUpdateDto(name, description))
  {
    ApplyToLastWriteWins(patch, copy, map[]);
  }

  /**
   * Saved points listed once each map to DTOs listed once each: two saved
   * points never share a key, and the DTO carries the key.
   */
  lemma SavedPointsGiveDistinctDtos(ctx: CityInfoContext, ps: seq<PointOfInterest>)
    requires forall p :: p in ps ==> p in ctx.points
    ensures ctx.Valid() && Distinct(ps) ==> Distinct(ToPointOfInterestDtos(ps))
  {
  }

  // ---------------------------------------------------------------------------
  // PointsOfInterestController.
  // ---------------------------------------------------------------------------

  class PointsOfInterestController {
    const mailService: LocalMailService
    const cityInfoRepository: CityInfoRepository

    constructor (mailService: LocalMailService, cityInfoRepository: CityInfoRepository)
      ensures this.mailService == mailService && this.cityInfoRepository == cityInfoRepository
    {
      this.mailService := mailService;
      this.cityInfoRepository := cityInfoRepository;
    }

    /** The store behind the repository. */
    function Context(): CityInfoContext {
      cityInfoRepository.context
    }

    /** A request starts on a consistent store with no pending work. */
    ghost predicate Ready()
      reads Context(), Context().cities, Context().points
    {
      Context().Valid() && Context().NothingStaged()
    }

    /** GET `{cityId}/pointsofinterest`. */
    function GetPointsOfInterest(cityId: int): (r: ActionResult<seq<PointOfInterestDto>>)
      reads Context(), Context().cities, Context().points
      ensures r.Ok? || r.NotFound?
      ensures r.NotFound? <==> !exists c :: c in Context().cities && c.id == cityId
      ensures r.Ok? ==> forall p :: p in Context().points && p.cityId == cityId ==> ToPointOfInterestDto(p) in r.value
      ensures r.Ok? ==> forall d :: d in r.value ==>
                exists p :: p in Context().points && p.cityId == cityId && d == ToPointOfInterestDto(p)
      ensures r.Ok? ==> |r.value| == |cityInfoRepository.GetPointsOfInterestForCity(cityId)|
      ensures r.Ok? && Context().Valid() ==> Distinct(r.value)
    {
      if !cityInfoRepository.CityExists(cityId) then NotFound
      else
        var points := cityInfoRepository.GetPointsOfInterestForCity(cityId);
        SavedPointsGiveDistinctDtos(Context(), points);
        Ok(ToPointOfInterestDtos(points))
    }

    /** GET `{cityId}/pointsofinterest/{id}`. */
    function GetPointOfInterest(cityId: int, id: int): (r: ActionResult<PointOfInterestDto>)
      reads Context(), Context().cities, Context().points
      ensures r.Ok? || r.NotFound?
      ensures r.Ok? <==> (exists c :: c in Context().cities && c.id == cityId)
                         && exists p :: p in Context().points && p.cityId == cityId && p.id == id
      ensures r.Ok? ==> exists p :: p in Context().points && p.cityId == cityId && p.id == id
                                   && r.value == ToPointOfInterestDto(p)
    {
      if !cityInfoRepository.CityExists(cityId) then NotFound
      else
        match cityInfoRepository.GetPointOfInterestForCity(cityId, id)
        case None => NotFound
        case Some(p) => Ok(ToPointOfInterestDto(p))
    }

    /**
     * The first step of POST's write half: a new point is mapped from the
     * body and put into the collection of the saved city `cityId`, so it is
     * the one pending insert.
     */
    method StagePoint(cityId: int, dto: PointOfInterestForCreationDto) returns (p: PointOfInterest)
      requires Ready() && cityInfoRepository.CityExists(cityId)
      modifies Context()
      ensures Context().Valid()
      ensures fresh(p)
      ensures Context().addedPoints == [p] && Context().addedCities == [] && Context().deletedPoints == []
      ensures p in Context().owners && Context().owners[p].id == cityId
      ensures Context().points == old(Context().points) && Context().cities == old(Context().cities)
      ensures Context().nextPointId == old(Context().nextPointId)
      ensures ToUpdateDto(p) == PointOfInterestForUpdateDto(dto.name, dto.description)
      ensures old(PointsAcceptable(Context())) ==> PointsAcceptable(Context())
      ensures AcceptablePoint(dto.name, dto.description) ==> PendingPointsAcceptable(Context())
    {
      p := NewPointOfInterest(dto);
      cityInfoRepository.AddPointOfInterestForCity(cityId, p);
    }

    /**
     * The write half of POST: the new point is staged in the collection of
     * the saved city `cityId` and saved, which numbers it and links it.
     */
    method StoreNewPoint(cityId: int, dto: PointOfInterestForCreationDto) returns (p: PointOfInterest)
      requires Ready() && cityInfoRepository.CityExists(cityId)
      modifies Context()
      ensures Ready()
      ensures Context().points == old(Context().points) + [p]
      ensures Context().cities == old(Context().cities)
      ensures p.id == old(Context().nextPointId) && p.cityId == cityId
      ensures ToPointOfInterestDto(p) == PointOfInterestDto(p.id, dto.name, dto.description)
      ensures old(PointsAcceptable(Context())) && AcceptablePoint(dto.name, dto.description) ==> PointsAcceptable(Context())
    {
      p := StagePoint(cityId, dto);
      var ok := cityInfoRepository.Save();
    }

    /**
     * POST `{cityId}/pointsofinterest`. A missing body, then the model state,
     * are checked before the city is looked up; only a valid request for a
     * saved city stages and saves a new point.
     */
    method CreatePointOfInterest(cityId: int, body: Option<PointOfInterestForCreationDto>)
      returns (r: ActionResult<PointOfInterestDto>)
      requires Ready()
      modifies Context()
      ensures Ready()
      ensures !r.ServerError?
      ensures body.None? ==> r == BadRequest(None)
      ensures body.Some? && !IsValid(CreationModelState(body.value)) ==> r == BadRequest(Some(CreationModelState(body.value)))
      ensures body.Some? && IsValid(CreationModelState(body.value)) && !old(cityInfoRepository.CityExists(cityId)) ==>
                r == NotFound
      ensures r.Created? <==> body.Some? && IsValid(CreationModelState(body.value)) && old(cityInfoRepository.CityExists(cityId))
      ensures !r.Created? ==> unchanged(Context())
      ensures r.Created? ==>
                && |Context().points| == |old(Context().points)| + 1
                && var p := Context().points[|old(Context().points)|];
                && Context().points == old(Context().points) + [p]
                && p.id == old(Context().nextPointId) && p.cityId == cityId
                && r.value == PointOfInterestDto(p.id, body.value.name, body.value.description)
                && r.location == PointOfInterestRoute(cityId, r.value.id)
      ensures r.Created? ==> Context().cities == old(Context().cities)
      ensures r.Created? ==> GetPointOfInterest(cityId, r.value.id) == Ok(r.value)
      ensures old(PointsAcceptable(Context())) ==> PointsAcceptable(Context())
    {
      if body.None? {
        return BadRequest(None);
      }
      var dto := body.value;
      var ms := CreationModelState(dto);
      if !IsValid(ms) {
        return BadRequest(Some(ms));
      }
      if !cityInfoRepository.CityExists(cityId) {
        return NotFound;
      }
      var pointOfInterestToCreate := StoreNewPoint(cityId, dto);
      var created := ToPointOfInterestDto(pointOfInterestToCreate);
      r := Created(PointOfInterestRoute(cityId, created.id), created);
      FoundPointIsTheKeyedPoint(Context(), cityId, created.id, pointOfInterestToCreate);
    }

    /**
     * The write half of PUT and PATCH: the accepted values are mapped onto
     * the tracked entity in place and saved. No row is added or removed.
     */
    method WriteBack(p: PointOfInterest, dto: PointOfInterestForUpdateDto)
      requires Ready() && p in Context().points
      requires AcceptablePoint(dto.name, dto.description)
      modifies Context(), p`name, p`description
      ensures Ready()
      ensures Context().cities == old(Context().cities) && Context().points == old(Context().points)
      ensures p.id == old(p.id) && p.cityId == old(p.cityId)
      ensures ToUpdateDto(p) == dto
      ensures old(PointsAcceptable(Context())) ==> PointsAcceptable(Context())
    {
      MapOnto(dto, p);
      assert Context().deletedPoints == [] && Context().addedPoints == [] && Context().addedCities == [];
      assert old(PointsAcceptable(Context())) ==> PointsAcceptable(Context());
      label mapped:
      var ok := cityInfoRepository.Save();
      assert Context().points == old@mapped(Context().points);
    }

    /**
     * The two lookups PUT, PATCH and DELETE make: the city must exist, then
     * the point must be found under it. Something is found exactly when GET
     * finds the point, and it is the saved point with both keys.
     */
    function LookUpPoint(cityId: int, id: int): (found: Option<PointOfInterest>)
      reads Context(), Context().cities, Context().points
      ensures found.Some? <==> GetPointOfInterest(cityId, id).Ok?
      ensures found.Some? ==> cityInfoRepository.CityExists(cityId)
      ensures found.Some? ==> found.value in Context().points && found.value.cityId == cityId && found.value.id == id
    {
      if !cityInfoRepository.CityExists(cityId) then None
      else cityInfoRepository.GetPointOfInterestForCity(cityId, id)
    }

    /**
     * PUT `{cityId}/pointsofinterest/{id}`: a full update. A missing body,
     * then the model state, are checked before the city and the point are
     * looked up; the point found gets both values of the body.
     */
    method UpdatePointOfInterest(cityId: int, id: int, body: Option<PointOfInterestForUpdateDto>)
      returns (r: ActionResult<()>)
      requires Ready()
      modifies Context(), Context().points`name, Context().points`description
      ensures Ready()
      ensures !r.ServerError? && !r.Created? && !r.Ok?
      ensures body.None? ==> r == BadRequest(None)
      ensures body.Some? && !IsValid(UpdateModelState(body.value)) ==> r == BadRequest(Some(UpdateModelState(body.value)))
      ensures r.NoContent? <==> body.Some? && IsValid(UpdateModelState(body.value)) && old(GetPointOfInterest(cityId, id)).Ok?
      ensures body.Some? && IsValid(UpdateModelState(body.value)) && !old(GetPointOfInterest(cityId, id)).Ok? ==> r == NotFound
      ensures Context().cities == old(Context().cities) && Context().points == old(Context().points)
      ensures !r.NoContent? ==> unchanged(Context()) && forall p :: p in Context().points ==> unchanged(p)
      ensures forall p :: p in Context().points && !(p.cityId == cityId && p.id == id) ==> unchanged(p)
      ensures r.NoContent? ==>
                GetPointOfInterest(cityId, id) == Ok(PointOfInterestDto(id, body.value.name, body.value.description))
      ensures old(PointsAcceptable(Context())) ==> PointsAcceptable(Context())
    {
      if body.None? {
        return BadRequest(None);
      }
      var dto := body.value;
      var ms := UpdateModelState(dto);
      if !IsValid(ms) {
        return BadRequest(Some(ms));
      }
      r := UpdateValidated(cityId, id, dto);
    }

    /**
     * The part of PUT after the model state passed: NotFound unless the city
     * and the point are found, otherwise the point found takes the values.
     */
    method UpdateValidated(cityId: int, id: int, dto: PointOfInterestForUpdateDto) returns (r: ActionResult<()>)
      requires Ready() && AcceptablePoint(dto.name, dto.description)
      modifies Context(), Context().points`name, Context().points`description
      ensures Ready()
      ensures r.NoContent? || r.NotFound?
      ensures r.NoContent? <==> old(GetPointOfInterest(cityId, id)).Ok?
      ensures Context().cities == old(Context().cities) && Context().points == old(Context().points)
      ensures r.NotFound? ==> unchanged(Context()) && forall p :: p in Context().points ==> unchanged(p)
      ensures forall p :: p in Context().points && !(p.cityId == cityId && p.id == id) ==> unchanged(p)
      ensures r.NoContent? ==> GetPointOfInterest(cityId, id) == Ok(PointOfInterestDto(id, dto.name, dto.description))
      ensures old(PointsAcceptable(Context())) ==> PointsAcceptable(Context())
    {
      var found := LookUpPoint(cityId, id);
      if found.None? {
        return NotFound;
      }
      r := UpdateFound(cityId, id, found.value, dto);
    }

    /**
     * The point found under (`cityId`, `id`) takes the accepted values and
     * is saved; reading it back gives the values written.
     */
    method UpdateFound(cityId: int, id: int, p: PointOfInterest, dto: PointOfInterestForUpdateDto) returns (r: ActionResult<()>)
      requires Ready() && cityInfoRepository.CityExists(cityId)
      requires p in Context().points && p.cityId == cityId && p.id == id
      requires AcceptablePoint(dto.name, dto.description)
      modifies Context(), p`name, p`description
      ensures Ready()
      ensures Context().cities == old(Context().cities) && Context().points == old(Context().points)
      ensures r.NoContent? && GetPointOfInterest(cityId, id) == Ok(PointOfInterestDto(id, dto.name, dto.description))
      ensures old(PointsAcceptable(Context())) ==> PointsAcceptable(Context())
    {
      WriteBack(p, dto);
      r := NoContent;
      FoundPointIsTheKeyedPoint(Context(), cityId, id, p);
    }

    /**
     * The end of PATCH: a rejected working copy answers 400 with its errors
     * and changes nothing; an accepted one is written back onto the point
     * found under (`cityId`, `id`).
     */
    method FinishPatch(cityId: int, id: int, p: PointOfInterest, outcome: PatchOutcome) returns (r: ActionResult<()>)
      requires Ready() && cityInfoRepository.CityExists(cityId)
      requires p in Context().points && p.cityId == cityId && p.id == id
      requires outcome.Accepted? ==> AcceptablePoint(outcome.patched.name, outcome.patched.description)
      modifies Context(), p`name, p`description
      ensures Ready()
      ensures Context().cities == old(Context().cities) && Context().points == old(Context().points)
      ensures outcome.Rejected? ==> r == BadRequest(Some(outcome.errors)) && unchanged(Context()) && unchanged(p)
      ensures outcome.Accepted? ==>
                && r.NoContent?
                && GetPointOfInterest(cityId, id) == Ok(PointOfInterestDto(id, outcome.patched.name, outcome.patched.description))
      ensures old(PointsAcceptable(Context())) ==> PointsAcceptable(Context())
    {
      if outcome.Rejected? {
        return BadRequest(Some(outcome.errors));
      }
      r := UpdateFound(cityId, id, p, outcome.patched);
    }

    /**
     * PATCH once the point is found: the patch is applied to a working copy
     * of `p` and the outcome is answered or written back.
     */
    method PatchFound(cityId: int, id: int, p: PointOfInterest, patchDocument: PatchDocument) returns (r: ActionResult<()>)
      requires Ready() && cityInfoRepository.CityExists(cityId)
      requires p in Context().points && p.cityId == cityId && p.id == id
      modifies Context(), p`name, p`description
      ensures Ready()
      ensures Context().cities == old(Context().cities) && Context().points == old(Context().points)
      ensures old(GetPointOfInterest(cityId, id)).Ok?
      ensures var current := old(GetPointOfInterest(cityId, id)).value;
              var outcome := PatchWorkingCopy(patchDocument, PointOfInterestForUpdateDto(current.name, current.description));
              && (outcome.Rejected? ==> r == BadRequest(Some(outcome.errors)) && unchanged(Context()) && unchanged(p))
              && (outcome.Accepted? ==>
                    && r.NoContent?
                    && GetPointOfInterest(cityId, id) == Ok(PointOfInterestDto(id, outcome.patched.name, outcome.patched.description)))
      ensures old(PointsAcceptable(Context())) ==> PointsAcceptable(Context())
    {
      FoundPointIsTheKeyedPoint(Context(), cityId, id, p);
      assert GetPointOfInterest(cityId, id) == Ok(ToPointOfInterestDto(p));
      var workingCopy := ToUpdateDto(p);
      var outcome := PatchWorkingCopy(patchDocument, workingCopy);
      r := FinishPatch(cityId, id, p, outcome);
    }

    /**
     * PATCH `{cityId}/pointsofinterest/{id}`: a partial update. After the
     * body and the lookups, the patch is applied to a working copy of the
     * point; the copy is written back only when `PatchWorkingCopy` accepts it.
     */
    method PartiallyUpdatePointOfInterest(cityId: int, id: int, body: Option<PatchDocument>)
      returns (r: ActionResult<()>)
      requires Ready()
      modifies Context(), Context().points`name, Context().points`description
      ensures Ready()
      ensures !r.ServerError? && !r.Created? && !r.Ok?
      ensures body.None? ==> r == BadRequest(None)
      ensures body.Some? ==> (r.NotFound? <==> old(GetPointOfInterest(cityId, id)).NotFound?)
      ensures body.Some? && old(GetPointOfInterest(cityId, id)).Ok? ==>
                var current := old(GetPointOfInterest(cityId, id)).value;
                var outcome := PatchWorkingCopy(body.value, PointOfInterestForUpdateDto(current.name, current.description));
                && (outcome.Rejected? ==> r == BadRequest(Some(outcome.errors)))
                && (outcome.Accepted? ==>
                      && r.NoContent?
                      && GetPointOfInterest(cityId, id) == Ok(PointOfInterestDto(id, outcome.patched.name, outcome.patched.description)))
      ensures Context().cities == old(Context().cities) && Context().points == old(Context().points)
      ensures !r.NoContent? ==> unchanged(Context()) && forall p :: p in Context().points ==> unchanged(p)
      ensures forall p :: p in Context().points && !(p.cityId == cityId && p.id == id) ==> unchanged(p)
      ensures old(PointsAcceptable(Context())) ==> PointsAcceptable(Context())
    {
      if body.None? {
        return BadRequest(None);
      }
      var patchDocument := body.value;
      ghost var before := GetPointOfInterest(cityId, id);
      var found := LookUpPoint(cityId, id);
      if found.None? {
        return NotFound;
      }
      var pointOfInterestEntity := found.value;
      r := PatchFound(cityId, id, pointOfInterestEntity, patchDocument);
    }

    /**
     * The write half of DELETE: the point is marked Deleted and saved, so its
     * row leaves the table.
     */
    method DeleteAndSave(p: PointOfInterest)
      requires Ready() && p in Context().points
      modifies Context()
      ensures Ready()
      ensures Context().cities == old(Context().cities)
      ensures Context().points == Without(old(Context().points), [p])
      ensures forall q :: q in Context().points ==> q.id != p.id
      ensures p.id == old(p.id)
      ensures old(PointsAcceptable(Context())) ==> PointsAcceptable(Context())
    {
      cityInfoRepository.DeletePointOfInterest(p);
      assert Context().deletedPoints == [p] && Context().addedPoints == [] && Context().addedCities == [];
      var ok := cityInfoRepository.Save();
    }

    /**
     * DELETE `{cityId}/pointsofinterest/{id}`: the point found is removed,
     * and after the save a mail reports its name and key.
     */
    method DeletePointOfInterest(cityId: int, id: int) returns (r: ActionResult<()>)
      requires Ready()
      modifies Context(), mailService
      ensures Ready()
      ensures r.NoContent? || r.NotFound?
      ensures r.NotFound? <==> old(GetPointOfInterest(cityId, id)).NotFound?
      ensures r.NotFound? ==> unchanged(Context()) && unchanged(mailService)
      ensures Context().cities == old(Context().cities)
      ensures r.NoContent? ==>
                && Context().points == Without(old(Context().points), [old(cityInfoRepository.GetPointOfInterestForCity(cityId, id)).value])
                && GetPointOfInterest(cityId, id).NotFound?
                && var deleted := old(GetPointOfInterest(cityId, id)).value;
                   mailService.sent == old(mailService.sent) + [Mail(DeletionSubject, DeletionMessage(deleted.name, id))]
      ensures old(PointsAcceptable(Context())) ==> PointsAcceptable(Context())
    {
      var found := LookUpPoint(cityId, id);
      if found.None? {
        return NotFound;
      }
      var pointOfInterestEntity := found.value;
      DeleteAndSave(pointOfInterestEntity);
      label saved:
      mailService.Send(DeletionSubject, DeletionMessage(pointOfInterestEntity.name, pointOfInterestEntity.id));
      r := NoContent;
      assert unchanged@saved(Context()) && unchanged@saved(Context().cities) && unchanged@saved(Context().points);
    }
  }

  // ---------------------------------------------------------------------------
  // CitiesController.
  // ---------------------------------------------------------------------------

  /** What GET `{id}` returns: the city with its points, or the city alone. */
  datatype CityResult =
    | WithPointsOfInterest(cityDto: CityDto)
    | WithoutPointsOfInterest(cityWithoutPoints: CityWithoutPointsOfInterestDto)

  class CitiesController {
    const cityInfoRepository: CityInfoRepository

    constructor (cityInfoRepository: CityInfoRepository)
      ensures this.cityInfoRepository == cityInfoRepository
    {
      this.cityInfoRepository := cityInfoRepository;
    }

    /** The store behind the repository. */
    function Context(): CityInfoContext {
      cityInfoRepository.context
    }

    /** A request starts on a consistent store with no pending work. */
    ghost predicate Ready()
      reads Context(), Context().cities, Context().points
    {
      Context().Valid() && Context().NothingStaged()
    }

    /** GET `api/cities`: every saved city without its points, ascending by name. */
    function GetCities(): (r: ActionResult<seq<CityWithoutPointsOfInterestDto>>)
      reads Context(), set c | c in Context().cities
      ensures r.Ok?
      ensures |r.value| == |Context().cities|
      ensures forall i, j :: 0 <= i < j < |r.value| ==> NameLessOrEqual(r.value[i].name, r.value[j].name)
      ensures forall c :: c in Context().cities ==> ToCityWithoutPointsOfInterestDto(c) in r.value
      ensures forall d :: d in r.value ==> exists c :: c in Context().cities && d == ToCityWithoutPointsOfInterestDto(c)
    {
      var cityEntities := cityInfoRepository.GetCities();
      assert |cityEntities| == |multiset(cityEntities)| == |multiset(Context().cities)| == |Context().cities|;
      Ok(ToCityWithoutPointsOfInterestDtos(cityEntities))
    }

    /**
     * GET `api/cities/{id}`: the city with key `id`, with its saved points
     * when the flag asks for them, otherwise without.
     */
    function GetCity(id: int, includePointsOfInterest: bool): (r: ActionResult<CityResult>)
      reads Context(), Context().cities, Context().points
      ensures r.Ok? || r.NotFound?
      ensures r.NotFound? <==> !exists c :: c in Context().cities && c.id == id
      ensures r.Ok? ==> (r.value.WithPointsOfInterest? <==> includePointsOfInterest)
      ensures r.Ok? && !includePointsOfInterest ==>
                exists c :: c in Context().cities && c.id == id && r.value.cityWithoutPoints == ToCityWithoutPointsOfInterestDto(c)
      ensures r.Ok? && includePointsOfInterest ==>
                && (exists c :: c in Context().cities && c.id == id
                      && r.value.cityDto.id == id && r.value.cityDto.name == c.name && r.value.cityDto.description == c.description)
                && (forall p :: p in Context().points && p.cityId == id ==> ToPointOfInterestDto(p) in r.value.cityDto.pointsOfInterest)
                && (forall d :: d in r.value.cityDto.pointsOfInterest ==>
                      exists p :: p in Context().points && p.cityId == id && d == ToPointOfInterestDto(p))
                && (Context().Valid() ==> Distinct(r.value.cityDto.pointsOfInterest))
    {
      match cityInfoRepository.GetCity(id, includePointsOfInterest)
      case None => NotFound
      case Some(city) =>
        SavedPointsGiveDistinctDtos(Context(), city.pointsOfInterest);
        if includePointsOfInterest then Ok(WithPointsOfInterest(ToCityDto(city)))
        else Ok(WithoutPointsOfInterest(ToCityWithoutPointsOfInterestDto(city.city)))
    }

    /**
     * The write half of POST: the new city is tracked as Added with an empty
     * points collection and saved, which numbers it.
     */
    method StoreNewCity(dto: CityForCreationDto) returns (c: City)
      requires Ready()
      modifies Context()
      ensures Ready()
      ensures Context().cities == old(Context().cities) + [c]
      ensures Context().points == old(Context().points)
      ensures c.id == old(Context().nextCityId) && c.name == dto.name && c.description == dto.description
    {
      c := NewCity(dto);
      SaveNewCity(c);
    }

    /** `AddCity` then `Save` for a city not yet in the store: it is appended under the next city key. */
    method SaveNewCity(c: City)
      requires Ready() && c !in Context().cities
      modifies Context(), c`id
      ensures Ready()
      ensures Context().cities == old(Context().cities) + [c]
      ensures Context().points == old(Context().points)
      ensures c.id == old(Context().nextCityId)
    {
      cityInfoRepository.AddCity(c);
      assert Context().addedCities == [c] && Context().addedPoints == [] && Context().deletedPoints == [];
      label staged:
      var ok := cityInfoRepository.Save();
      assert old@staged(Context().addedCities)[0] == c;
    }

    /**
     * POST `api/cities`. A missing body, then the cross-field rule, are
     * checked; a valid city is saved and returned with an empty list of points.
     */
    method AddCity(body: Option<CityForCreationDto>) returns (r: ActionResult<CityDto>)
      requires Ready()
      modifies Context()
      ensures Ready()
      ensures r.Created? || r.BadRequest?
      ensures body.None? ==> r == BadRequest(None)
      ensures body.Some? && !IsValid(CityModelState(body.value)) ==> r == BadRequest(Some(CityModelState(body.value)))
      ensures r.Created? <==> body.Some? && IsValid(CityModelState(body.value))
      ensures !r.Created? ==> unchanged(Context())
      ensures Context().points == old(Context().points)
      ensures r.Created? ==>
                && |Context().cities| == |old(Context().cities)| + 1
                && var c := Context().cities[|old(Context().cities)|];
                && Context().cities == old(Context().cities) + [c]
                && c.id == old(Context().nextCityId)
                && c.name == body.value.name && c.description == body.value.description
                && r.value == CityDto(c.id, body.value.name, body.value.description, [])
                && r.location == CityRoute(c.id)
      ensures old(PointsAcceptable(Context())) ==> PointsAcceptable(Context())
    {
      if body.None? {
        return BadRequest(None);
      }
      var dto := body.value;
      var ms := CityModelState(dto);
      if !IsValid(ms) {
        return BadRequest(Some(ms));
      }
      var cityEntity := StoreNewCity(dto);
      var createdCity := ToCityDto(CityGraph(cityEntity, []));
      r := Created(CityRoute(createdCity.id), createdCity);
    }
  }
}
