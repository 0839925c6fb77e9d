# CityInfo.API — a Dafny model of the city / point-of-interest store

CityInfo.API is a small ASP.NET Core REST API. It keeps cities and their points of interest.
`api/cities` lists the cities, returns one city, and creates cities.
`api/cities/{cityId}/pointsofinterest` lists, returns, creates, replaces (PUT), patches (PATCH) and deletes the points of one city.
This project models the live code paths of that API and proves what they do.

The model has these layers, one module each:

- **`Store`** replaces the Entity Framework `CityInfoContext` with an explicit in-memory store. It is a class that holds:
  - the saved `Cities` and `PointsOfInterest` tables, as sequences of entity objects;
  - the change tracker's pending work: cities added, points added (with the city whose collection holds each one), and points removed;
  - the two identity counters.

  `SaveChanges` deletes the removed rows. It then numbers the added cities and points from the counters, in order, and sets each new point's `CityId` from its owning city. `Valid` is the store's integrity: unique positive keys below the counters, and every point refers to a saved city. Every operation keeps `Valid`.
- **`Entities`**: `City` and `PointOfInterest` are classes. The store writes their keys, and PUT and PATCH overwrite a point's name and description in place.
- **`Services`**: `CityInfoRepository` over the store.
  - The queries are functions: cities ordered by name, a city by key, the points of a city, a point by city key *and* point key, and city existence.
  - `AddCity`, `AddPointOfInterestForCity` and `DeletePointOfInterest` only stage work.
  - `Save` flushes it and returns `SaveChanges() >= 0`, which is always true.
  - `LocalMailService` records the mails it is asked to send.
- **`Models`**: the DTOs. The `[Required]` and `[MaxLength]` attributes of the two point input DTOs become functions that add messages to a `ModelState` (a map from key to messages).
- **`JsonPatch`**: the part of JSON Patch (RFC 6902) the PATCH handler uses. This is `replace` (section 4.3) and `remove` (section 4.2) on `/name` and `/description`. An operation on any other path is reported under the DTO's type name, and the remaining operations still run.
- **`Mapping`**: the AutoMapper maps configured at start-up.
- **`Controllers`**: the two controllers. Read handlers are functions and write handlers are methods, and each returns an `ActionResult`. Each write handler is split into a checking part and a small "write half" (`StoreNewPoint`, `WriteBack`, `DeleteAndSave`, `StoreNewCity`).
- **`Seeding`**: `EnsureSeedDataForContext`, the one-time start data.
- **`Text`** and **`Sequences`**: the few string facts the core relies on and small sequence lemmas.
  - The string facts: .NET white space, UTF-16 length, ordinal order, and the decimal text of an `int`.

Behaviour of the code that the model keeps as written:

- PUT validates its body before it looks up the city and the point: PointsOfInterestController.cs:301-316 run before the lookups at 347-355. An invalid body for a missing city is therefore a 400, not a 404.
- `Save` returns `SaveChanges() >= 0` (CityInfoRepository.cs:55-58), which always holds. The 500 branches of the write handlers are unreachable, and each handler proves `!r.ServerError?`.
- `AddPointOfInterestForCity` dereferences the city it looks up (CityInfoRepository.cs:48-53) rather than returning an error, so the model requires that the city exists. The handlers check it first.
- Point keys come from one identity column for the whole table (PointOfInterest.cs:12-14), not one per city.

## Model

| member | source | states |
|---|---|---|
| Store.CityInfoContext.constructor | CityInfo.API/Entities/CityInfoContext.cs:11-21 | a new store is empty, consistent, has nothing pending, and its identity columns start at 1 |
| Store.CityInfoContext.Add | CityInfo.API/Services/CityInfoRepository.cs:62 | adding a city graph stages the city and each point of its collection as Added, owned by that city, and keeps the store consistent; the saved tables do not change |
| Store.CityInfoContext.AddRange | CityInfo.API/CityInfoContextExtensions.cs:69 | adding several graphs stages all their cities and all their points in order; each point is owned by the city whose collection holds it |
| Store.CityInfoContext.AddToCollection | CityInfo.API/Services/CityInfoRepository.cs:51 | appending a new point to a tracked city's collection stages it as Added with that city as owner; nothing else changes |
| Store.CityInfoContext.Remove | CityInfo.API/Services/CityInfoRepository.cs:67 | removing a saved point marks it Deleted (once); the saved tables do not change until the save |
| Store.CityInfoContext.SaveChanges | CityInfo.API/Services/CityInfoRepository.cs:57 | saving removes the deleted points, appends the added cities and points, numbers them consecutively from the counters (see Left out), sets each new point's CityId to its owner's key, leaves nothing pending, keeps the store consistent, and returns the number of Added and Deleted entries it wrote (Modified entries are not counted) |
| Store.CityInfoContext.DeleteRows | CityInfo.API/Services/CityInfoRepository.cs:67 | the DELETE step: the points table loses exactly the deleted points, in order, and stays consistent |
| Store.CityInfoContext.InsertCities | CityInfo.API/Entities/City.cs:12-14 | the INSERT step for cities: the added cities become rows with consecutive fresh keys, and the store stays consistent |
| Store.CityInfoContext.InsertPoints | CityInfo.API/Entities/PointOfInterest.cs:12-26 | the INSERT step for points: the added points become rows with consecutive fresh keys, each linked to its owner's key |
| Store.InsertCitiesKeepsValid | CityInfo.API/Entities/City.cs:12-14 | appending cities numbered from the counter keeps city keys unique, positive and below the new counter |
| Store.InsertPointsKeepsValid | CityInfo.API/Entities/PointOfInterest.cs:12-26 | appending points numbered from the counter and linked to saved cities keeps the store consistent |
| Store.NoCityNoPoint | CityInfo.API/Entities/PointOfInterest.cs:24-26 | every saved point refers to a saved city, so a store without cities has no points |
| Store.NumberCities | CityInfo.API/Entities/City.cs:12-14 | the model numbers the cities first, first+1, … in order (one numbering the identity column may give) |
| Store.NumberPoints | CityInfo.API/Entities/PointOfInterest.cs:12-26 | the model numbers the points with consecutive keys in order (one numbering the identity column may give), and each point's CityId becomes its owner's key |
| Store.CitiesAppended | CityInfo.API/Entities/City.cs:12-14 | keys numbered above every saved key keep all city keys unique and below the new counter |
| Store.PointsAppended | CityInfo.API/Entities/PointOfInterest.cs:12-14 | the same for point keys, after the deleted rows are gone |
| Store.InPointsOf | CityInfo.API/CityInfoContextExtensions.cs:69 | a point in the collection of one of the added graphs is among the points added |
| Entities.City.constructor | CityInfo.API/Entities/City.cs:12-26 | a new city has key 0 (unsaved) and the given name and description; its points collection is the store's owner map, in which a new city owns no point |
| Entities.PointOfInterest.constructor | CityInfo.API/Entities/PointOfInterest.cs:12-26 | a new point has key 0, no city yet, and the given name and description |
| Sequences.Without | CityInfo.API/Services/CityInfoRepository.cs:67 | the rows left after a delete: exactly the rows not removed, at most as many, none repeated |
| Services.FindCity | CityInfo.API/Services/CityInfoRepository.cs:45 | FirstOrDefault by key: some city iff one has the key, and then the first such city |
| Services.PointsOfCity | CityInfo.API/Services/CityInfoRepository.cs:33 | Where by CityId: exactly the points with that CityId, none repeated |
| Services.FindPoint | CityInfo.API/Services/CityInfoRepository.cs:39 | FirstOrDefault on both keys: some point iff one matches the city key and the point key, and the one found matches both |
| Services.InsertByName | CityInfo.API/Services/CityInfoRepository.cs:17 | inserting a city into a name-sorted list keeps it sorted and adds exactly that city |
| Services.SortByName | CityInfo.API/Services/CityInfoRepository.cs:17 | OrderBy(Name): a permutation of the cities, ascending by name |
| Services.FirstBelowAll | CityInfo.API/Services/CityInfoRepository.cs:17 | a city not above the head of a sorted list can be put in front of it |
| Services.HeadBelowInsert | CityInfo.API/Services/CityInfoRepository.cs:17 | the head of a sorted list stays in front when a larger city is inserted after it |
| Services.CityInfoRepository.constructor | CityInfo.API/Services/CityInfoRepository.cs:11-14 | the repository works on the given context |
| Services.CityInfoRepository.GetCities | CityInfo.API/Services/CityInfoRepository.cs:15-19 | every saved city exactly once (same multiset), and nothing else, ascending by name |
| Services.CityInfoRepository.GetCity | CityInfo.API/Services/CityInfoRepository.cs:21-29 | a city iff a saved city has the key; it is that city; with the flag the graph holds exactly the city's saved points, each of them once when the points table lists each point once; without it none |
| Services.CityInfoRepository.GetPointsOfInterestForCity | CityInfo.API/Services/CityInfoRepository.cs:31-34 | exactly the saved points whose CityId is the key (none for an absent city), each of them once when the points table lists each point once |
| Services.CityInfoRepository.GetPointOfInterestForCity | CityInfo.API/Services/CityInfoRepository.cs:36-41 | a point iff a saved point matches both the city key and the point key, and the one returned matches both |
| Services.CityInfoRepository.CityExists | CityInfo.API/Services/CityInfoRepository.cs:43-46 | true exactly when some saved city has the key |
| Services.CityInfoRepository.AddPointOfInterestForCity | CityInfo.API/Services/CityInfoRepository.cs:48-53 | stages the new point in the collection of the saved city with the key; the saved tables do not change |
| Services.CityInfoRepository.AddCity | CityInfo.API/Services/CityInfoRepository.cs:60-63 | stages the city as Added with no points; the saved tables do not change |
| Services.CityInfoRepository.DeletePointOfInterest | CityInfo.API/Services/CityInfoRepository.cs:65-68 | marks the point Deleted; the saved tables do not change until the save |
| Services.CityInfoRepository.Save | CityInfo.API/Services/CityInfoRepository.cs:55-58 | always reports success, and has every effect of SaveChanges |
| Services.FoundPointIsTheKeyedPoint | CityInfo.API/Services/CityInfoRepository.cs:39 | with unique keys, a lookup by (city key, point key) finds the point with that key exactly when it belongs to that city |
| Services.LocalMailService.constructor | CityInfo.API/Services/LocalMailService.cs:9-24 | a new mail service has sent nothing |
| Services.LocalMailService.Send | CityInfo.API/Services/LocalMailService.cs:18-24 | sending appends exactly one mail with the given subject and message |
| Text.Utf16LengthBounds | CityInfo.API/Models/PointOfInterestForCreationDto.cs:12 | the length MaxLength measures lies between the number of characters and twice that |
| Text.Utf16LengthOfBmp | CityInfo.API/Models/PointOfInterestForCreationDto.cs:12 | for text in the Basic Multilingual Plane that length is the number of characters |
| Text.NameTotal | CityInfo.API/Services/CityInfoRepository.cs:17 | any two names are ordered one way or the other |
| Text.NameTransitive | CityInfo.API/Services/CityInfoRepository.cs:17 | the name order is transitive |
| Text.IntToStringRoundTrip | CityInfo.API/Controllers/PointsOfInterestController.cs:558 | the decimal text of a key in the deletion mail reads back as that key |
| Models.AddModelError | CityInfo.API/Controllers/PointsOfInterestController.cs:232 | adds the message at the end of the key's list, touches no other key, and makes the state invalid |
| Models.ValidateCreationDto | CityInfo.API/Models/PointOfInterestForCreationDto.cs:11-16 | adds nothing iff the name is present, not blank and at most 50 UTF-16 units and the description is absent or at most 200; a missing name gets "You must provide a name value"; a long description gets the "Name value is longer then max length of 200 characters" message |
| Models.RequiredMeansNonBlank | CityInfo.API/Models/PointOfInterestForUpdateDto.cs:11 | `[Required]` holds exactly for present text with a character that is not white space |
| Models.MaxLengthByCharacters | CityInfo.API/Models/PointOfInterestForUpdateDto.cs:12 | `[MaxLength(max)]` counts UTF-16 units: text of at most max/2 characters passes, text of more than max characters fails |
| Models.AcceptablePointByAttributes | CityInfo.API/Models/PointOfInterestForUpdateDto.cs:11-16 | a (Name, Description) pair is acceptable exactly when Required and MaxLength(50) hold for the name and MaxLength(200) for the description |
| Models.ShortTextsAcceptable | CityInfo.API/Entities/PointOfInterest.cs:15-20 | a name of 1 to 25 characters starting with a visible character and a description of at most 100 characters pass those attributes, which the entity's columns repeat |
| Models.CheckUpdateName | CityInfo.API/Models/PointOfInterestForUpdateDto.cs:11-13 | the Name attributes add only under "Name", exactly the messages of the attributes that fail, Required before MaxLength, and change nothing exactly when both hold |
| Models.CheckUpdateDescription | CityInfo.API/Models/PointOfInterestForUpdateDto.cs:15-16 | the Description attribute adds only under "Description", the default MaxLength message exactly when the description is longer than 200 units |
| Models.ValidateUpdateDto | CityInfo.API/Models/PointOfInterestForUpdateDto.cs:11-16 | the same acceptance, with the default MaxLength message for a long description |
| Models.TryValidateUpdateDto | CityInfo.API/Controllers/PointsOfInterestController.cs:478 | on a valid state it is full validation; afterwards the state is valid exactly when it was and the pair passes the attributes; an acceptable pair changes nothing; only "Name" and "Description" can be added |
| Models.TryValidateUpdateMessages | CityInfo.API/Controllers/PointsOfInterestController.cs:478 | a key that already has errors keeps exactly those (its attributes are skipped), a key without errors gets exactly its attributes' messages, and every other key is untouched |
| Models.CreationAndUpdateAgree | CityInfo.API/Models/PointOfInterestForUpdateDto.cs:11-16 | the creation and update DTOs accept exactly the same pairs and report errors under the same keys with the same Name messages |
| JsonPatch.LowerAsciiKeepsLowerCase | CityInfo.API/Controllers/PointsOfInterestController.cs:461 | a path without upper-case letters is its own case-folded form |
| JsonPatch.LowerAscii | CityInfo.API/Controllers/PointsOfInterestController.cs:461 | the case-folded path has the same length, each character folded on its own, and no upper-case ASCII letter left |
| JsonPatch.LowerAsciiIdempotent | CityInfo.API/Controllers/PointsOfInterestController.cs:461 | folding case twice gives what folding once gives |
| JsonPatch.TargetOfFoldsToPath | CityInfo.API/Controllers/PointsOfInterestController.cs:461 | the contract of `TargetOf`: a path addresses the property whose path ("/name" or "/description") it folds to in ASCII case, and no property when it folds to neither |
| JsonPatch.TargetOfPathOf | CityInfo.API/Controllers/PointsOfInterestController.cs:461 | each property's own path addresses that property |
| JsonPatch.TargetOfIgnoresCase | CityInfo.API/Controllers/PointsOfInterestController.cs:461 | two paths that fold to the same text address the same property, the one their folded form addresses |
| JsonPatch.ApplyTo | CityInfo.API/Controllers/PointsOfInterestController.cs:461 | applying a patch adds errors only under the DTO's type name, and adds none iff every path names a property |
| JsonPatch.FinalValueFirstStep | CityInfo.API/Controllers/PointsOfInterestController.cs:461 | running the first operation, then the rest, leaves what the whole patch leaves |
| JsonPatch.ApplyToLastWriteWins | CityInfo.API/Controllers/PointsOfInterestController.cs:461 | each property ends with the value of the last operation addressing it, or keeps its value |
| JsonPatch.FinalValueIdempotent | CityInfo.API/Controllers/PointsOfInterestController.cs:461 | the last write does not depend on the value before the patch |
| JsonPatch.ApplyToIdempotent | CityInfo.API/Controllers/PointsOfInterestController.cs:461 | applying a patch a second time to its own result changes nothing |
| JsonPatch.UntouchedPropertyKept | CityInfo.API/Controllers/PointsOfInterestController.cs:461 | a property no operation addresses keeps its value |
| Mapping.ToPointOfInterestDtos | CityInfo.API/Startup.cs:107 | points map one by one, in order, to (Id, Name, Description) |
| Mapping.ToCityWithoutPointsOfInterestDtos | CityInfo.API/Startup.cs:104 | cities map one by one, in order, to (Id, Name, Description) |
| Mapping.ToCityDto | CityInfo.API/Startup.cs:105 | a city with its points keeps the key, name and description the map without points gives, and holds its points mapped one by one, in order |
| Mapping.ToUpdateDto | CityInfo.API/Startup.cs:110 | the working copy of a point carries the name and description the output map shows for it |
| Mapping.NewPointOfInterest | CityInfo.API/Startup.cs:108 | a creation DTO maps to a new, unsaved point carrying its name and description |
| Mapping.NewCity | CityInfo.API/Startup.cs:106 | a city creation DTO maps to a new, unsaved city carrying its name and description |
| Mapping.MapOnto | CityInfo.API/Startup.cs:109 | an update DTO mapped onto a point overwrites name and description in place, keeps its keys, and maps back to the same DTO |
| Mapping.UpdateDtoRoundTrip | CityInfo.API/Startup.cs:109-110 | mapping a point to its update DTO and back onto it leaves it unchanged |
| Controllers.CheckNameDiffers | CityInfo.API/Controllers/PointsOfInterestController.cs:230-233 | a name equal to the description (two nulls included) adds the message under "Description" and makes the state invalid; otherwise nothing changes |
| Controllers.CreationModelState | CityInfo.API/Controllers/PointsOfInterestController.cs:224-239 | POST's model state is valid iff the pair passes the DTO's attributes and name ≠ description; equal values end the Description list with the "different" message |
| Controllers.UpdateModelState | CityInfo.API/Controllers/PointsOfInterestController.cs:307-316 | PUT's model state is valid iff the pair passes the attributes and name ≠ description; equal values end with the "differen" message |
| Controllers.CityModelState | CityInfo.API/Controllers/CitiesController.cs:145-154 | a city's model state is valid iff name ≠ description, and otherwise holds exactly the one Description message |
| Controllers.PatchWorkingCopy | CityInfo.API/Controllers/PointsOfInterestController.cs:456-484 | the patched copy is accepted iff every path names a property and the last values written pass the attributes and differ; an accepted copy holds exactly those values; a rejection carries errors, and a bad path is reported under the DTO's type name only; `TryValidateModel` runs after the cross-field check and skips the attributes of a key that already has an error |
| Controllers.PatchEqualValuesMessages | CityInfo.API/Controllers/PointsOfInterestController.cs:472-484 | when the patched name equals the patched description the copy is rejected; "Description" holds only the "differen" message and "Name" exactly what its attributes give; no other key |
| Controllers.PatchDistinctValuesMessages | CityInfo.API/Controllers/PointsOfInterestController.cs:478-484 | when the patched values differ, a rejection carries exactly the errors the update DTO's attributes give for them |
| Controllers.SavedPointsGiveDistinctDtos | CityInfo.API/Entities/PointOfInterest.cs:12-14 | on a consistent store, saved points listed once each project to DTOs listed once each, since no two saved points share a key and the projection keeps the key |
| Controllers.DeletionMessageNamesPoint | CityInfo.API/Controllers/PointsOfInterestController.cs:557-558 | the deletion mail reads "POI: ", the point's name (empty text for a null name, as C# interpolation gives), " with id ", the key in decimal and " was deleted"; the decimal text parses back to the key (with Text.IntToStringRoundTrip) |
| Controllers.PointsOfInterestController.constructor | CityInfo.API/Controllers/PointsOfInterestController.cs:26-36 | the controller uses the injected mail service and repository |
| Controllers.PointsOfInterestController.GetPointsOfInterest | CityInfo.API/Controllers/PointsOfInterestController.cs:112-119 | NotFound iff no saved city has the key; otherwise Ok with exactly the projections of that city's points, as many as the repository lists, each once on a consistent store |
| Controllers.PointsOfInterestController.GetPointOfInterest | CityInfo.API/Controllers/PointsOfInterestController.cs:194-209 | Ok iff the city exists and a point matches both keys, and then the projection of that point; NotFound otherwise |
| Controllers.PointsOfInterestController.StagePoint | CityInfo.API/Controllers/PointsOfInterestController.cs:275-276 | the mapped point is staged as the only Added point, owned by the city; the tables do not change; its values are the input's, and if they pass the attributes every staged point does |
| Controllers.PointsOfInterestController.StoreNewPoint | CityInfo.API/Controllers/PointsOfInterestController.cs:276-281 | the new point is appended to the points table with the next key, linked to the city, carrying the input's values; if every saved point passed the attributes before and the input does, every saved point still does |
| Controllers.PointsOfInterestController.CreatePointOfInterest | CityInfo.API/Controllers/PointsOfInterestController.cs:220-286 | no body gives BadRequest; an invalid model state gives BadRequest with it, even for an absent city; then an absent city gives NotFound; every failure leaves the store unchanged; success appends one point with the next key, returns Created with its DTO (input values, store key) at its route, and GET then finds it; every saved point that passed the attributes before still does, and so does the new one |
| Controllers.PointsOfInterestController.WriteBack | CityInfo.API/Controllers/PointsOfInterestController.cs:358-364 | the accepted values, which pass the attributes, are written onto the point and saved; keys and tables stay the same; every saved point that passed the attributes before still does |
| Controllers.PointsOfInterestController.LookUpPoint | CityInfo.API/Controllers/PointsOfInterestController.cs:347-355 | the lookups PUT, PATCH and DELETE make (city exists, then the point under it, as also at :445-453 and :533-541) find something exactly when GET finds the point, and what they find is the saved point with both keys |
| Controllers.PointsOfInterestController.UpdateValidated | CityInfo.API/Controllers/PointsOfInterestController.cs:347-365 | after the model state passed: NotFound, changing nothing, unless GET finds the point; otherwise NoContent, the point takes the body's values, which GET then returns, and no other point changes |
| Controllers.PointsOfInterestController.UpdateFound | CityInfo.API/Controllers/PointsOfInterestController.cs:357-365 | the point found under both keys takes the accepted values and is saved; NoContent, and GET then returns those values under the same key; no row is added or removed; attribute acceptability of the saved points is kept |
| Controllers.PointsOfInterestController.UpdatePointOfInterest | CityInfo.API/Controllers/PointsOfInterestController.cs:297-365 | no body or an invalid model state gives BadRequest; NoContent iff the body is valid and GET finds the point, NotFound when the body is valid and GET does not find it; every other outcome changes nothing; no other point changes; after NoContent GET returns the body's values under the same key; if every saved point passed the attributes before, every saved point still does |
| Controllers.PointsOfInterestController.FinishPatch | CityInfo.API/Controllers/PointsOfInterestController.cs:481-494 | a rejected working copy gives BadRequest with its errors and changes nothing; an accepted one gives NoContent, after which GET returns the patched values; attribute acceptability of the saved points is kept |
| Controllers.PointsOfInterestController.PatchFound | CityInfo.API/Controllers/PointsOfInterestController.cs:455-494 | for a point GET finds, the outcome is that of `PatchWorkingCopy` on the point's current values: a rejection answers BadRequest with its errors and changes nothing, an acceptance gives NoContent and GET then returns the patched values |
| Controllers.PointsOfInterestController.PartiallyUpdatePointOfInterest | CityInfo.API/Controllers/PointsOfInterestController.cs:376-494 | no body gives BadRequest; NotFound iff GET finds no point; otherwise a rejected working copy gives BadRequest with its errors and changes nothing, and an accepted one gives NoContent after which GET returns the patched values; no other point changes; if every saved point passed the attributes before, every saved point still does |
| Controllers.PointsOfInterestController.DeleteAndSave | CityInfo.API/Controllers/PointsOfInterestController.cs:548-554 | the point is removed from the table and saved; no point with its key remains; cities do not change; attribute acceptability of the saved points is kept |
| Controllers.PointsOfInterestController.DeletePointOfInterest | CityInfo.API/Controllers/PointsOfInterestController.cs:504-560 | NotFound iff GET finds no point, and then neither the store nor the mail log changes; on NoContent the point leaves the table, GET no longer finds it, and exactly one mail "Point of interest was deleted" naming its name and key is appended; attribute acceptability of the saved points is kept |
| Controllers.CitiesController.constructor | CityInfo.API/Controllers/CitiesController.cs:18-21 | the controller uses the injected repository |
| Controllers.CitiesController.GetCities | CityInfo.API/Controllers/CitiesController.cs:66-68 | Ok with one summary per saved city, every city's summary present, nothing else, ascending by name |
| Controllers.CitiesController.GetCity | CityInfo.API/Controllers/CitiesController.cs:119-132 | NotFound iff no saved city has the key; otherwise the full DTO iff the flag is set: the city's fields, and with the flag exactly the projections of its points, each once on a consistent store |
| Controllers.CitiesController.StoreNewCity | CityInfo.API/Controllers/CitiesController.cs:157-166 | the new city is appended to the Cities table with the next key and the input's values; points do not change |
| Controllers.CitiesController.SaveNewCity | CityInfo.API/Controllers/CitiesController.cs:159-164 | AddCity then Save append a city not yet in the store to the Cities table under the next city key; points do not change |
| Controllers.CitiesController.AddCity | CityInfo.API/Controllers/CitiesController.cs:136-169 | no body gives BadRequest; name = description gives BadRequest with the Description error and changes nothing; otherwise one city is appended with the next key, the body's name and the body's description, and Created returns its DTO with no points at the GetCity route; the points table, and so its attribute acceptability, is kept |
| Seeding.NewSeedGraphs | CityInfo.API/CityInfoContextExtensions.cs:28-66 | builds two new cities, A-köping and B-köping, with two new points each, carrying the start names and descriptions |
| Seeding.SeedPointsAcceptable | CityInfo.API/CityInfoContextExtensions.cs:36-63 | the four start points pass the attributes of the point DTOs, which the points table's columns repeat |
| Seeding.SeedEmptyStore | CityInfo.API/CityInfoContextExtensions.cs:28-71 | on a store without cities, the start cities and points become the tables, keyed from the counters in order, each point linked to its own city |
| Seeding.SaveGraphs | CityInfo.API/CityInfoContextExtensions.cs:69-71 | on a store without cities, AddRange and SaveChanges make the graphs' cities the Cities table and their points the points table, numbered in order, each point linked to its own city |
| Seeding.EnsureSeedDataForContext | CityInfo.API/CityInfoContextExtensions.cs:17-72 | a store with a city is left unchanged, so a second call (every start-up runs it) changes nothing; an empty store ends with exactly the two start cities and four start points, keyed from the counters, each point linked to its city, and all four points pass the attributes; a store whose points all passed them still has only such points; either way a city exists afterwards |

## Left out

- Routing, content negotiation, model binding from JSON, and the URL that `CreatedAtRoute` builds are left out. A missing or unreadable body is an absent `Option`. A created resource's location is the route name and its keys.
- Exception handling and logging are left out. This includes the try/catch in `GetPointsOfInterest` and every `_logger` call. Database errors that would make `SaveChanges` throw are also left out.
- The 500 branches after `Save` are unreachable, because `Save` always returns true. The model states this (`!r.ServerError?`) instead of adding a failure flag.
- `LocalMailService` configuration and its debug output are left out. The mail sink is the list of (subject, message) pairs sent.
- Database collation is left out. `OrderBy(c => c.Name)` is modelled as ordinal order on characters, with null names first.
- Services.SortByName: the model keeps equal names in table order (stable). The source does not promise an order for equal names.
- `CityForCreationDto` is not part of this model. Only the name ≠ description rule of `AddCity` is modelled, and no length rules are assumed for cities.
- The DTOs `CityDto`, `CityWithoutPointsOfInterestDto` and `PointOfInterestDto` are not part of this model. Their shapes come from the maps.
- `Database.Migrate()` is left out, and so is Entity Framework's relationship fix-up beyond what the handlers use. A city loaded without its points has an empty collection in the model.
- The in-memory `PointsOfInterests` collection of a city is modelled by the owner recorded for each added point, not as a list inside each city object.
- Deleting a city (cascade) is left out: no live handler deletes cities.
- The seeding methods and every handler require a store with no pending work (`NothingStaged`). Each request starts with a fresh context.
- Store.CityInfoContext.SaveChanges: the count it returns covers the Added and Deleted entries only. The Modified rows that PUT and PATCH write through tracked points are not counted, because the model does not keep the change tracker's original values. `Save` only compares the count with 0, so its result is unaffected.
- Store.CityInfoContext.SaveChanges: the model picks one numbering of new rows: gap-free, from the counters, in the order the entries were tracked. The keys come from SQL Server identity columns (City.cs:13, PointOfInterest.cs:13, Startup.cs:64), which promise only fresh, increasing keys: the identity cache and rolled-back inserts can leave gaps, and a multi-row insert need not be numbered in tracking order. The contracts that name a key from the counter (`StoreNewPoint`, `StoreNewCity`, `SaveNewCity`, `CitiesController.AddCity`, `Seeding.HoldsStartData`, `NumberCities`, `NumberPoints`) hold for that numbering only; uniqueness and freshness of keys, which the rest of the model relies on, hold for any.
- `DummyController`, `CitiesDataStore` and the commented-out "Version 1/2/2.1" code paths are left out: they are not live code.
- Controllers.CitiesController.AddCity: answers Created for every city whose name differs from its description, including a null name, a name longer than 50 UTF-16 units and a description longer than 200. The `Cities` table declares Name NOT NULL nvarchar(50) and Description nullable nvarchar(200) (City.cs:18-23), so for such a city the source's `SaveChanges` would throw. Database errors are not modelled, so the model does not capture that failure.
- JsonPatch.TargetOf: the patch library parses a path into segments and drops empty ones, so "name", "/name/" and "//name" also reach Name. The model accepts only "/name" and "/description" and their case variants. The library also matches property names with ordinal case-insensitive comparison over all of Unicode, while the model folds ASCII letters only.
- JsonPatch.MissingTargetMessage: the text of the error for a path without a target follows the wording of one version of the JSON Patch library. Other versions word it differently; only the key it is reported under matters to the handlers.
