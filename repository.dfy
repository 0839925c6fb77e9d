/**
 * `CityInfoRepository`, the repository the handlers talk to, over the store
 * of module `Store`, and the local mail service the DELETE handler reports to.
 * The queries are read-only functions of the saved tables; `AddCity`,
 * `AddPointOfInterestForCity` and `DeletePointOfInterest` only stage work in
 * the context, and `Save` flushes it.
 */
module Services {
  import opened Options
  import opened Text
  import opened Sequences
  import opened Entities
  import opened Store
  import opened Models

  // ---------------------------------------------------------------------------
  // The LINQ expressions the queries are made of.
  // ---------------------------------------------------------------------------

  /** `cities.FirstOrDefault(c => c.Id == id)`: the first city with that key, if any. */
  function FindCity(cs: seq<City>, id: int): (r: Option<City>)
    reads cs`id
    ensures r.Some? <==> exists c :: c in cs && c.id == id
    ensures r.Some? ==> r.value in cs && r.value.id == id
    ensures r.Some? ==> exists k :: 0 <= k < |cs| && cs[k] == r.value && forall j :: 0 <= j < k ==> cs[j].id != id
  {
    if cs == [] then None
    else if cs[0].id == id then Some(cs[0])
    else
      var r := FindCity(cs[1..], id);
      assert forall c :: c in cs[1..] ==> c in cs;
      assert forall c :: c in cs && c != cs[0] ==> c in cs[1..];
      if r.Some? then
        var k :| 0 <= k < |cs[1..]| && cs[1..][k] == r.value && forall j :: 0 <= j < k ==> cs[1..][j].id != id;
        assert cs[k + 1] == r.value && forall j :: 0 <= j < k + 1 ==> cs[j].id != id;
        r
      else r
  }

  /** `points.Where(p => p.CityId == cityId)`: the points of one city, in table order. */
  function PointsOfCity(ps: seq<PointOfInterest>, cityId: int): (r: seq<PointOfInterest>)
    reads ps`cityId
    ensures forall p :: p in r ==> p in ps && p.cityId == cityId
    ensures forall p :: p in ps && p.cityId == cityId ==> p in r
    ensures |r| <= |ps|
    ensures Distinct(ps) ==> Distinct(r)
  {
    if ps == [] then []
    else
      var rest := PointsOfCity(ps[1..], cityId);
      assert forall p :: p in ps && p != ps[0] ==> p in ps[1..];
      assert Distinct(ps) ==> Distinct(ps[1..]) && ps[0] !in ps[1..] by {
        if Distinct(ps) {
          DistinctSplit([ps[0]], ps[1..]);
          assert ps == [ps[0]] + ps[1..];
        }
      }
      if ps[0].cityId == cityId then
        assert Distinct(ps) ==> Distinct([ps[0]] + rest) by {
          if Distinct(ps) { DistinctConcat([ps[0]], rest); }
        }
        [ps[0]] + rest
      else
        rest
  }

  /** `points.FirstOrDefault(p => p.CityId == cityId && p.Id == id)`. */
  function FindPoint(ps: seq<PointOfInterest>, cityId: int, id: int): (r: Option<PointOfInterest>)
    reads ps`id, ps`cityId
    ensures r.Some? <==> exists p :: p in ps && p.cityId == cityId && p.id == id
    ensures r.Some? ==> r.value in ps && r.value.cityId == cityId && r.value.id == id
  {
    if ps == [] then None
    else if ps[0].cityId == cityId && ps[0].id == id then Some(ps[0])
    else
      assert forall p :: p in ps && p != ps[0] ==> p in ps[1..];
      FindPoint(ps[1..], cityId, id)
  }

  /** Ascending by name (`OrderBy(c => c.Name)`), null names first. */
  ghost predicate SortedByName(cs: seq<City>)
    reads cs
  {
    forall i, j :: 0 <= i < j < |cs| ==> NameLessOrEqual(cs[i].name, cs[j].name)
  }

  /** Puts `c` in front of the first city it does not follow by name. */
  function InsertByName(c: City, sorted: seq<City>): (r: seq<City>)
    reads c, sorted
    requires SortedByName(sorted)
    ensures multiset(r) == multiset(sorted) + multiset{c}
    ensures forall x :: x in r ==> x == c || x in sorted
    ensures SortedByName(r)
  {
    if sorted == [] then [c]
    else if NameLessOrEqual(c.name, sorted[0].name) then
      FirstBelowAll(c, sorted);
      [c] + sorted
    else
      var rest := InsertByName(c, sorted[1..]);
      assert sorted == [sorted[0]] + sorted[1..];
      NameTotal(c.name, sorted[0].name);
      HeadBelowInsert(c, sorted, rest);
      [sorted[0]] + rest
  }

  /** A city not above the head of a sorted list can go in front of it. */
  lemma FirstBelowAll(c: City, sorted: seq<City>)
    requires SortedByName(sorted) && sorted != []
    requires NameLessOrEqual(c.name, sorted[0].name)
    ensures SortedByName([c] + sorted)
  {
    forall i, j | 0 <= i < j < |[c] + sorted|
      ensures NameLessOrEqual(([c] + sorted)[i].name, ([c] + sorted)[j].name)
    {
      if i == 0 && j > 1 { NameTransitive(c.name, sorted[0].name, sorted[j - 1].name); }
    }
  }

  /** The head of a sorted list stays in front when a city above it is inserted into its tail. */
  lemma HeadBelowInsert(c: City, sorted: seq<City>, rest: seq<City>)
    requires SortedByName(sorted) && sorted != [] && SortedByName(rest)
    requires NameLessOrEqual(sorted[0].name, c.name)
    requires multiset(rest) == multiset(sorted[1..]) + multiset{c}
    ensures SortedByName([sorted[0]] + rest)
  {
    forall j | 0 <= j < |rest| ensures NameLessOrEqual(sorted[0].name, rest[j].name) {
      assert rest[j] in multiset(rest);
      if rest[j] != c {
        assert rest[j] in multiset(sorted[1..]);
        var k :| 0 <= k < |sorted[1..]| && sorted[1..][k] == rest[j];
        assert sorted[k + 1] == rest[j];
      }
    }
    forall i, j | 0 <= i < j < |[sorted[0]] + rest|
      ensures NameLessOrEqual(([sorted[0]] + rest)[i].name, ([sorted[0]] + rest)[j].name)
    {
      if i > 0 { assert ([sorted[0]] + rest)[i] == rest[i - 1]; }
      assert ([sorted[0]] + rest)[j] == rest[j - 1];
    }
  }

  /**
   * Insertion sort by name. A city is inserted before the cities with an
   * equal name, so cities with equal names keep their table order, as
   * the stable `OrderBy` keeps them.
   */
  function SortByName(cs: seq<City>): (r: seq<City>)
    reads set x | x in cs
    ensures multiset(r) == multiset(cs)
    ensures forall x :: x in r ==> x in cs
    ensures SortedByName(r)
  {
    if cs == [] then []
    else
      var tail := cs[1..];
      assert cs == [cs[0]] + tail;
      assert forall x :: x in tail ==> x in cs;
      var rest := SortByName(tail);
      assert multiset(cs) == multiset(tail) + multiset{cs[0]};
      InsertByName(cs[0], rest)
  }

  // ---------------------------------------------------------------------------
  // The repository.
  // ---------------------------------------------------------------------------

  class CityInfoRepository {
    const context: CityInfoContext

    constructor (context: CityInfoContext)
      ensures this.context == context
    {
      this.context := context;
    }

    /** All saved cities, ascending by name. */
    function GetCities(): (r: seq<City>)
      reads context, set c | c in context.cities
      ensures multiset(r) == multiset(context.cities)
      ensures forall c :: c in r ==> c in context.cities
      ensures forall c :: c in context.cities ==> c in r
      ensures SortedByName(r)
    {
      var r := SortByName(context.cities);
      assert forall c :: c in context.cities ==> c in r by {
        forall c | c in context.cities
          ensures c in r
        {
          assert c in multiset(context.cities);
        }
      }
      r
    }

    /**
     * The saved city with key `cityId`, if any; with the include flag its
     * saved points are loaded into the graph, otherwise the graph has none.
     */
    function GetCity(cityId: int, includePointsOfInterest: bool): (r: Option<CityGraph>)
      reads context, context.cities`id, context.points`cityId
      ensures r.Some? <==> CityExists(cityId)
      ensures r.Some? ==> r.value.city in context.cities && r.value.city.id == cityId
      ensures r.Some? && includePointsOfInterest ==>
                (forall p :: p in r.value.pointsOfInterest ==> p in context.points && p.cityId == cityId)
                && (forall p :: p in context.points && p.cityId == cityId ==> p in r.value.pointsOfInterest)
      ensures r.Some? && includePointsOfInterest && Distinct(context.points) ==> Distinct(r.value.pointsOfInterest)
      ensures r.Some? && !includePointsOfInterest ==> r.value.pointsOfInterest == []
    {
      match FindCity(context.cities, cityId)
      case None => None
      case Some(c) => Some(CityGraph(c, if includePointsOfInterest then PointsOfCity(context.points, cityId) else []))
    }

    /** The saved points whose `CityId` is `cityId` (none for an absent city). */
    function GetPointsOfInterestForCity(cityId: int): (r: seq<PointOfInterest>)
      reads context, context.points`cityId
      ensures forall p :: p in r ==> p in context.points && p.cityId == cityId
      ensures forall p :: p in context.points && p.cityId == cityId ==> p in r
      ensures Distinct(context.points) ==> Distinct(r)
    {
      PointsOfCity(context.points, cityId)
    }

    /** The saved point with key `pointOfInterestId`, provided it belongs to city `cityId`. */
    function GetPointOfInterestForCity(cityId: int, pointOfInterestId: int): (r: Option<PointOfInterest>)
      reads context, context.points`id, context.points`cityId
      ensures r.Some? <==> exists p :: p in context.points && p.cityId == cityId && p.id == pointOfInterestId
      ensures r.Some? ==> r.value in context.points && r.value.cityId == cityId && r.value.id == pointOfInterestId
    {
      FindPoint(context.points, cityId, pointOfInterestId)
    }

    /** Whether a saved city has key `cityId`. */
    predicate CityExists(cityId: int): (r: bool)
      reads context, context.cities`id
      ensures r <==> exists c :: c in context.cities && c.id == cityId
    {
      FindCity(context.cities, cityId).Some?
    }

    /**
     * Appends a new point to the collection of the saved city `cityId`. The
     * city is looked up without its points and dereferenced, so it must exist.
     */
    method AddPointOfInterestForCity(cityId: int, pointOfInterest: PointOfInterest)
      requires context.Valid()
      requires CityExists(cityId)
      requires pointOfInterest !in context.points && pointOfInterest !in context.addedPoints
      modifies context
      ensures context.Valid() && CityExists(cityId)
      ensures context.addedPoints == old(context.addedPoints) + [pointOfInterest]
      ensures context.owners == old(context.owners)[pointOfInterest := FindCity(context.cities, cityId).value]
      ensures context.cities == old(context.cities) && context.points == old(context.points)
      ensures context.addedCities == old(context.addedCities) && context.deletedPoints == old(context.deletedPoints)
      ensures context.nextCityId == old(context.nextCityId) && context.nextPointId == old(context.nextPointId)
      ensures old(PointsAcceptable(context)) ==> PointsAcceptable(context)
      ensures old(PendingPointsAcceptable(context)) && AcceptablePoint(pointOfInterest.name, pointOfInterest.description) ==>
                PendingPointsAcceptable(context)
    {
      var city := GetCity(cityId, false).value.city;
      context.AddToCollection(city, pointOfInterest);
    }

    /** Starts tracking a new city (with an empty points collection) as Added. */
    method AddCity(city: City)
      requires context.Valid()
      requires city !in context.cities && city !in context.addedCities
      modifies context
      ensures context.Valid()
      ensures context.addedCities == old(context.addedCities) + [city]
      ensures context.cities == old(context.cities) && context.points == old(context.points)
      ensures context.addedPoints == old(context.addedPoints) && context.owners == old(context.owners)
      ensures context.deletedPoints == old(context.deletedPoints)
      ensures context.nextCityId == old(context.nextCityId) && context.nextPointId == old(context.nextPointId)
      ensures old(PointsAcceptable(context)) ==> PointsAcceptable(context)
      ensures old(PendingPointsAcceptable(context)) ==> PendingPointsAcceptable(context)
    {
      context.Add(CityGraph(city, []));
      assert context.owners == old(context.owners);
    }

    /** Marks a saved point Deleted; it leaves the table on the next `Save`. */
    method DeletePointOfInterest(pointOfInterest: PointOfInterest)
      requires context.Valid()
      requires pointOfInterest in context.points
      modifies context
      ensures context.Valid()
      ensures pointOfInterest in context.deletedPoints
      ensures context.deletedPoints == old(context.deletedPoints)
                + (if pointOfInterest in old(context.deletedPoints) then [] else [pointOfInterest])
      ensures context.cities == old(context.cities) && context.points == old(context.points)
      ensures context.addedCities == old(context.addedCities) && context.addedPoints == old(context.addedPoints)
      ensures context.owners == old(context.owners)
      ensures context.nextCityId == old(context.nextCityId) && context.nextPointId == old(context.nextPointId)
      ensures old(PointsAcceptable(context)) ==> PointsAcceptable(context)
      ensures old(PendingPointsAcceptable(context)) ==> PendingPointsAcceptable(context)
    {
      context.Remove(pointOfInterest);
    }

    /**
     * `SaveChanges() >= 0`: flushes the staged work and reports success. The
     * count of written entries is never negative, so the result is always true.
     */
    method Save() returns (ok: bool)
      requires context.Valid()
      modifies context, context.addedCities`id, context.addedPoints`id, context.addedPoints`cityId
      ensures ok
      ensures context.Valid() && context.NothingStaged()
      ensures context.cities == old(context.cities) + old(context.addedCities)
      ensures context.points == Without(old(context.points), old(context.deletedPoints)) + old(context.addedPoints)
      ensures forall k :: 0 <= k < |old(context.addedCities)| ==>
                old(context.addedCities)[k].id == old(context.nextCityId) + k
      ensures forall k :: 0 <= k < |old(context.addedPoints)| ==>
                old(context.addedPoints)[k].id == old(context.nextPointId) + k
      ensures forall p :: p in old(context.addedPoints) ==> p.cityId == old(context.owners)[p].id
      ensures context.nextCityId == old(context.nextCityId) + |old(context.addedCities)|
      ensures context.nextPointId == old(context.nextPointId) + |old(context.addedPoints)|
      ensures old(PointsAcceptable(context)) && old(PendingPointsAcceptable(context)) ==> PointsAcceptable(context)
    {
      var entries := context.SaveChanges();
      ok := entries >= 0;
    }
  }

  /**
   * With the store's keys unique, the point a lookup finds is the only saved
   * point with that key, and it is found only under its own city.
   */
  lemma FoundPointIsTheKeyedPoint(ctx: CityInfoContext, cityId: int, id: int, p: PointOfInterest)
    requires ctx.Valid()
    requires p in ctx.points && p.id == id
    ensures FindPoint(ctx.points, cityId, id) == (if p.cityId == cityId then Some(p) else None)
  {
    var r := FindPoint(ctx.points, cityId, id);
    if r.Some? {
      assert r.value.id == p.id;
    }
  }

  // ---------------------------------------------------------------------------
  // The mail sink.
  // ---------------------------------------------------------------------------

  datatype Mail = Mail(subject: string, message: string)

  /** `LocalMailService`: the mails it was asked to send, oldest first. */
  class LocalMailService {
    var sent: seq<Mail>

    constructor ()
      ensures sent == []
    {
      sent := [];
    }

    method Send(subject: string, message: string)
      modifies this
      ensures sent == old(sent) + [Mail(subject, message)]
    {
      sent := sent + [Mail(subject, message)];
    }
  }
}
