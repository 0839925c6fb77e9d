/**
 * The database context the repository works on, as an explicit in-memory
 * store: the saved `Cities` and `PointsOfInterest` tables, and the change
 * tracker's pending work (entities added, points appended to a tracked city's
 * collection, points removed), which becomes visible only on `SaveChanges`.
 * Saving assigns identity keys from two counters and fixes up each new
 * point's `CityId` from the city whose collection holds it.
 */
module Store {
  import opened Sequences
  import opened Entities
  import opened Models

  class CityInfoContext {
    /** Saved rows of the Cities table, in insertion order. */
    var cities: seq<City>
    /** Saved rows of the PointsOfInterest table, in insertion order. */
    var points: seq<PointOfInterest>
    /** Cities in the Added state. */
    var addedCities: seq<City>
    /** Points in the Added state. */
    var addedPoints: seq<PointOfInterest>
    /** For each added point, the city whose `PointsOfInterests` collection holds it. */
    var owners: map<PointOfInterest, City>
    /** Saved points in the Deleted state. */
    var deletedPoints: seq<PointOfInterest>
    /** The next value of each identity column. */
    var nextCityId: int
    var nextPointId: int

    /**
     * The store's integrity: identity keys are positive, unique and below the
     * counters; every saved point refers to a saved city; pending entities
     * are not saved yet and each added point has an owner that is saved or
     * being added; only saved points can be deleted.
     */
    ghost predicate Valid()
      reads this, cities`id, points`id, points`cityId
    {
      && 1 <= nextCityId && 1 <= nextPointId
      && Distinct(cities) && Distinct(points)
      && (forall c :: c in cities ==> 1 <= c.id < nextCityId)
      && (forall c, d :: c in cities && d in cities && c != d ==> c.id != d.id)
      && (forall p :: p in points ==> 1 <= p.id < nextPointId)
      && (forall p, q :: p in points && q in points && p != q ==> p.id != q.id)
      && (forall p :: p in points ==> p.cityId in IdsOf(cities))
      && Distinct(addedCities) && (forall c :: c in addedCities ==> c !in cities)
      && Distinct(addedPoints) && (forall p :: p in addedPoints ==> p !in points)
      && (forall p :: p in addedPoints ==> p in owners && (owners[p] in cities || owners[p] in addedCities))
      && (forall p :: p in owners ==> p in addedPoints)
      && Distinct(deletedPoints) && (forall p :: p in deletedPoints ==> p in points)
    }

    predicate NothingStaged()
      reads this
    {
      addedCities == [] && addedPoints == [] && owners == map[] && deletedPoints == []
    }

    /** An empty database with both identity columns starting at 1. */
    constructor ()
      ensures Valid() && NothingStaged()
      ensures cities == [] && points == []
      ensures nextCityId == 1 && nextPointId == 1
    {
      cities := [];
      points := [];
      addedCities := [];
      addedPoints := [];
      owners := map[];
      deletedPoints := [];
      nextCityId := 1;
      nextPointId := 1;
    }

    /**
     * `Add(city)`: starts tracking a new city and, through its
     * `PointsOfInterests` collection, each of its points, all as Added.
     */
    method Add(g: CityGraph)
      requires Valid()
      requires g.city !in cities && g.city !in addedCities
      requires Distinct(g.pointsOfInterest)
      requires forall p :: p in g.pointsOfInterest ==> p !in points && p !in addedPoints
      modifies this
      ensures Valid()
      ensures addedCities == old(addedCities) + [g.city]
      ensures addedPoints == old(addedPoints) + g.pointsOfInterest
      ensures forall p :: p in old(owners) ==> p in owners && owners[p] == old(owners)[p]
      ensures forall p :: p in g.pointsOfInterest ==> p in owners && owners[p] == g.city
      ensures cities == old(cities) && points == old(points) && deletedPoints == old(deletedPoints)
      ensures nextCityId == old(nextCityId) && nextPointId == old(nextPointId)
    {
      DistinctConcat(addedCities, [g.city]);
      DistinctConcat(addedPoints, g.pointsOfInterest);
      addedCities := addedCities + [g.city];
      addedPoints := addedPoints + g.pointsOfInterest;
      owners := owners + map p | p in g.pointsOfInterest :: g.city;
    }

    /** `AddRange(cities)`: `Add` on each graph in turn. */
    method AddRange(gs: seq<CityGraph>)
      requires Valid()
      requires Distinct(CitiesOf(gs)) && Distinct(PointsOf(gs))
      requires forall c :: c in CitiesOf(gs) ==> c !in cities && c !in addedCities
      requires forall p :: p in PointsOf(gs) ==> p !in points && p !in addedPoints
      modifies this
      ensures Valid()
      ensures addedCities == old(addedCities) + CitiesOf(gs)
      ensures addedPoints == old(addedPoints) + PointsOf(gs)
      ensures forall p :: p in old(owners) ==> p in owners && owners[p] == old(owners)[p]
      ensures forall k, p :: 0 <= k < |gs| && p in gs[k].pointsOfInterest ==> p in owners && owners[p] == gs[k].city
      ensures cities == old(cities) && points == old(points) && deletedPoints == old(deletedPoints)
      ensures nextCityId == old(nextCityId) && nextPointId == old(nextPointId)
      decreases |gs|
    {
      if gs != [] {
        var g, rest := gs[0], gs[1..];
        DistinctSplit([g.city], CitiesOf(rest));
        DistinctSplit(g.pointsOfInterest, PointsOf(rest));
        Add(g);
        ghost var afterFirst := owners;
        AddRange(rest);
        ConcatAssoc(old(addedCities), [g.city], CitiesOf(rest));
        ConcatAssoc(old(addedPoints), g.pointsOfInterest, PointsOf(rest));
        forall k, p | 0 <= k < |gs| && p in gs[k].pointsOfInterest
          ensures p in owners && owners[p] == gs[k].city
        {
          if k == 0 {
            assert p in afterFirst && afterFirst[p] == g.city;
          } else {
            assert gs[k] == rest[k - 1];
          }
        }
      }
    }

    /**
     * `city.PointsOfInterests.Add(point)` on a tracked city: the change
     * tracker sees the new point in the collection and marks it Added.
     */
    method AddToCollection(city: City, p: PointOfInterest)
      requires Valid()
      requires city in cities || city in addedCities
      requires p !in points && p !in addedPoints
      modifies this
      ensures Valid()
      ensures addedPoints == old(addedPoints) + [p]
      ensures owners == old(owners)[p := city]
      ensures cities == old(cities) && points == old(points)
      ensures addedCities == old(addedCities) && deletedPoints == old(deletedPoints)
      ensures nextCityId == old(nextCityId) && nextPointId == old(nextPointId)
    {
      DistinctConcat(addedPoints, [p]);
      addedPoints := addedPoints + [p];
      owners := owners[p := city];
    }

    /** `Remove(point)` on a saved point: marks it Deleted (once). */
    method Remove(p: PointOfInterest)
      requires Valid()
      requires p in points
      modifies this
      ensures Valid()
      ensures p in deletedPoints
      ensures deletedPoints == old(deletedPoints) + (if p in old(deletedPoints) then [] else [p])
      ensures cities == old(cities) && points == old(points)
      ensures addedCities == old(addedCities) && addedPoints == old(addedPoints) && owners == old(owners)
      ensures nextCityId == old(nextCityId) && nextPointId == old(nextPointId)
    {
      if p !in deletedPoints {
        DistinctConcat(deletedPoints, [p]);
        deletedPoints := deletedPoints + [p];
      }
    }

    /**
     * `SaveChanges()`: writes the pending work and returns the number of
     * entries written. Deleted points leave the table; added cities get the
     * next city ids in order; added points get the next point ids in order
     * and the id of their owning city as `CityId`. Nothing else changes.
     */
    method SaveChanges() returns (entries: nat)
      requires Valid()
      modifies this, addedCities`id, addedPoints`id, addedPoints`cityId
      ensures Valid() && NothingStaged()
      ensures cities == old(cities) + old(addedCities)
      ensures points == Without(old(points), old(deletedPoints)) + old(addedPoints)
      ensures forall k :: 0 <= k < |old(addedCities)| ==> old(addedCities)[k].id == old(nextCityId) + k
      ensures forall k :: 0 <= k < |old(addedPoints)| ==> old(addedPoints)[k].id == old(nextPointId) + k
      ensures forall p :: p in old(addedPoints) ==> p.cityId == old(owners)[p].id
      ensures nextCityId == old(nextCityId) + |old(addedCities)| && nextPointId == old(nextPointId) + |old(addedPoints)|
      ensures entries == |old(addedCities)| + |old(addedPoints)| + |old(deletedPoints)|
    {
      entries := |addedCities| + |addedPoints| + |deletedPoints|;
      DeleteRows();
      InsertCities();
      InsertPoints();
    }

    /** The DELETE statements: points marked Deleted leave the table. */
    method DeleteRows()
      requires Valid()
      modifies this
      ensures Valid()
      ensures points == Without(old(points), old(deletedPoints)) && deletedPoints == []
      ensures cities == old(cities) && addedCities == old(addedCities)
      ensures addedPoints == old(addedPoints) && owners == old(owners)
      ensures nextCityId == old(nextCityId) && nextPointId == old(nextPointId)
    {
      points := Without(points, deletedPoints);
      deletedPoints := [];
    }

    /** The INSERTs into Cities: added cities are numbered and become rows. */
    method InsertCities()
      requires Valid()
      modifies this, addedCities`id
      ensures Valid()
      ensures cities == old(cities) + old(addedCities) && addedCities == []
      ensures forall k :: 0 <= k < |old(addedCities)| ==> old(addedCities)[k].id == old(nextCityId) + k
      ensures nextCityId == old(nextCityId) + |old(addedCities)|
      ensures points == old(points) && addedPoints == old(addedPoints) && owners == old(owners)
      ensures deletedPoints == old(deletedPoints) && nextPointId == old(nextPointId)
    {
      var newCities, c0 := addedCities, nextCityId;
      NumberCities(newCities, c0);
      cities := cities + newCities;
      nextCityId := c0 + |newCities|;
      addedCities := [];
      InsertCitiesKeepsValid(this);
    }

    /**
     * The INSERTs into PointsOfInterest, once every owner is a saved city:
     * added points are numbered, get their owner's key and become rows.
     */
    method InsertPoints()
      requires Valid() && addedCities == []
      modifies this, addedPoints`id, addedPoints`cityId
      ensures Valid() && NothingStaged()
      ensures points == old(points) + old(addedPoints)
      ensures forall k :: 0 <= k < |old(addedPoints)| ==> old(addedPoints)[k].id == old(nextPointId) + k
      ensures forall p :: p in old(addedPoints) ==> p.cityId == old(owners)[p].id
      ensures nextPointId == old(nextPointId) + |old(addedPoints)|
      ensures cities == old(cities) && nextCityId == old(nextCityId)
    {
      var newPoints, own, p0 := addedPoints, owners, nextPointId;
      NumberPoints(newPoints, p0, own);
      points := points + newPoints;
      nextPointId := p0 + |newPoints|;
      addedPoints := [];
      owners := map[];
      deletedPoints := [];
      InsertPointsKeepsValid(this);
    }
  }

  /** The integrity argument for `InsertCities`. */
  twostate lemma InsertCitiesKeepsValid(ctx: CityInfoContext)
    requires old(ctx.Valid())
    requires ctx.cities == old(ctx.cities) + old(ctx.addedCities)
    requires ctx.nextCityId == old(ctx.nextCityId) + |old(ctx.addedCities)| && ctx.addedCities == []
    requires ctx.points == old(ctx.points) && ctx.addedPoints == old(ctx.addedPoints) && ctx.owners == old(ctx.owners)
    requires ctx.deletedPoints == old(ctx.deletedPoints) && ctx.nextPointId == old(ctx.nextPointId)
    requires forall k :: 0 <= k < |old(ctx.addedCities)| ==> old(ctx.addedCities)[k].id == old(ctx.nextCityId) + k
    requires forall c :: c in old(ctx.cities) ==> unchanged(c)
    requires forall p :: p in ctx.points ==> unchanged(p)
    ensures ctx.Valid()
  {
    CitiesAppended(old(ctx.cities), old(ctx.addedCities), old(ctx.nextCityId));
  }

  /** The integrity argument for `InsertPoints`. */
  twostate lemma InsertPointsKeepsValid(ctx: CityInfoContext)
    requires old(ctx.Valid()) && old(ctx.addedCities) == []
    requires ctx.points == old(ctx.points) + old(ctx.addedPoints)
    requires ctx.nextPointId == old(ctx.nextPointId) + |old(ctx.addedPoints)|
    requires ctx.cities == old(ctx.cities) && ctx.nextCityId == old(ctx.nextCityId)
    requires ctx.NothingStaged()
    requires forall k :: 0 <= k < |old(ctx.addedPoints)| ==> old(ctx.addedPoints)[k].id == old(ctx.nextPointId) + k
    requires forall p :: p in old(ctx.addedPoints) ==> p.cityId == old(ctx.owners)[p].id
    requires forall p :: p in old(ctx.points) ==> unchanged(p)
    requires forall c :: c in ctx.cities ==> unchanged(c)
    ensures ctx.Valid()
  {
    PointsAppended(old(ctx.points), old(ctx.addedPoints), old(ctx.nextPointId));
    assert IdsOf(ctx.cities) == old(IdsOf(ctx.cities));
  }

  /**
   * Every saved point has a name and a description that pass the point
   * DTOs' attributes, so each row also fits the NOT NULL `nvarchar(50)`
   * Name and the nullable `nvarchar(200)` Description columns.
   */
  ghost predicate PointsAcceptable(ctx: CityInfoContext)
    reads ctx, ctx.points
  {
    forall p :: p in ctx.points ==> AcceptablePoint(p.name, p.description)
  }

  /** The same for the points waiting to be inserted. */
  ghost predicate PendingPointsAcceptable(ctx: CityInfoContext)
    reads ctx, ctx.addedPoints
  {
    forall p :: p in ctx.addedPoints ==> AcceptablePoint(p.name, p.description)
  }

  /** Every saved point belongs to a saved city, so a store without cities has no points. */
  lemma NoCityNoPoint(ctx: CityInfoContext)
    requires ctx.Valid()
    ensures ctx.cities == [] ==> ctx.points == []
  {
    if ctx.cities == [] {
      assert IdsOf(ctx.cities) == {};
      NoMemberMeansEmpty(ctx.points);
    }
  }

  /** Gives the cities consecutive identity keys starting at `first`, in order. */
  method NumberCities(cs: seq<City>, first: int)
    requires Distinct(cs)
    modifies cs`id
    ensures forall k :: 0 <= k < |cs| ==> cs[k].id == first + k
  {
    var i := 0;
    while i < |cs|
      invariant 0 <= i <= |cs|
      invariant forall k :: 0 <= k < i ==> cs[k].id == first + k
    {
      var c := cs[i];
      assert forall k :: 0 <= k < i ==> cs[k] != c;
      c.id := first + i;
      i := i + 1;
    }
  }

  /**
   * Gives the points consecutive identity keys starting at `first`, in order,
   * and sets each one's `CityId` to the key of the city that owns it.
   */
  method NumberPoints(ps: seq<PointOfInterest>, first: int, owner: map<PointOfInterest, City>)
    requires Distinct(ps)
    requires forall p :: p in ps ==> p in owner
    modifies ps`id, ps`cityId
    ensures forall k :: 0 <= k < |ps| ==> ps[k].id == first + k
    ensures forall p :: p in ps ==> p.cityId == owner[p].id
  {
    var j := 0;
    while j < |ps|
      invariant 0 <= j <= |ps|
      invariant forall k :: 0 <= k < j ==> ps[k].id == first + k && ps[k].cityId == owner[ps[k]].id
    {
      var p := ps[j];
      assert forall k :: 0 <= k < j ==> ps[k] != p;
      p.id := first + j;
      p.cityId := owner[p].id;
      j := j + 1;
    }
  }

  /** The ids of a list of cities. */
  function IdsOf(cs: seq<City>): set<int>
    reads cs`id
  {
    set c | c in cs :: c.id
  }

  /**
   * Appending cities numbered consecutively from `c0`, above every saved
   * key, keeps the city keys unique and below the new counter.
   */
  lemma CitiesAppended(oldCities: seq<City>, newCities: seq<City>, c0: int)
    requires Distinct(oldCities) && Distinct(newCities) && (forall c :: c in newCities ==> c !in oldCities)
    requires 1 <= c0
    requires forall c :: c in oldCities ==> 1 <= c.id < c0
    requires forall c, d :: c in oldCities && d in oldCities && c != d ==> c.id != d.id
    requires forall k :: 0 <= k < |newCities| ==> newCities[k].id == c0 + k
    ensures Distinct(oldCities + newCities)
    ensures forall c :: c in oldCities + newCities ==> 1 <= c.id < c0 + |newCities|
    ensures forall c, d :: c in oldCities + newCities && d in oldCities + newCities && c != d ==> c.id != d.id
    ensures IdsOf(oldCities) <= IdsOf(oldCities + newCities)
    ensures forall c :: c in newCities ==> c.id in IdsOf(oldCities + newCities)
  {
    DistinctConcat(oldCities, newCities);
    var cs := oldCities + newCities;
    forall c | c in newCities
      ensures c0 <= c.id < c0 + |newCities|
    {
      var k :| 0 <= k < |newCities| && newCities[k] == c;
    }
    forall c, d | c in newCities && d in newCities && c != d
      ensures c.id != d.id
    {
      var k :| 0 <= k < |newCities| && newCities[k] == c;
      var m :| 0 <= m < |newCities| && newCities[m] == d;
    }
  }

  /** The same argument for the points table, after the deleted rows are gone. */
  lemma PointsAppended(kept: seq<PointOfInterest>, newPoints: seq<PointOfInterest>, p0: int)
    requires Distinct(kept) && Distinct(newPoints) && (forall p :: p in newPoints ==> p !in kept)
    requires 1 <= p0
    requires forall p :: p in kept ==> 1 <= p.id < p0
    requires forall p, q :: p in kept && q in kept && p != q ==> p.id != q.id
    requires forall k :: 0 <= k < |newPoints| ==> newPoints[k].id == p0 + k
    ensures Distinct(kept + newPoints)
    ensures forall p :: p in kept + newPoints ==> 1 <= p.id < p0 + |newPoints|
    ensures forall p, q :: p in kept + newPoints && q in kept + newPoints && p != q ==> p.id != q.id
  {
    DistinctConcat(kept, newPoints);
    forall p | p in newPoints
      ensures p0 <= p.id < p0 + |newPoints|
    {
      var k :| 0 <= k < |newPoints| && newPoints[k] == p;
    }
    forall p, q | p in newPoints && q in newPoints && p != q
      ensures p.id != q.id
    {
      var k :| 0 <= k < |newPoints| && newPoints[k] == p;
      var m :| 0 <= m < |newPoints| && newPoints[m] == q;
    }
  }

  /** The cities of a list of city graphs, in order. */
  function CitiesOf(gs: seq<CityGraph>): (r: seq<City>)
    ensures |r| == |gs|
    ensures forall k :: 0 <= k < |gs| ==> r[k] == gs[k].city
  {
    if gs == [] then [] else [gs[0].city] + CitiesOf(gs[1..])
  }

  /** The points of a list of city graphs, graph after graph. */
  function PointsOf(gs: seq<CityGraph>): seq<PointOfInterest> {
    if gs == [] then [] else gs[0].pointsOfInterest + PointsOf(gs[1..])
  }

  /** Every point in the collection of one of the graphs is among their points. */
  lemma {:induction false} InPointsOf(gs: seq<CityGraph>, k: int, p: PointOfInterest)
    requires 0 <= k < |gs| && p in gs[k].pointsOfInterest
    ensures p in PointsOf(gs)
  {
    if k > 0 {
      assert gs[k] == gs[1..][k - 1];
      InPointsOf(gs[1..], k - 1, p);
    }
  }
}
