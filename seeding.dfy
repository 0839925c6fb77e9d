/**
 * `EnsureSeedDataForContext`: the start data the API puts into an empty
 * store, two cities with two points of interest each, added as one graph per
 * city and saved. A store that already holds a city is left as it is.
 */
module Seeding {
  import opened Options
  import opened Sequences
  import opened Text
  import opened Models
  import opened Entities
  import opened Store

  /** Whether a city carries the given name and description. */
  predicate CityCarries(c: City, name: string, description: string)
    reads c`name, c`description
  {
    c.name == Some(name) && c.description == Some(description)
  }

  /** Whether a point carries the given name and description. */
  predicate PointCarries(p: PointOfInterest, name: string, description: string)
    reads p`name, p`description
  {
    p.name == Some(name) && p.description == Some(description)
  }

  /**
   * The start data: the Cities table holds the two start cities in order,
   * keyed from `firstCityId`, and the points table their two points each,
   * city after city, keyed from `firstPointId` and each linked to its own
   * city.
   */
  ghost predicate HoldsStartData(context: CityInfoContext, firstCityId: int, firstPointId: int)
    reads context, context.cities, context.points
  {
    && |context.cities| == 2 && |context.points| == 4
    && CityCarries(context.cities[0], "A-köping", "Many A-type persons")
    && PointCarries(context.points[0], "A-person 1", "A very A-person")
    && PointCarries(context.points[1], "A-person 2", "A slighter less A-person")
    && CityCarries(context.cities[1], "B-köping", "Many B-type persons")
    && PointCarries(context.points[2], "B-person 1", "A very B-person")
    && PointCarries(context.points[3], "B-person 2", "A slighter less B-person")
    && (forall k :: 0 <= k < 2 ==> context.cities[k].id == firstCityId + k)
    && (forall i :: 0 <= i < 4 ==> context.points[i].id == firstPointId + i)
    && context.points[0].cityId == context.points[1].cityId == context.cities[0].id
    && context.points[2].cityId == context.points[3].cityId == context.cities[1].id
  }

  /**
   * The four start points pass the attributes the point DTOs carry, which
   * is what the points table's NOT NULL nvarchar(50) Name and nullable
   * nvarchar(200) Description columns accept: each name is ten characters
   * starting with a letter, each description at most 24 characters.
   */
  lemma SeedPointsAcceptable(ps: seq<PointOfInterest>)
    requires |ps| == 4
    requires PointCarries(ps[0], "A-person 1", "A very A-person")
    requires PointCarries(ps[1], "A-person 2", "A slighter less A-person")
    requires PointCarries(ps[2], "B-person 1", "A very B-person")
    requires PointCarries(ps[3], "B-person 2", "A slighter less B-person")
    ensures forall p :: p in ps ==> AcceptablePoint(p.name, p.description)
  {
    forall p | p in ps
      ensures AcceptablePoint(p.name, p.description)
    {
      var i :| 0 <= i < 4 && ps[i] == p;
      var name, description := p.name.value, p.description.value;
      assert |name| == 10 && (name[0] == 'A' || name[0] == 'B') && |description| <= 24 by {
        if i == 0 { assert "A-person 1"[0] == 'A'; }
        else if i == 1 { assert "A-person 2"[0] == 'A'; }
        else if i == 2 { assert "B-person 1"[0] == 'B'; }
        else { assert "B-person 2"[0] == 'B'; }
      }
      ShortTextsAcceptable(name, description);
    }
  }

  /**
   * The object graphs of the start data: two new cities, each with a
   * `PointsOfInterests` collection of two new points.
   */
  method NewSeedGraphs() returns (gs: seq<CityGraph>)
    ensures |gs| == 2 && |gs[0].pointsOfInterest| == 2 && |gs[1].pointsOfInterest| == 2
    ensures CityCarries(gs[0].city, "A-köping", "Many A-type persons")
    ensures PointCarries(gs[0].pointsOfInterest[0], "A-person 1", "A very A-person")
    ensures PointCarries(gs[0].pointsOfInterest[1], "A-person 2", "A slighter less A-person")
    ensures CityCarries(gs[1].city, "B-köping", "Many B-type persons")
    ensures PointCarries(gs[1].pointsOfInterest[0], "B-person 1", "A very B-person")
    ensures PointCarries(gs[1].pointsOfInterest[1], "B-person 2", "A slighter less B-person")
    ensures forall c :: c in CitiesOf(gs) ==> fresh(c)
    ensures forall p :: p in PointsOf(gs) ==> fresh(p)
    ensures Distinct(CitiesOf(gs)) && Distinct(PointsOf(gs))
    ensures PointsOf(gs) == gs[0].pointsOfInterest + gs[1].pointsOfInterest
  {
    var a1 := new PointOfInterest(Some("A-person 1"), Some("A very A-person"));
    var a2 := new PointOfInterest(Some("A-person 2"), Some("A slighter less A-person"));
    var a := new City(Some("A-köping"), Some("Many A-type persons"));
    var b1 := new PointOfInterest(Some("B-person 1"), Some("A very B-person"));
    var b2 := new PointOfInterest(Some("B-person 2"), Some("A slighter less B-person"));
    var b := new City(Some("B-köping"), Some("Many B-type persons"));
    gs := [CityGraph(a, [a1, a2]), CityGraph(b, [b1, b2])];
    assert CitiesOf(gs) == [a, b];
    assert PointsOf(gs) == [a1, a2] + [b1, b2] by {
      assert PointsOf(gs[1..]) == [b1, b2] + PointsOf([]);
    }
    assert [a1, a2] + [b1, b2] == [a1, a2, b1, b2];
  }

  /**
   * `AddRange` then `SaveChanges` on a store without cities: the cities of
   * the graphs become the Cities table and their points, graph after graph,
   * the points table; both are numbered in that order from the counters, and
   * every point is linked to the city whose collection holds it.
   */
  method SaveGraphs(context: CityInfoContext, gs: seq<CityGraph>)
    requires context.Valid() && context.NothingStaged() && context.cities == []
    requires Distinct(CitiesOf(gs)) && Distinct(PointsOf(gs))
    modifies context, (set c | c in CitiesOf(gs))`id, (set p | p in PointsOf(gs))`id, (set p | p in PointsOf(gs))`cityId
    ensures context.Valid() && context.NothingStaged()
    ensures context.cities == CitiesOf(gs) && context.points == PointsOf(gs)
    ensures forall k :: 0 <= k < |gs| ==> gs[k].city.id == old(context.nextCityId) + k
    ensures forall i :: 0 <= i < |PointsOf(gs)| ==> PointsOf(gs)[i].id == old(context.nextPointId) + i
    ensures forall k, p :: 0 <= k < |gs| && p in gs[k].pointsOfInterest ==> p.cityId == gs[k].city.id
  {
    NoCityNoPoint(context);
    context.AddRange(gs);
    assert context.addedCities == CitiesOf(gs) && context.addedPoints == PointsOf(gs);
    assert context.cities == [] && context.points == [] && context.deletedPoints == [];
    ghost var owners := context.owners;
    var entries := context.SaveChanges();
    forall k, p | 0 <= k < |gs| && p in gs[k].pointsOfInterest
      ensures p.cityId == gs[k].city.id
    {
      InPointsOf(gs, k, p);
      assert p.cityId == owners[p].id;
    }
  }

  /**
   * The seeding branch for a store without cities: the Cities table then
   * holds the two start cities in order, numbered from the city counter,
   * and the points table their two points each, city after city, numbered
   * from the point counter and each linked to its own city.
   */
  method SeedEmptyStore(context: CityInfoContext)
    requires context.Valid() && context.NothingStaged() && context.cities == []
    modifies context
    ensures context.Valid() && context.NothingStaged()
    ensures HoldsStartData(context, old(context.nextCityId), old(context.nextPointId))
  {
    var cities := NewSeedGraphs();
    SaveGraphs(context, cities);
    assert context.points == cities[0].pointsOfInterest + cities[1].pointsOfInterest;
  }

  /**
   * Seeds a store that has no city (see `SeedEmptyStore`); a store with a
   * city is not touched. Either way the store ends with at least one city,
   * so a second call changes nothing, and every point it holds passes the
   * attributes of the point DTOs if every point did before.
   */
  method EnsureSeedDataForContext(context: CityInfoContext)
    requires context.Valid() && context.NothingStaged()
    modifies context
    ensures context.Valid() && context.NothingStaged()
    ensures |context.cities| > 0
    ensures old(context.cities) != [] ==> unchanged(context)
    ensures old(context.cities) == [] ==> HoldsStartData(context, old(context.nextCityId), old(context.nextPointId))
    ensures old(context.cities) == [] ==> PointsAcceptable(context)
    ensures old(PointsAcceptable(context)) ==> PointsAcceptable(context)
  {
    if |context.cities| > 0 {
      return;
    }
    SeedEmptyStore(context);
    SeedPointsAcceptable(context.points);
  }
}
