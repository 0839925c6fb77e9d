/**
 * The AutoMapper maps configured at start-up: entity to output DTO (a city
 * with or without its points, a point as (Id, Name, Description)), input DTO
 * to a new entity, update DTO onto an existing entity, and entity to update
 * DTO (the PATCH working copy). Each copies the fields the two shapes share.
 */
module Mapping {
  import opened Options
  import opened Models
  import opened Entities

  function ToPointOfInterestDto(p: PointOfInterest): PointOfInterestDto
    reads p
  {
    PointOfInterestDto(p.id, p.name, p.description)
  }

  /** A sequence of points mapped one by one, in order. */
  function ToPointOfInterestDtos(ps: seq<PointOfInterest>): (r: seq<PointOfInterestDto>)
    reads set p | p in ps
    ensures |r| == |ps|
    ensures forall i :: 0 <= i < |ps| ==> r[i] == ToPointOfInterestDto(ps[i])
    ensures forall p :: p in ps ==> ToPointOfInterestDto(p) in r
    ensures forall d :: d in r ==> exists p :: p in ps && d == ToPointOfInterestDto(p)
  {
    if ps == [] then [] else [ToPointOfInterestDto(ps[0])] + ToPointOfInterestDtos(ps[1..])
  }

  function ToCityWithoutPointsOfInterestDto(c: City): CityWithoutPointsOfInterestDto
    reads c
  {
    CityWithoutPointsOfInterestDto(c.id, c.name, c.description)
  }

  function ToCityWithoutPointsOfInterestDtos(cs: seq<City>): (r: seq<CityWithoutPointsOfInterestDto>)
    reads set c | c in cs
    ensures |r| == |cs|
    ensures forall i :: 0 <= i < |cs| ==> r[i] == ToCityWithoutPointsOfInterestDto(cs[i])
    ensures forall c :: c in cs ==> ToCityWithoutPointsOfInterestDto(c) in r
    ensures forall d :: d in r ==> exists c :: c in cs && d == ToCityWithoutPointsOfInterestDto(c)
  {
    if cs == [] then [] else [ToCityWithoutPointsOfInterestDto(cs[0])] + ToCityWithoutPointsOfInterestDtos(cs[1..])
  }

  /**
   * A city with its points: the city's fields as the map without points
   * gives them, and the points mapped one by one, in order.
   */
  function ToCityDto(g: CityGraph): (r: CityDto)
    reads g.city, set p | p in g.pointsOfInterest
    ensures CityWithoutPointsOfInterestDto(r.id, r.name, r.description) == ToCityWithoutPointsOfInterestDto(g.city)
    ensures |r.pointsOfInterest| == |g.pointsOfInterest|
    ensures forall i :: 0 <= i < |g.pointsOfInterest| ==> r.pointsOfInterest[i] == ToPointOfInterestDto(g.pointsOfInterest[i])
  {
    CityDto(g.city.id, g.city.name, g.city.description, ToPointOfInterestDtos(g.pointsOfInterest))
  }

  /**
   * Entity to update DTO: the working copy a patch is applied to. It
   * carries the Name and Description the output map shows for the entity.
   */
  function ToUpdateDto(p: PointOfInterest): (r: PointOfInterestForUpdateDto)
    reads p
    ensures r.name == ToPointOfInterestDto(p).name && r.description == ToPointOfInterestDto(p).description
  {
    PointOfInterestForUpdateDto(p.name, p.description)
  }

  /** `Mapper.Map<PointOfInterest>(creationDto)`: a new, unsaved entity carrying the input's fields. */
  method NewPointOfInterest(dto: PointOfInterestForCreationDto) returns (p: PointOfInterest)
    ensures fresh(p)
    ensures p.id == 0 && p.cityId == 0
    ensures ToUpdateDto(p) == PointOfInterestForUpdateDto(dto.name, dto.description)
  {
    p := new PointOfInterest(dto.name, dto.description);
  }

  /** `Mapper.Map<City>(cityForCreationDto)`: a new, unsaved city carrying the input's fields. */
  method NewCity(dto: CityForCreationDto) returns (c: City)
    ensures fresh(c)
    ensures c.id == 0 && c.name == dto.name && c.description == dto.description
  {
    c := new City(dto.name, dto.description);
  }

  /**
   * `Mapper.Map(updateDto, entity)`: overwrites Name and Description of the
   * tracked entity in place. Its identity and keys stay as they were, and
   * mapping the entity back gives the same DTO.
   */
  method MapOnto(dto: PointOfInterestForUpdateDto, p: PointOfInterest)
    modifies p`name, p`description
    ensures ToUpdateDto(p) == dto
    ensures ToPointOfInterestDto(p) == PointOfInterestDto(p.id, dto.name, dto.description)
    ensures p.id == old(p.id) && p.cityId == old(p.cityId)
  {
    p.name := dto.name;
    p.description := dto.description;
  }

  /** Mapping an entity to its update DTO and straight back leaves the entity as it was. */
  method UpdateDtoRoundTrip(p: PointOfInterest)
    modifies p`name, p`description
    ensures unchanged(p)
  {
    var dto := ToUpdateDto(p);
    MapOnto(dto, p);
  }
}
