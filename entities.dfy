/**
 * The two persisted entities. Both are objects: the store writes their ids
 * when it saves them, and the PUT and PATCH handlers overwrite a point's
 * Name and Description in place.
 */
module Entities {
  import opened Options

  class City {
    /** Identity key, generated by the store on save; 0 until then. */
    var id: int
    var name: Option<string>
    var description: Option<string>

    constructor (name: Option<string>, description: Option<string>)
      ensures this.id == 0 && this.name == name && this.description == description
    {
      this.id := 0;
      this.name := name;
      this.description := description;
    }
  }

  class PointOfInterest {
    /** Identity key, generated by the store on save; 0 until then. */
    var id: int
    /** Foreign key of the owning city, fixed up by the store on save. */
    var cityId: int
    var name: Option<string>
    var description: Option<string>

    constructor (name: Option<string>, description: Option<string>)
      ensures this.id == 0 && this.cityId == 0 && this.name == name && this.description == description
    {
      this.id := 0;
      this.cityId := 0;
      this.name := name;
      this.description := description;
    }
  }

  /**
   * A city together with a `PointsOfInterests` collection: the points a new
   * city is added with, or the points a query loaded for it.
   */
  datatype CityGraph = CityGraph(city: City, pointsOfInterest: seq<PointOfInterest>)
}
