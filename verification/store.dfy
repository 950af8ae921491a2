/**
 * The one database every repository works on: four independent collections,
 * each a sequence of documents in natural (insertion) order. The store has no
 * joins and no foreign keys; only the unique index on each primary key.
 */
module Store {
  import opened Entities
  import opened Collections

  class Database {
    var owners: seq<Owner>
    var properties: seq<Property>
    var images: seq<PropertyImage>
    var traces: seq<PropertyTrace>

    /** Every collection keeps its unique primary-key index, and no stored document has the empty id. */
    ghost predicate Valid()
      reads this
    {
      && WellKeyed(owners, OwnerKey)
      && WellKeyed(properties, PropertyKey)
      && WellKeyed(images, ImageKey)
      && WellKeyed(traces, TraceKey)
    }

    constructor ()
      ensures Valid()
      ensures owners == [] && properties == [] && images == [] && traces == []
    {
      owners, properties, images, traces := [], [], [], [];
    }
  }
}
