/**
 * The repository over the PropertyTraces collection: the sale history of the
 * properties. It offers no update and no delete, and does not check that the
 * property a trace points at exists.
 */
module PropertyTraces {
  import opened Entities
  import opened Collections
  import opened Store

  const TraceNotFound := ApiError(StatusNotFound, "Property trace not found")
  const TraceConflict := ApiError(StatusConflict, "A property trace with this ID already exists")

  class PropertyTraceRepository {
    const db: Database

    constructor (db: Database)
      ensures this.db == db
    {
      this.db := db;
    }

    /** The traces of one property, in collection order. */
    method GetByPropertyId(propertyId: Id) returns (r: seq<PropertyTrace>)
      ensures r == Filter(db.traces, TraceProperty, propertyId, true)
      ensures forall t | t in r :: t in db.traces && t.propertyId == propertyId
      ensures forall t | t in db.traces && t.propertyId == propertyId :: t in r
    {
      r := Filter(db.traces, TraceProperty, propertyId, true);
    }

    method GetById(id: Id) returns (r: Result<PropertyTrace>)
      ensures r.Ok? <==> HasKey(db.traces, TraceKey, id)
      ensures r.Ok? ==> r.value in db.traces && r.value.id == id
      ensures r.Err? ==> r.error == TraceNotFound
    {
      var trace := FindFirst(db.traces, TraceKey, id);
      if trace.None? {
        return Err(TraceNotFound);
      }
      r := Ok(trace.value);
    }

    /**
     * Stamps the creation time, assigns a fresh id when the id is empty, and
     * appends. Every earlier trace stays where it was, unchanged.
     */
    method Create(trace: PropertyTrace, now: Time) returns (stamped: PropertyTrace, r: Result<PropertyTrace>)
      requires db.Valid()
      modifies db`traces
      ensures db.Valid()
      ensures old(db.traces) <= db.traces
      ensures stamped == trace.(id := stamped.id, createdAt := now)
      ensures trace.id != EmptyId ==> stamped.id == trace.id
      ensures trace.id == EmptyId ==> stamped.id != EmptyId && !HasKey(old(db.traces), TraceKey, stamped.id)
      ensures HasKey(old(db.traces), TraceKey, stamped.id) ==>
        r == Err(TraceConflict) && db.traces == old(db.traces)
      ensures !HasKey(old(db.traces), TraceKey, stamped.id) ==>
        r == Ok(stamped) && db.traces == old(db.traces) + [stamped]
    {
      stamped := trace.(createdAt := now);
      if stamped.id == EmptyId {
        stamped := stamped.(id := FreshKey(db.traces, TraceKey));
      }
      var inserted := InsertOne(db.traces, TraceKey, stamped);
      if inserted.None? {
        return stamped, Err(TraceConflict);
      }
      db.traces := inserted.value;
      r := Ok(stamped);
    }
  }
}
