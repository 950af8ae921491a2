/**
 * The repository over the Properties collection. Because the store cannot
 * join, it attaches each property's owner, images and traces itself; because
 * the store has no foreign keys, it checks on create and update that the
 * referenced owner exists, and deletes a property's images and traces before
 * the property.
 */
module Properties {
  import opened Entities
  import opened Collections
  import opened Store
  import opened Owners

  const PropertyNotFound := ApiError(StatusNotFound, "Property not found")
  const PropertyConflict := ApiError(StatusConflict, "A property with this ID already exists")
  const InvalidPropertyId := ApiError(StatusBadRequest, "Invalid property ID")

  /**
   * A generated property id: one past the largest id among the properties and
   * among the property ids images and traces reference, so that, like a
   * never-repeated ObjectId, no stored image or trace already points at it.
   */
  function FreshPropertyId(properties: seq<Property>, images: seq<PropertyImage>, traces: seq<PropertyTrace>): (id: Id)
    ensures id != EmptyId
    ensures !HasKey(properties, PropertyKey, id)
    ensures forall i | i in images :: i.propertyId != id
    ensures forall t | t in traces :: t.propertyId != id
  {
    var m, n, k := MaxKey(properties, PropertyKey), MaxKey(images, ImageProperty), MaxKey(traces, TraceProperty);
    var top := if m < n then n else m;
    (if top < k then k else top) + 1
  }

  /**
   * The manual join: the owner with id `p.ownerId` (None when there is none),
   * and the images and traces whose property id is `p.id`, in collection order.
   * A missing owner and missing children are not errors.
   */
  function Attach(p: Property, owners: seq<Owner>, images: seq<PropertyImage>, traces: seq<PropertyTrace>): (d: PropertyDetails)
    ensures d.property == p
    ensures d.owner.None? <==> !HasKey(owners, OwnerKey, p.ownerId)
    ensures d.owner.Some? ==> d.owner.value in owners && d.owner.value.id == p.ownerId
    ensures forall i | i in d.images :: i in images && i.propertyId == p.id
    ensures forall i | i in images && i.propertyId == p.id :: i in d.images
    ensures forall t | t in d.traces :: t in traces && t.propertyId == p.id
    ensures forall t | t in traces && t.propertyId == p.id :: t in d.traces
  {
    PropertyDetails(
      p,
      FindFirst(owners, OwnerKey, p.ownerId),
      Filter(images, ImageProperty, p.id, true),
      Filter(traces, TraceProperty, p.id, true))
  }

  /** Under the owners' unique index, the attached owner is the one the property references. */
  lemma AttachFindsOwner(p: Property, owners: seq<Owner>, images: seq<PropertyImage>, traces: seq<PropertyTrace>, o: Owner)
    requires UniqueKeys(owners, OwnerKey)
    requires o in owners && o.id == p.ownerId
    ensures Attach(p, owners, images, traces).owner == Some(o)
  {
    var found := Attach(p, owners, images, traces).owner.value;
    var i :| 0 <= i < |owners| && owners[i] == o;
    var j :| 0 <= j < |owners| && owners[j] == found;
    assert OwnerKey(owners[i]) == OwnerKey(owners[j]);
  }

  /**
   * Images are attached in insertion order: appending an image of `p` appends
   * it to the attached images, and appending any other image changes nothing.
   */
  lemma {:induction false} AttachAfterImageAppend(p: Property, owners: seq<Owner>, images: seq<PropertyImage>, traces: seq<PropertyTrace>, image: PropertyImage)
    ensures image.propertyId == p.id ==>
      Attach(p, owners, images + [image], traces).images == Attach(p, owners, images, traces).images + [image]
    ensures image.propertyId != p.id ==>
      Attach(p, owners, images + [image], traces) == Attach(p, owners, images, traces)
  {
    FilterAppend(images, [image], ImageProperty, p.id, true);
    assert [image][1..] == [];
  }

  /** Likewise for traces. */
  lemma {:induction false} AttachAfterTraceAppend(p: Property, owners: seq<Owner>, images: seq<PropertyImage>, traces: seq<PropertyTrace>, trace: PropertyTrace)
    ensures trace.propertyId == p.id ==>
      Attach(p, owners, images, traces + [trace]).traces == Attach(p, owners, images, traces).traces + [trace]
    ensures trace.propertyId != p.id ==>
      Attach(p, owners, images, traces + [trace]) == Attach(p, owners, images, traces)
  {
    FilterAppend(traces, [trace], TraceProperty, p.id, true);
    assert [trace][1..] == [];
  }

  /**
   * A newly stored owner that the property does not reference leaves the
   * property's join as it was: a freshly generated owner id is attached to no
   * existing property.
   */
  lemma AttachAfterOwnerAppend(p: Property, owners: seq<Owner>, images: seq<PropertyImage>, traces: seq<PropertyTrace>, o: Owner)
    requires o.id != p.ownerId
    ensures Attach(p, owners + [o], images, traces) == Attach(p, owners, images, traces)
  {
    IndexOfAppendOther(owners, OwnerKey, o, p.ownerId);
  }

  /** A property that no image and no trace references has nothing attached. */
  lemma AttachUnreferencedIsBare(p: Property, owners: seq<Owner>, images: seq<PropertyImage>, traces: seq<PropertyTrace>)
    requires forall i | i in images :: i.propertyId != p.id
    requires forall t | t in traces :: t.propertyId != p.id
    ensures Attach(p, owners, images, traces).images == []
    ensures Attach(p, owners, images, traces).traces == []
  {
    assert forall k | 0 <= k < |images| :: images[k] in images;
    FilterKeepsAll(images, ImageProperty, p.id, false);
    FilterPartition(images, ImageProperty, p.id);
    assert forall k | 0 <= k < |traces| :: traces[k] in traces;
    FilterKeepsAll(traces, TraceProperty, p.id, false);
    FilterPartition(traces, TraceProperty, p.id);
  }

  /** After the cascade, a property with the deleted id has nothing attached. */
  lemma CascadeLeavesNoChildren(p: Property, owners: seq<Owner>, images: seq<PropertyImage>, traces: seq<PropertyTrace>)
    ensures Attach(p, owners, DeleteMany(images, ImageProperty, p.id).docs, DeleteMany(traces, TraceProperty, p.id).docs).images == []
    ensures Attach(p, owners, DeleteMany(images, ImageProperty, p.id).docs, DeleteMany(traces, TraceProperty, p.id).docs).traces == []
  {
    FilterAfterDeleteMany(images, ImageProperty, p.id);
    FilterAfterDeleteMany(traces, TraceProperty, p.id);
  }

  class PropertyRepository {
    const db: Database

    constructor (db: Database)
      ensures this.db == db
    {
      this.db := db;
    }

    /** Every property in collection order, each with its owner, images and traces attached. */
    method GetAll() returns (r: seq<PropertyDetails>)
      ensures |r| == |db.properties|
      ensures forall k | 0 <= k < |r| :: r[k] == Attach(db.properties[k], db.owners, db.images, db.traces)
    {
      var properties := db.properties;
      r := [];
      var k := 0;
      while k < |properties|
        invariant 0 <= k <= |properties| && |r| == k
        invariant forall j | 0 <= j < k :: r[j] == Attach(properties[j], db.owners, db.images, db.traces)
      {
        var property := properties[k];
        var owner := FindFirst(db.owners, OwnerKey, property.ownerId);
        var images := Filter(db.images, ImageProperty, property.id, true);
        var traces := Filter(db.traces, TraceProperty, property.id, true);
        r := r + [PropertyDetails(property, owner, images, traces)];
        k := k + 1;
      }
    }

    /** The property with that id, with its owner, images and traces attached. */
    method GetById(id: Id) returns (r: Result<PropertyDetails>)
      ensures r.Ok? <==> HasKey(db.properties, PropertyKey, id)
      ensures r.Ok? ==> r.value.property in db.properties && r.value.property.id == id
      ensures r.Ok? ==> r.value == Attach(r.value.property, db.owners, db.images, db.traces)
      ensures r.Err? ==> r.error == PropertyNotFound
    {
      var found := FindFirst(db.properties, PropertyKey, id);
      if found.None? {
        return Err(PropertyNotFound);
      }
      var property := found.value;
      var images := Filter(db.images, ImageProperty, id, true);
      var traces := Filter(db.traces, TraceProperty, id, true);
      var owner := FindFirst(db.owners, OwnerKey, property.ownerId);
      r := Ok(PropertyDetails(property, owner, images, traces));
    }

    /** The properties of one owner, in collection order, with nothing attached. */
    method GetByOwnerId(ownerId: Id) returns (r: seq<Property>)
      ensures r == Filter(db.properties, PropertyOwner, ownerId, true)
      ensures forall p | p in r :: p in db.properties && p.ownerId == ownerId
      ensures forall p | p in db.properties && p.ownerId == ownerId :: p in r
    {
      r := Filter(db.properties, PropertyOwner, ownerId, true);
    }

    /**
     * Stamps the creation time and assigns a fresh id when the id is empty
     * (both visible on the argument even when the call fails), then requires
     * the referenced owner to exist, then appends.
     */
    method Create(property: Property, now: Time) returns (stamped: Property, r: Result<Property>)
      requires db.Valid()
      modifies db`properties
      ensures db.Valid()
      ensures db.owners == old(db.owners) && db.images == old(db.images) && db.traces == old(db.traces)
      ensures stamped == property.(id := stamped.id, createdAt := now)
      ensures property.id != EmptyId ==> stamped.id == property.id
      ensures property.id == EmptyId ==>
        stamped.id != EmptyId && !HasKey(old(db.properties), PropertyKey, stamped.id)
      ensures property.id == EmptyId ==>
        (forall i | i in db.images :: i.propertyId != stamped.id)
        && (forall t | t in db.traces :: t.propertyId != stamped.id)
      ensures property.id == EmptyId && r.Ok? ==>
        Attach(stamped, db.owners, db.images, db.traces).images == []
        && Attach(stamped, db.owners, db.images, db.traces).traces == []
      ensures !HasKey(db.owners, OwnerKey, property.ownerId) ==>
        r == Err(OwnerNotFound) && db.properties == old(db.properties)
      ensures HasKey(db.owners, OwnerKey, property.ownerId) && HasKey(old(db.properties), PropertyKey, stamped.id) ==>
        r == Err(PropertyConflict) && db.properties == old(db.properties)
      ensures HasKey(db.owners, OwnerKey, property.ownerId) && !HasKey(old(db.properties), PropertyKey, stamped.id) ==>
        r == Ok(stamped) && db.properties == old(db.properties) + [stamped]
    {
      stamped := property.(createdAt := now);
      if stamped.id == EmptyId {
        stamped := stamped.(id := FreshPropertyId(db.properties, db.images, db.traces));
      }
      var ownerExists := HasKey(db.owners, OwnerKey, stamped.ownerId);
      if !ownerExists {
        return stamped, Err(OwnerNotFound);
      }
      var inserted := InsertOne(db.properties, PropertyKey, stamped);
      if inserted.None? {
        return stamped, Err(PropertyConflict);
      }
      db.properties := inserted.value;
      if property.id == EmptyId {
        AttachUnreferencedIsBare(stamped, db.owners, db.images, db.traces);
      }
      r := Ok(stamped);
    }

    /**
     * Rejects the empty id, then a missing owner (before stamping), then stamps
     * the update time and replaces the property with that id in place.
     */
    method Update(property: Property, now: Time) returns (stamped: Property, r: Result<Property>)
      requires db.Valid()
      modifies db`properties
      ensures db.Valid()
      ensures db.owners == old(db.owners) && db.images == old(db.images) && db.traces == old(db.traces)
      ensures property.id == EmptyId ==>
        stamped == property && r == Err(InvalidPropertyId) && db.properties == old(db.properties)
      ensures property.id != EmptyId && !HasKey(db.owners, OwnerKey, property.ownerId) ==>
        stamped == property && r == Err(OwnerNotFound) && db.properties == old(db.properties)
      ensures property.id != EmptyId && HasKey(db.owners, OwnerKey, property.ownerId) ==>
        stamped == property.(updatedAt := now)
      ensures (property.id != EmptyId && HasKey(db.owners, OwnerKey, property.ownerId)
               && !HasKey(old(db.properties), PropertyKey, property.id)) ==>
        r == Err(PropertyNotFound) && db.properties == old(db.properties)
      ensures (property.id != EmptyId && HasKey(db.owners, OwnerKey, property.ownerId)
               && HasKey(old(db.properties), PropertyKey, property.id)) ==>
        r == Ok(stamped) && ReplacedByKey(old(db.properties), db.properties, PropertyKey, stamped)
    {
      if property.id == EmptyId {
        return property, Err(InvalidPropertyId);
      }
      var ownerExists := HasKey(db.owners, OwnerKey, property.ownerId);
      if !ownerExists {
        return property, Err(OwnerNotFound);
      }
      stamped := property.(updatedAt := now);
      var result := ReplaceOne(db.properties, PropertyKey, stamped);
      db.properties := result.docs;
      if result.count == 0 {
        return stamped, Err(PropertyNotFound);
      }
      r := Ok(stamped);
    }

    /**
     * The cascading delete: first every image and every trace of the property,
     * then the property. The children go even when no property has that id.
     */
    method Delete(id: Id) returns (r: Result<()>)
      requires db.Valid()
      modifies db`images, db`traces, db`properties
      ensures db.Valid()
      ensures db.owners == old(db.owners)
      ensures db.images == Filter(old(db.images), ImageProperty, id, false)
      ensures db.traces == Filter(old(db.traces), TraceProperty, id, false)
      ensures |old(db.images)| - |db.images| == |Filter(old(db.images), ImageProperty, id, true)|
      ensures |old(db.traces)| - |db.traces| == |Filter(old(db.traces), TraceProperty, id, true)|
      ensures HasKey(old(db.properties), PropertyKey, id) ==>
        r == Ok(()) && db.properties == Filter(old(db.properties), PropertyKey, id, false)
        && |db.properties| == |old(db.properties)| - 1
      ensures !HasKey(old(db.properties), PropertyKey, id) ==>
        r == Err(PropertyNotFound) && db.properties == old(db.properties)
    {
      FilterKeepsWellKeyed(db.images, ImageKey, ImageProperty, id, false);
      db.images := DeleteMany(db.images, ImageProperty, id).docs;

      FilterKeepsWellKeyed(db.traces, TraceKey, TraceProperty, id, false);
      db.traces := DeleteMany(db.traces, TraceProperty, id).docs;

      var before := db.properties;
      var result := DeleteOne(db.properties, PropertyKey, id);
      FilterKeepsWellKeyed(before, PropertyKey, PropertyKey, id, false);
      db.properties := result.docs;
      if result.count == 0 {
        return Err(PropertyNotFound);
      }
      r := Ok(());
    }
  }
}
