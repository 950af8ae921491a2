/**
 * The repository over the PropertyImages collection. It does not check that
 * the property an image points at exists.
 */
module PropertyImages {
  import opened Entities
  import opened Collections
  import opened Store

  const ImageNotFound := ApiError(StatusNotFound, "Property image not found")
  const ImageConflict := ApiError(StatusConflict, "A property image with this ID already exists")
  const InvalidImageId := ApiError(StatusBadRequest, "Invalid property image ID")

  class PropertyImageRepository {
    const db: Database

    constructor (db: Database)
      ensures this.db == db
    {
      this.db := db;
    }

    /** The images of one property, in collection order. */
    method GetByPropertyId(propertyId: Id) returns (r: seq<PropertyImage>)
      ensures r == Filter(db.images, ImageProperty, propertyId, true)
      ensures forall i | i in r :: i in db.images && i.propertyId == propertyId
      ensures forall i | i in db.images && i.propertyId == propertyId :: i in r
    {
      r := Filter(db.images, ImageProperty, propertyId, true);
    }

    method GetById(id: Id) returns (r: Result<PropertyImage>)
      ensures r.Ok? <==> HasKey(db.images, ImageKey, id)
      ensures r.Ok? ==> r.value in db.images && r.value.id == id
      ensures r.Err? ==> r.error == ImageNotFound
    {
      var image := FindFirst(db.images, ImageKey, id);
      if image.None? {
        return Err(ImageNotFound);
      }
      r := Ok(image.value);
    }

    /**
     * Stamps the creation time, assigns a fresh id when the id is empty, and
     * appends, whatever `propertyId` refers to.
     */
    method Create(image: PropertyImage, now: Time) returns (stamped: PropertyImage, r: Result<PropertyImage>)
      requires db.Valid()
      modifies db`images
      ensures db.Valid()
      ensures stamped == image.(id := stamped.id, createdAt := now)
      ensures image.id != EmptyId ==> stamped.id == image.id
      ensures image.id == EmptyId ==> stamped.id != EmptyId && !HasKey(old(db.images), ImageKey, stamped.id)
      ensures HasKey(old(db.images), ImageKey, stamped.id) ==>
        r == Err(ImageConflict) && db.images == old(db.images)
      ensures !HasKey(old(db.images), ImageKey, stamped.id) ==>
        r == Ok(stamped) && db.images == old(db.images) + [stamped]
    {
      stamped := image.(createdAt := now);
      if stamped.id == EmptyId {
        stamped := stamped.(id := FreshKey(db.images, ImageKey));
      }
      var inserted := InsertOne(db.images, ImageKey, stamped);
      if inserted.None? {
        return stamped, Err(ImageConflict);
      }
      db.images := inserted.value;
      r := Ok(stamped);
    }

    /** Rejects the empty id, stamps the update time, and replaces the image with that id in place. */
    method Update(image: PropertyImage, now: Time) returns (stamped: PropertyImage, r: Result<PropertyImage>)
      requires db.Valid()
      modifies db`images
      ensures db.Valid()
      ensures image.id == EmptyId ==>
        stamped == image && r == Err(InvalidImageId) && db.images == old(db.images)
      ensures image.id != EmptyId ==> stamped == image.(updatedAt := now)
      ensures image.id != EmptyId && !HasKey(old(db.images), ImageKey, image.id) ==>
        r == Err(ImageNotFound) && db.images == old(db.images)
      ensures image.id != EmptyId && HasKey(old(db.images), ImageKey, image.id) ==>
        r == Ok(stamped) && ReplacedByKey(old(db.images), db.images, ImageKey, stamped)
    {
      if image.id == EmptyId {
        return image, Err(InvalidImageId);
      }
      stamped := image.(updatedAt := now);
      var result := ReplaceOne(db.images, ImageKey, stamped);
      db.images := result.docs;
      if result.count == 0 {
        return stamped, Err(ImageNotFound);
      }
      r := Ok(stamped);
    }

    /** Removes the image with that id. */
    method Delete(id: Id) returns (r: Result<()>)
      requires db.Valid()
      modifies db`images
      ensures db.Valid()
      ensures HasKey(old(db.images), ImageKey, id) ==>
        r == Ok(()) && db.images == Filter(old(db.images), ImageKey, id, false)
        && |db.images| == |old(db.images)| - 1
      ensures !HasKey(old(db.images), ImageKey, id) ==>
        r == Err(ImageNotFound) && db.images == old(db.images)
    {
      var before := db.images;
      var result := DeleteOne(db.images, ImageKey, id);
      FilterKeepsWellKeyed(before, ImageKey, ImageKey, id, false);
      db.images := result.docs;
      if result.count == 0 {
        return Err(ImageNotFound);
      }
      r := Ok(());
    }
  }
}
