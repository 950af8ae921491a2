/**
 * A client of the four repositories sharing one database: owner O1, property
 * P1 of O1 and one image I1 of P1. Its assertions follow from the
 * repositories' contracts and the join lemmas of `Properties`.
 */
module Scenario {
  import opened Entities
  import opened Collections
  import opened Store
  import opened Owners
  import opened PropertyImages
  import opened Properties

  method ListingScenario(now: Time)
  {
    var db, o1, p1, i1 := StoreListing(now);
    ReadListing(db, o1, p1, i1);
    RefuseWrites(db, o1, p1, i1, now);
    DeleteListing(db, p1, i1);
  }

  /** An owner, then a property of that owner, then one image of the property. */
  method StoreListing(now: Time) returns (db: Database, o1: Owner, p1: Property, i1: PropertyImage)
    ensures fresh(db) && db.Valid()
    ensures db.owners == [o1] && db.properties == [p1] && db.images == [i1] && db.traces == []
    ensures p1.ownerId == o1.id && i1.propertyId == p1.id
  {
    db := new Database();
    var owners := new OwnerRepository(db);
    var images := new PropertyImageRepository(db);
    var properties := new PropertyRepository(db);
    var createdOwner, createdProperty, createdImage;
    o1, createdOwner := owners.Create(Owner(EmptyId, "O1", "", "", 0, 0, 0), now);
    assert db.owners == [o1];
    assert HasKey(db.owners, OwnerKey, o1.id) by { assert db.owners[0] == o1; }
    p1, createdProperty := properties.Create(Property(EmptyId, "P1", "", 150.0, "", 2020, o1.id, 0, 0), now);
    assert db.properties == [p1];
    i1, createdImage := images.Create(PropertyImage(EmptyId, p1.id, "front.jpg", true, 0, 0), now);
  }

  /** Reading the property back attaches that owner and exactly that image. */
  method ReadListing(db: Database, o1: Owner, p1: Property, i1: PropertyImage)
    requires db.Valid()
    requires db.owners == [o1] && db.properties == [p1] && db.images == [i1] && db.traces == []
    requires p1.ownerId == o1.id && i1.propertyId == p1.id
  {
    var properties := new PropertyRepository(db);
    assert HasKey(db.properties, PropertyKey, p1.id) by { assert db.properties[0] == p1; }
    var read := properties.GetById(p1.id);
    assert read.Ok? && read.value.property in [p1];
    assert read.value.property == p1;
    AttachFindsOwner(p1, db.owners, db.images, db.traces, o1);
    assert read.value.owner == Some(o1);
    AttachAfterImageAppend(p1, db.owners, [], db.traces, i1);
    assert [] + [i1] == [i1];
    assert read.value.images == [i1];
  }

  /** A second create under the same id is a conflict; a property of a missing owner is refused. */
  method RefuseWrites(db: Database, o1: Owner, p1: Property, i1: PropertyImage, now: Time)
    requires db.Valid()
    requires db.owners == [o1] && db.properties == [p1] && db.images == [i1] && db.traces == []
    requires p1.ownerId == o1.id && i1.propertyId == p1.id
    modifies db`properties
    ensures db.Valid() && db.properties == [p1]
  {
    var properties := new PropertyRepository(db);
    assert HasKey(db.owners, OwnerKey, o1.id) by { assert db.owners[0] == o1; }
    assert HasKey(db.properties, PropertyKey, p1.id) by { assert db.properties[0] == p1; }
    var again, duplicate := properties.Create(p1, now);
    assert duplicate == Err(PropertyConflict) && db.properties == [p1];

    assert !HasKey(db.owners, OwnerKey, o1.id + 1) by {
      assert forall i | 0 <= i < |db.owners| :: db.owners[i] == o1;
    }
    var orphan, refused := properties.Create(Property(EmptyId, "P2", "", 90.0, "", 2021, o1.id + 1, 0, 0), now);
    assert refused == Err(OwnerNotFound) && db.properties == [p1];
  }

  /** Deleting the property takes its image with it. */
  method DeleteListing(db: Database, p1: Property, i1: PropertyImage)
    requires db.Valid()
    requires db.properties == [p1] && db.images == [i1] && i1.propertyId == p1.id
    modifies db
  {
    var properties := new PropertyRepository(db);
    assert HasKey(db.properties, PropertyKey, p1.id) by { assert db.properties[0] == p1; }
    assert [i1][1..] == [] && [p1][1..] == [];
    var deleted := properties.Delete(p1.id);
    assert deleted.Ok?;
    assert db.images == [] && db.properties == [];
  }
}
