/** The repository over the Owners collection. */
module Owners {
  import opened Entities
  import opened Collections
  import opened Store

  const OwnerNotFound := ApiError(StatusNotFound, "Owner not found")
  const OwnerConflict := ApiError(StatusConflict, "An owner with this ID already exists")
  const InvalidOwnerId := ApiError(StatusBadRequest, "Invalid owner ID")

  /**
   * A generated owner id: one past the largest id among the owners and among
   * the owner ids properties reference, so that, like a never-repeated
   * ObjectId, no stored property already points at it.
   */
  function FreshOwnerId(owners: seq<Owner>, properties: seq<Property>): (id: Id)
    ensures id != EmptyId
    ensures !HasKey(owners, OwnerKey, id)
    ensures forall p | p in properties :: p.ownerId != id
  {
    var m, n := MaxKey(owners, OwnerKey), MaxKey(properties, PropertyOwner);
    (if m < n then n else m) + 1
  }

  class OwnerRepository {
    const db: Database

    constructor (db: Database)
      ensures this.db == db
    {
      this.db := db;
    }

    /** Every owner, in collection order. */
    method GetAll() returns (r: seq<Owner>)
      ensures r == db.owners
    {
      r := db.owners;
    }

    method GetById(id: Id) returns (r: Result<Owner>)
      ensures r.Ok? <==> HasKey(db.owners, OwnerKey, id)
      ensures r.Ok? ==> r.value in db.owners && r.value.id == id
      ensures r.Err? ==> r.error == OwnerNotFound
    {
      var owner := FindFirst(db.owners, OwnerKey, id);
      if owner.None? {
        return Err(OwnerNotFound);
      }
      r := Ok(owner.value);
    }

    /**
     * Stamps the creation time, assigns a fresh id when the id is empty, and
     * appends. `stamped` is the argument as the caller sees it afterwards,
     * whether or not the insert succeeded.
     */
    method Create(owner: Owner, now: Time) returns (stamped: Owner, r: Result<Owner>)
      requires db.Valid()
      modifies db`owners
      ensures db.Valid()
      ensures stamped == owner.(id := stamped.id, createdAt := now)
      ensures owner.id != EmptyId ==> stamped.id == owner.id
      ensures owner.id == EmptyId ==> stamped.id != EmptyId && !HasKey(old(db.owners), OwnerKey, stamped.id)
      ensures owner.id == EmptyId ==> forall p | p in db.properties :: p.ownerId != stamped.id
      ensures HasKey(old(db.owners), OwnerKey, stamped.id) ==>
        r == Err(OwnerConflict) && db.owners == old(db.owners)
      ensures !HasKey(old(db.owners), OwnerKey, stamped.id) ==>
        r == Ok(stamped) && db.owners == old(db.owners) + [stamped]
    {
      stamped := owner.(createdAt := now);
      if stamped.id == EmptyId {
        stamped := stamped.(id := FreshOwnerId(db.owners, db.properties));
      }
      var inserted := InsertOne(db.owners, OwnerKey, stamped);
      if inserted.None? {
        return stamped, Err(OwnerConflict);
      }
      db.owners := inserted.value;
      r := Ok(stamped);
    }

    /**
     * Rejects the empty id, stamps the update time, and replaces the owner with
     * that id in place. An unmatched id leaves the store as it was, though the
     * argument has already been stamped.
     */
    method Update(owner: Owner, now: Time) returns (stamped: Owner, r: Result<Owner>)
      requires db.Valid()
      modifies db`owners
      ensures db.Valid()
      ensures owner.id == EmptyId ==>
        stamped == owner && r == Err(InvalidOwnerId) && db.owners == old(db.owners)
      ensures owner.id != EmptyId ==> stamped == owner.(updatedAt := now)
      ensures owner.id != EmptyId && !HasKey(old(db.owners), OwnerKey, owner.id) ==>
        r == Err(OwnerNotFound) && db.owners == old(db.owners)
      ensures owner.id != EmptyId && HasKey(old(db.owners), OwnerKey, owner.id) ==>
        r == Ok(stamped) && ReplacedByKey(old(db.owners), db.owners, OwnerKey, stamped)
    {
      if owner.id == EmptyId {
        return owner, Err(InvalidOwnerId);
      }
      stamped := owner.(updatedAt := now);
      var result := ReplaceOne(db.owners, OwnerKey, stamped);
      db.owners := result.docs;
      if result.count == 0 {
        return stamped, Err(OwnerNotFound);
      }
      r := Ok(stamped);
    }

    /**
     * Removes the owner with that id. Properties that reference it are not
     * touched and are left pointing at a missing owner.
     */
    method Delete(id: Id) returns (r: Result<()>)
      requires db.Valid()
      modifies db`owners
      ensures db.Valid()
      ensures db.properties == old(db.properties)
      ensures HasKey(old(db.owners), OwnerKey, id) ==>
        r == Ok(()) && db.owners == Filter(old(db.owners), OwnerKey, id, false)
        && |db.owners| == |old(db.owners)| - 1
      ensures !HasKey(old(db.owners), OwnerKey, id) ==>
        r == Err(OwnerNotFound) && db.owners == old(db.owners)
    {
      var before := db.owners;
      var result := DeleteOne(db.owners, OwnerKey, id);
      FilterKeepsWellKeyed(before, OwnerKey, OwnerKey, id, false);
      db.owners := result.docs;
      if result.count == 0 {
        return Err(OwnerNotFound);
      }
      r := Ok(());
    }
  }
}
