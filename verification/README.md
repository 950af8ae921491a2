# Listing catalog data-access layer, in Dafny

This project models the persistence layer of the MillionLuxury real-estate
catalog. It has four repositories (owners, properties, property images,
property traces) over a document store. That store has no joins and no
foreign keys, so the repositories supply those rules themselves:

- reading a property attaches its owner, its images and its traces (a manual
  join);
- creating or updating a property first checks that the referenced owner
  exists (a referential-integrity guard);
- deleting a property first deletes its images and traces (a cascade);
- store outcomes become structured errors: 400 for an empty id on update, 404
  for a missing entity, 409 for a duplicate id on insert.

Layout, one module per file:

- `Entities` (entities.dfy) defines the documents and the identifiers. The id
  `0` stands for the empty ObjectId. It also defines timestamps, the
  `ApiError`/`Result` pair, and the primary and foreign key of each collection.
- `Collections` (collections.dfy) holds the store primitives the repositories
  call, over one collection kept as a sequence in natural (insertion) order:
  point lookup, find by foreign key, insert with a unique index, replace-one,
  delete-one, delete-many and fresh-id generation. It also proves lemmas about
  them: order is kept, deletes remove exactly what they should, and the unique
  index survives every write.
- `Store` (store.dfy) is the one shared `Database` class. It has four `seq`
  fields: `owners`, `properties`, `images` and `traces`. Its `Valid()` says each
  collection has unique, non-empty ids.
- `Owners`, `PropertyImages`, `PropertyTraces` and `Properties` each hold one
  repository class per source file. Every repository holds the shared database
  and names in `modifies` only the collections it writes. Each method states
  the following in its `ensures`:
  - the result in every error case;
  - the exact new content of the collection it writes;
  - that nothing changes on failure, except that a property delete removes the
    property's images and traces before it finds the property missing.
- `Scenario` (scenario.dfy) is a client of all four repositories on one
  database. It creates owner O1, property P1 of O1 and one image I1 of P1,
  reads P1 back with O1 and exactly I1 attached, and sees a duplicate id
  rejected with 409 and a missing owner rejected with 404. It then deletes P1
  together with I1. Its assertions are proved from the repositories' contracts
  and the join lemmas of `Properties`.

Two stand-ins replace the source's own machinery:

- The current time is a `now` parameter.
- `ObjectId.GenerateNewId` is a non-empty id one past the largest id in use.
  For images and traces, which nothing references, that is
  `Collections.FreshKey` over their own collection. For owners and
  properties it is `Owners.FreshOwnerId` and `Properties.FreshPropertyId`,
  which also step past every id that a stored property, image or trace
  references, so a new owner or property is never attached to documents left
  behind by a deleted one. The source changes the argument object in place,
  setting `Id`, `CreatedAt` and `UpdatedAt`, and the caller sees these changes
  even when the call then fails. The model takes the entity as a value and
  returns the argument's state after the call as the out-parameter `stamped`.

## Model

| member | source | states |
|---|---|---|
| `Collections.IndexOf` | backend/MillionLuxury.Infrastructure/Persistence/MongoDBOwnerRepository.cs:28 | the position of the first document with the key, none exactly when no document has it |
| `Collections.FindFirst` | backend/MillionLuxury.Infrastructure/Persistence/MongoDBOwnerRepository.cs:28 | a point lookup (`FirstOrDefault`) yields a stored document with that key, and yields null exactly when none has it |
| `Collections.Filter` | backend/MillionLuxury.Infrastructure/Persistence/MongoDBPropertyImageRepository.cs:23 | a find by foreign key (or what a delete-many keeps) holds exactly the stored documents that match (or do not match) |
| `Collections.InsertOne` | backend/MillionLuxury.Infrastructure/Persistence/MongoDBOwnerRepository.cs:44-52 | an insert fails with a duplicate key exactly when the key is present; otherwise it appends, and the unique index still holds |
| `Collections.ReplaceOne` | backend/MillionLuxury.Infrastructure/Persistence/MongoDBOwnerRepository.cs:63-65 | matched count 0 exactly when no document has the key, and nothing changes then. Otherwise only the document with that key is replaced, in place. Positions and keys are kept |
| `Collections.DeleteOne` | backend/MillionLuxury.Infrastructure/Persistence/MongoDBOwnerRepository.cs:75-76 | deleted count 0 exactly when no document has the key, and nothing changes then; otherwise one document goes, and under the unique index exactly the documents with that key go while the others keep their order |
| `Collections.DeleteMany` | backend/MillionLuxury.Infrastructure/Persistence/MongoDBPropertyRepository.cs:151-157 | a delete-many keeps exactly the non-matching documents in order, and reports the number of matching ones |
| `Collections.FreshKey` | backend/MillionLuxury.Infrastructure/Persistence/MongoDBPropertyImageRepository.cs:39-42 | a generated image or trace id is never the empty id and is not used by any document of the collection |
| `Owners.FreshOwnerId` | backend/MillionLuxury.Infrastructure/Persistence/MongoDBOwnerRepository.cs:39-42 | a generated owner id is never the empty id, is used by no owner, and is referenced by no stored property |
| `Properties.FreshPropertyId` | backend/MillionLuxury.Infrastructure/Persistence/MongoDBPropertyRepository.cs:92-95 | a generated property id is never the empty id, is used by no property, and is referenced by no stored image or trace |
| `Collections.IndexOfAppendOther` | backend/MillionLuxury.Infrastructure/Persistence/MongoDBPropertyRepository.cs:26-29 | appending a document with another key does not change which document a point lookup finds |
| `Collections.FilterAppend` | backend/MillionLuxury.Infrastructure/Persistence/MongoDBPropertyRepository.cs:34-43 | finds keep collection order: filtering distributes over concatenation |
| `Collections.FilterPartition` | backend/MillionLuxury.Infrastructure/Persistence/MongoDBPropertyRepository.cs:151-157 | the matching and the non-matching documents split the collection, by count and as a multiset, so a cascade removes exactly the N matching children |
| `Collections.FilterAfterDeleteMany` | backend/MillionLuxury.Infrastructure/Persistence/MongoDBPropertyRepository.cs:151-157 | after a delete-many on a foreign key, a find on that key returns nothing |
| `Collections.FilterKeepsWellKeyed` | backend/MillionLuxury.Infrastructure/Persistence/MongoDBPropertyRepository.cs:151-159 | deleting by filter preserves the unique index and the absence of empty ids |
| `Collections.RemoveFirstIsFilter` | backend/MillionLuxury.Infrastructure/Persistence/MongoDBOwnerRepository.cs:75 | under the unique index, removing the first document with a key removes exactly the documents with that key and keeps the others in order |
| `Collections.InsertThenFind` | backend/MillionLuxury.Infrastructure/Persistence/MongoDBPropertyRepository.cs:110 | a document inserted under a new key is what a point lookup for that key then returns |
| `Owners.OwnerRepository.GetAll` | backend/MillionLuxury.Infrastructure/Persistence/MongoDBOwnerRepository.cs:21-24 | returns the whole Owners collection in order |
| `Owners.OwnerRepository.GetById` | backend/MillionLuxury.Infrastructure/Persistence/MongoDBOwnerRepository.cs:26-34 | returns the stored owner with that id, or 404 "Owner not found" exactly when there is none |
| `Owners.OwnerRepository.Create` | backend/MillionLuxury.Infrastructure/Persistence/MongoDBOwnerRepository.cs:36-53 | stamps CreatedAt. An empty id becomes a fresh non-empty id that no stored property references. A present id fails with 409 and changes nothing; otherwise the owner is appended. Other fields are untouched |
| `Owners.OwnerRepository.Update` | backend/MillionLuxury.Infrastructure/Persistence/MongoDBOwnerRepository.cs:55-71 | an empty id gives 400 with no stamping and no change. Otherwise UpdatedAt is stamped. No match gives 404 with the store unchanged; a match replaces only that owner, in place |
| `Owners.OwnerRepository.Delete` | backend/MillionLuxury.Infrastructure/Persistence/MongoDBOwnerRepository.cs:73-80 | removes exactly the owner with that id, or gives 404 with no change. Properties are not touched, so references to it dangle |
| `PropertyImages.PropertyImageRepository.GetByPropertyId` | backend/MillionLuxury.Infrastructure/Persistence/MongoDBPropertyImageRepository.cs:21-24 | returns exactly the images with that property id, in collection order |
| `PropertyImages.PropertyImageRepository.GetById` | backend/MillionLuxury.Infrastructure/Persistence/MongoDBPropertyImageRepository.cs:26-34 | returns the stored image with that id, or 404 exactly when there is none |
| `PropertyImages.PropertyImageRepository.Create` | backend/MillionLuxury.Infrastructure/Persistence/MongoDBPropertyImageRepository.cs:36-53 | stamps CreatedAt and makes an empty id fresh. It appends whatever property the image names; a present id fails with 409 and changes nothing |
| `PropertyImages.PropertyImageRepository.Update` | backend/MillionLuxury.Infrastructure/Persistence/MongoDBPropertyImageRepository.cs:55-71 | an empty id gives 400 with no change. Otherwise UpdatedAt is stamped. No match gives 404 with no change; a match replaces only that image, in place |
| `PropertyImages.PropertyImageRepository.Delete` | backend/MillionLuxury.Infrastructure/Persistence/MongoDBPropertyImageRepository.cs:73-80 | removes exactly the image with that id, or gives 404 with no change |
| `PropertyTraces.PropertyTraceRepository.GetByPropertyId` | backend/MillionLuxury.Infrastructure/Persistence/MongoDBPropertyTraceRepository.cs:21-24 | returns exactly the traces with that property id, in collection order |
| `PropertyTraces.PropertyTraceRepository.GetById` | backend/MillionLuxury.Infrastructure/Persistence/MongoDBPropertyTraceRepository.cs:26-34 | returns the stored trace with that id, or 404 exactly when there is none |
| `PropertyTraces.PropertyTraceRepository.Create` | backend/MillionLuxury.Infrastructure/Persistence/MongoDBPropertyTraceRepository.cs:36-53 | stamps CreatedAt and makes an empty id fresh. It appends without a parent check; a present id gives 409 with no change. The earlier traces remain a prefix, unchanged and in order (append-only history) |
| `Properties.Attach` | backend/MillionLuxury.Infrastructure/Persistence/MongoDBPropertyRepository.cs:25-44 | the join attaches the owner with the referenced id (null exactly when none exists), and exactly the images and traces whose property id is the property's |
| `Properties.AttachFindsOwner` | backend/MillionLuxury.Infrastructure/Persistence/MongoDBPropertyRepository.cs:75-79 | under the owners' unique index, the attached owner is the very owner the property references |
| `Properties.AttachAfterImageAppend` | backend/MillionLuxury.Infrastructure/Persistence/MongoDBPropertyRepository.cs:61-65 | attached images follow insertion order: a new image of the property is appended, and an image of another property changes nothing |
| `Properties.AttachAfterTraceAppend` | backend/MillionLuxury.Infrastructure/Persistence/MongoDBPropertyRepository.cs:68-72 | the same for traces |
| `Properties.AttachAfterOwnerAppend` | backend/MillionLuxury.Infrastructure/Persistence/MongoDBPropertyRepository.cs:26-29 | storing an owner that a property does not reference leaves that property's join unchanged, so an owner created under a generated id is attached to no existing property |
| `Properties.AttachUnreferencedIsBare` | backend/MillionLuxury.Infrastructure/Persistence/MongoDBPropertyRepository.cs:32-41 | a property that no image and no trace references is attached no images and no traces |
| `Properties.CascadeLeavesNoChildren` | backend/MillionLuxury.Infrastructure/Persistence/MongoDBPropertyRepository.cs:150-157 | after the cascade, a property with the deleted id has no images and no traces attached |
| `Properties.PropertyRepository.GetAll` | backend/MillionLuxury.Infrastructure/Persistence/MongoDBPropertyRepository.cs:21-47 | one result per stored property, in collection order, each the property with its owner, images and traces attached |
| `Properties.PropertyRepository.GetById` | backend/MillionLuxury.Infrastructure/Persistence/MongoDBPropertyRepository.cs:49-82 | 404 "Property not found" exactly when no property has the id. Otherwise the stored property is returned with the same attachment; a missing owner or missing children is not an error |
| `Properties.PropertyRepository.GetByOwnerId` | backend/MillionLuxury.Infrastructure/Persistence/MongoDBPropertyRepository.cs:84-87 | returns exactly the properties with that owner id, in order, with nothing attached |
| `Properties.PropertyRepository.Create` | backend/MillionLuxury.Infrastructure/Persistence/MongoDBPropertyRepository.cs:89-117 | CreatedAt, and a fresh id when the id is empty, are set first, even on failure. A generated id is referenced by no stored image or trace, so a stored new property has nothing attached yet. A missing owner gives 404 "Owner not found", before the duplicate check. Then a present id gives 409. Both failures leave the store unchanged; success appends exactly the stamped property. Other collections are untouched |
| `Properties.PropertyRepository.Update` | backend/MillionLuxury.Infrastructure/Persistence/MongoDBPropertyRepository.cs:119-146 | checks run in order: an empty id gives 400; a missing owner gives 404, with no stamping and no change; no match gives 404 "Property not found". Otherwise UpdatedAt is stamped and only that property is replaced, in place |
| `Properties.PropertyRepository.Delete` | backend/MillionLuxury.Infrastructure/Persistence/MongoDBPropertyRepository.cs:148-164 | removes every image and trace of the id, counted, even when the property is absent. It then removes exactly that property, or gives 404 with Properties unchanged. Owners are untouched |

## Left out

- MongoDB client construction, settings, `GetDatabase`/`GetCollection`: replaced by one shared `Database` handed to each repository.
- Asynchronous execution, cancellation and concurrent writers racing on one id: every operation is one sequential method.
- A store that is unreachable or fails: the primitives always answer.
- `DateTime.UtcNow`: the time is the parameter `now`.
- `ObjectId.GenerateNewId`: real ObjectIds are globally unique and time-ordered, so the source never issues an id twice.
- Collections.FreshKey, Owners.FreshOwnerId, Properties.FreshPropertyId: a deleted id that no stored document still uses or references can be issued again, and ids are not time-ordered. At the moment of the create nothing points at the reissued id. But a caller that still holds the deleted id can write an image or trace under it afterwards, and that child is then attached to the new property, which the source never does.
- In-place mutation of the argument object: the model returns its post-call state as `stamped`. Stored documents are copies in the store too, so values lose no aliasing.
- `Store.Database.Valid` assumes every write goes through these repositories. Only then does no stored document have the empty id.
- The domain entity classes are not part of this model. The model keeps these fields: Owner has id, name, address, photo, birthday, createdAt and updatedAt; Property has id, name, address, price, codeInternal, year, ownerId, createdAt and updatedAt; PropertyImage has id, propertyId, file, enabled, createdAt and updatedAt; PropertyTrace has id, propertyId, dateSale, name, value, tax and createdAt. `decimal` amounts are `real` and carried unchanged. The transient `Owner`/`Images`/`Traces` of a property are the separate `PropertyDetails`.
- Filtered search (name text search, address regex, price range) and the text/price index bootstrap: neither appears in these repository files.
- Shape validation before writes, HTTP routing, dependency wiring and the front end: outside the data-access layer.
