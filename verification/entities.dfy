/**
 * The documents of the listing catalog and the values the repositories
 * exchange with their callers: identifiers, timestamps, structured errors.
 */
module Entities {

  /** A document identifier. The value 0 stands for the empty identifier. */
  type Id = nat

  const EmptyId: Id := 0

  /** A point in time. The caller supplies the current time as `now`. */
  type Time = int

  datatype Option<+T> = None | Some(value: T)

  /** The structured failure every repository raises: an HTTP-equivalent status and a message. */
  datatype ApiError = ApiError(status: nat, message: string)

  const StatusBadRequest: nat := 400
  const StatusNotFound: nat := 404
  const StatusConflict: nat := 409

  datatype Result<+T> = Ok(value: T) | Err(error: ApiError)

  datatype Owner = Owner(
    id: Id,
    name: string,
    address: string,
    photo: string,
    birthday: Time,
    createdAt: Time,
    updatedAt: Time)

  /** A property as stored: the owner is referenced by `ownerId` only. */
  datatype Property = Property(
    id: Id,
    name: string,
    address: string,
    price: real,
    codeInternal: string,
    year: int,
    ownerId: Id,
    createdAt: Time,
    updatedAt: Time)

  datatype PropertyImage = PropertyImage(
    id: Id,
    propertyId: Id,
    file: string,
    enabled: bool,
    createdAt: Time,
    updatedAt: Time)

  /** A sale record of a property; it has no update timestamp. */
  datatype PropertyTrace = PropertyTrace(
    id: Id,
    propertyId: Id,
    dateSale: Time,
    name: string,
    value: real,
    tax: real,
    createdAt: Time)

  /**
   * A property together with what a read attaches to it: its owner (None when
   * no owner has that id), its images and its traces. Never stored.
   */
  datatype PropertyDetails = PropertyDetails(
    property: Property,
    owner: Option<Owner>,
    images: seq<PropertyImage>,
    traces: seq<PropertyTrace>)

  // Primary keys of the four collections.
  function OwnerKey(o: Owner): Id { o.id }
  function PropertyKey(p: Property): Id { p.id }
  function ImageKey(i: PropertyImage): Id { i.id }
  function TraceKey(t: PropertyTrace): Id { t.id }

  // Foreign keys the repositories join on.
  function PropertyOwner(p: Property): Id { p.ownerId }
  function ImageProperty(i: PropertyImage): Id { i.propertyId }
  function TraceProperty(t: PropertyTrace): Id { t.propertyId }
}
