/** The documents of the rental store (users, properties, bookings, reviews),
    the request bodies the handlers accept, and the handlers' outcomes. */
module Records {

  /** A document identifier (an ObjectId): only equality matters. */
  type Id = nat

  /** A point in time (milliseconds since the epoch): booking dates and review timestamps. */
  type Time = int

  /** Booking status, an opaque string: the handlers store whatever they are given. */
  type BookingStatus = string

  /** The status every new booking starts in. */
  const Pending: BookingStatus := "pending"

  datatype Option<T> = None | Some(value: T) {
    /** JavaScript's `value ?? default`. */
    function GetOr(default: T): T {
      match this
      case Some(v) => v
      case None => default
    }
  }

  /** A user account; the map key of the user collection is its id. */
  datatype User = User(name: string, email: string, password: string, phone: string, isOwner: bool)

  /** The requester's record exists and is a tenant's. */
  predicate IsTenant(requester: Option<User>) {
    requester.Some? && !requester.value.isOwner
  }

  /** The requester's record exists and is an owner's. */
  predicate IsOwner(requester: Option<User>) {
    requester.Some? && requester.value.isOwner
  }

  /** A string that a schema field marked `required: true` accepts on `create`: the
      store's required check refuses the empty string. */
  predicate Filled(s: string) {
    |s| > 0
  }

  /** A listed property. Numbers of the source (price, size, rating) are exact reals here. */
  datatype Property = Property(
    id: Id,
    owner: Id,
    title: string,
    description: string,
    location: string,
    price: real,
    kind: string,
    size: real,
    available: bool,
    amenities: seq<string>,
    averageRating: Option<real>)

  /** A booking of one property by one tenant over the half-open range [startDate, endDate). */
  datatype Booking = Booking(
    id: Id,
    propertyId: Id,
    userId: Id,
    startDate: Time,
    endDate: Time,
    totalPrice: real,
    status: BookingStatus)

  /** The `_id` of a booking and of a property. */
  function BookingKey(b: Booking): Id { b.id }
  function PropertyKey(p: Property): Id { p.id }

  /** A review; `createdAt` is the timestamp the store adds on insertion. */
  datatype Review = Review(rating: real, comment: string, propertyId: Id, userId: Id, createdAt: Time)

  /** The body of a `list-property` request. */
  datatype Listing = Listing(
    title: string,
    description: string,
    location: string,
    price: real,
    kind: string,
    size: real,
    available: bool,
    amenities: seq<string>,
    averageRating: Option<real>)

  /** The body of an `update-profile` request: every field may be absent. */
  datatype ProfilePatch = ProfilePatch(
    name: Option<string>,
    email: Option<string>,
    phone: Option<string>,
    isOwner: Option<bool>)

  /** Why a handler refused a request. */
  datatype Error =
    | UserNotFound        // the requester's record is absent and the handler says so
    | RoleViolation       // an owner where a tenant is required, or the reverse
    | NotFound            // the booking, property or result set asked for is absent or empty
    | DuplicateBooking    // the requester already holds a booking for the property
    | DateConflict        // another booking on the property overlaps the requested dates
    | InvalidRange        // the start date is not before the end date
    | OwnershipViolation  // the property involved belongs to someone else
    | DuplicateReview     // the requester already reviewed the property
    | Internal            // a missing record was dereferenced and the handler's catch block answered

  /** The outcome of a handler that writes. */
  datatype Outcome = Success | Failure(error: Error)

  /** The outcome of a handler that answers with data. */
  datatype Result<T> = Ok(value: T) | Err(error: Error)
}
