# Rent-sphere booking core in Dafny

This project models the route handlers of a property-rental backend. The backend
keeps four collections: users, properties, bookings and reviews.

- **Tenants** book a property for a date range, cancel their own bookings and review properties.
- **Owners** list and delete properties and set the status of bookings on their properties.
- **Every user** can read and patch their own profile.

The document store is a class, `RentalStore.Store`:

- `users` is a map from id to record.
- `properties`, `bookings` and `reviews` are sequences in insertion order.
- `nextId` hands out fresh document ids.

Each handler that writes is a method. It runs the handler's guards in the
handler's order, then writes. `add-review` makes two writes: it inserts the review
and then stores the property's new average. Every other handler makes at most one. Each handler that only answers is
a function over the store. The guards and the values they compute are pure
functions in the rule modules. Lemmas there prove the invariants that the
handlers preserve.

- `Records`: the documents, the request bodies, the error tags, the `Outcome` and `Result` datatypes.
- `Queries`: the store queries the handlers use.
  - `find` is `Filter`.
  - `findOne` and `findById` are `FirstMatch`.
  - `deleteOne` is `RemoveAt` at the position found.
- `BookingRules`: the `add-booking`, `update-status` and `delete` guards, and the booking-table invariants.
  - Dates are half-open: `[startDate, endDate)`.
  - At most one booking per (tenant, property).
  - No two bookings of a property overlap.
- `ReviewRules`: the `add-review` guard, the rating fold and mean, the newest-first sort, and the one-review-per-pair invariant.
- `PropertyRules`: the `list-property` and `delete /:propertyId` guards.
- `ProfileRules`: the `??` merge of `update-profile`.
- `RentalStore`: the store class and every handler.

The store invariant `Valid()` holds from the empty store on, and every handler
keeps it:

- property ids and booking ids are distinct and below `nextId` (reviews carry
  no id here, and user ids are the keys of the user map);
- every booking has `startDate < endDate`;
- no tenant holds two bookings of one property;
- no two bookings of one property overlap;
- no user reviewed a property twice.

Facts about the code that the model keeps:

- `add-booking` checks, in this order: a duplicate booking, a date overlap, an
  empty or inverted range, then a missing user or an owner
  (routes/booking.route.js:49-83). So an inverted range that straddles an
  existing booking is reported as a conflict
  (`BookingRules.InvertedRangeReportedAsConflict`), and an owner gets the
  duplicate or conflict answer before the role answer.
- The request schema of `update-status` lets through only `"pending"`,
  `"approved"` and `"cancelled"` (routes/booking.route.js:139-148). The booking
  schema lists `"confirmed"` instead of `"approved"`, and the update does not run
  the schema's validators. The model's status is any string, a superset of what
  the request schema lets through, and no check is added.
- The duplicate and overlap guards count bookings of every status, `"cancelled"`
  included.
- The request schemas of `add-review` and `list-property` accept an empty string,
  but the document schemas mark `comment` (models/reviews.model.js:11-14) and
  `title`, `description`, `location` and `type` (models/properties.model.js:13-32)
  as required, and the store's required check refuses an empty string on
  `create`. The handler's catch block then answers and nothing is written
  (`Records.Filled`, `PropertyRules.Complete`).

Observations the model makes visible:

- `add-booking` and `add-review` never check that the property exists. A review
  of an absent property is stored, and the average update then finds no property
  to write (`RentalStore.Store.SetAverageRating` with no match).
- Deleting a property leaves its bookings and reviews in place.
- The tenant branch of `booking-info` compares a stored id with a string at
  routes/booking.route.js:290. That comparison only logs, so it does not affect
  the answer.
- `index.js` does not mount the profile router, so `my-profile` and
  `update-profile` are not reachable over HTTP. They are modelled as written.

Where the handler reads a field of a user record it never checked
(`user.isOwner` on a missing user), the code throws and its catch block answers.
The model returns `Internal` in that case. Where the handler checks `!user`
first, the model returns that check's own tag.

## Model

| member | source | states |
|---|---|---|
| BookingRules.OverlapsSharesInstant | routes/booking.route.js:61-65 | `Overlaps` is the overlap query `startDate < end && endDate > start`. When both the booked range and the requested range are non-empty, it holds exactly when the two half-open ranges share an instant. The lemma says nothing for an inverted request, where the query can hold without any shared instant. |
| BookingRules.NewBooking | routes/booking.route.js:85-92 | The document `create` writes carries the given id and the request's property, tenant, start, end and total price, with status `"pending"`. |
| BookingRules.AddBookingGuard | routes/booking.route.js:47-83 | The request is refused as a duplicate whenever the requester holds any booking of the property, whatever its dates or status. Otherwise it is a conflict when a booking on the property satisfies `start < req.end && end > req.start`. Otherwise it is an invalid range when `start >= end`. Otherwise it is a role violation when the user is missing or an owner. It succeeds exactly when none of the four applies. |
| BookingRules.UpdateStatusGuard | routes/booking.route.js:161-181 | A missing user gives `Internal` and a tenant gives a role violation. For an owner, not found holds exactly when no booking has that id. `Internal` otherwise means the booking's property is gone, and an ownership violation means the booking lies on another owner's property. On success the booking at the returned position has the requested id and lies on a property the requester owns. |
| BookingRules.BookingPlacement | routes/booking.route.js:170-181 | With distinct ids, the three placements of a booking with a given id exclude one another: on a property the user owns, on a property another owner holds, or on a property that is gone. At most one of them holds. |
| BookingRules.UpdateStatusGuardExact | routes/booking.route.js:170-181 | For an owner and distinct ids: success holds exactly when the booking lies on the owner's property. `Internal` holds exactly when its property is gone. An ownership violation holds exactly when the property is someone else's. |
| BookingRules.CancelGuard | routes/booking.route.js:212-237 | A missing user gives user-not-found and an owner gives a role violation. For a tenant, success holds exactly when a booking with that id and that tenant exists, and any other failure is not found. |
| BookingRules.AcceptedBookingKeepsConsistency | routes/booking.route.js:49-92 | A booking with the request's property, tenant and dates that the guard accepts keeps three invariants of the table: non-empty ranges, one booking per (tenant, property), and no overlapping pair per property. |
| BookingRules.StatusChangeKeepsConsistency | routes/booking.route.js:183-186 | Changing one booking's status, to any value, keeps the three booking invariants. |
| BookingRules.StatusChangeKeepsKeys | routes/booking.route.js:183-186 | `updateOne({_id})` changes exactly the booking with that id, because no other booking shares it. Ids stay distinct and bounded. |
| BookingRules.RemovalKeepsConsistency | routes/booking.route.js:239 | Removing any booking keeps the three booking invariants. |
| BookingRules.TouchingRangesAccepted | routes/booking.route.js:61-71 | Bookings on the property that end when the requested range starts, or start when it ends, do not block a tenant's request with a valid range. The table may hold any number of them. |
| BookingRules.InvertedRangeReportedAsConflict | routes/booking.route.js:61-77 | The overlap check runs before the range check. Take any table, any requester, and a user who holds no booking of the property. If an existing booking of the property starts before the requested end and ends after the requested start, and the request is inverted (end at or before start), the request is refused with `DateConflict`, not `InvalidRange`. |
| BookingRules.SecondBookingIsDuplicate | routes/booking.route.js:49-59 | A second request for the same property by the same tenant is refused as a duplicate for any dates and any requester record. |
| Queries.FilterCount | routes/booking.route.js:124 | `find` returns each matching document exactly as many times as the collection holds it, and no other document. |
| ReviewRules.AddReviewGuard | routes/reviews.route.js:33-57 | A missing user gives user-not-found. An existing review by the user for the property gives duplicate-review, checked before the role. An owner gives a role violation. For a tenant who has not reviewed the property, an empty comment gives `Internal`: the schema's required check refuses it on `create` and the catch block answers. It succeeds exactly for an existing tenant who has not reviewed the property and supplies a non-empty comment. |
| ReviewRules.AcceptedReviewKeepsOnePerPair | routes/reviews.route.js:39-56 | Appending a review the guard accepts keeps "at most one review per (user, property)". |
| ReviewRules.ReviewedHasReviews | routes/reviews.route.js:58-65 | A property with a review has a non-empty review list, so the average's divisor is at least 1. |
| ReviewRules.Mean | routes/reviews.route.js:65 | For a positive count, the mean times the count is the total. |
| ReviewRules.AverageRating | routes/reviews.route.js:58-65 | For a reviewed property, the average times the number of its reviews equals the left-fold sum of their ratings, and that number is at least 1. |
| ReviewRules.RatingTotalFromFront | routes/reviews.route.js:60-63 | `RatingTotal` is the `reduce` from the left starting at 0. It equals the sum taken from the front: the first rating plus the sum of the rest, and 0 for no reviews. |
| ReviewRules.RatingTotalConcat | routes/reviews.route.js:60-63 | The fold of two runs of reviews put together is the sum of their folds. |
| ReviewRules.RatingTotalPermutation | routes/reviews.route.js:57-63 | Two runs holding the same reviews in any order have the same total. So the stored average does not depend on the order `find` returns the reviews in. |
| ReviewRules.RatingTotalBounds | routes/reviews.route.js:60-63 | When every rating lies in [lo, hi], the fold-sum of n ratings lies in [n·lo, n·hi]. |
| ReviewRules.MeanBounds | routes/reviews.route.js:65 | Dividing a total in [n·lo, n·hi] by a positive n gives a value in [lo, hi]. |
| ReviewRules.MeanOfBoundedRatings | routes/reviews.route.js:60-65 | The mean of a non-empty list of ratings in [lo, hi] lies in [lo, hi]. |
| ReviewRules.ReviewsOfBounded | routes/reviews.route.js:58 | Bounds on the ratings of a property's reviews carry over to the reviews that `find({ propertyId })` returns. |
| ReviewRules.AverageWithinRatings | routes/reviews.route.js:58-65 | The stored average lies between the lowest and the highest rating given to the property. |
| ReviewRules.InsertedReviewCounts | routes/reviews.route.js:51-65 | Inserting a review adds it at the end of its property's reviews. The property's total grows by its rating and the count by one. |
| ReviewRules.RatingUpdateKeepsOthers | routes/reviews.route.js:67-73 | Writing the average on the property found by id changes only that property's `averageRating`. Every other property, and every other field, is unchanged. |
| ReviewRules.AverageOfThreeRatings | routes/reviews.route.js:58-65 | Ratings 4, 5 and 3 of one property average to 4. |
| ReviewRules.InsertByDate | routes/reviews.route.js:109-111 | Inserting one review into a newest-first list gives a newest-first list with that review added. |
| ReviewRules.SortNewestFirst | routes/reviews.route.js:109-111 | `sort({ createdAt: -1 })` returns the same reviews, as a multiset, with `createdAt` never increasing along the result. |
| ReviewRules.SortKeepsMembers | routes/reviews.route.js:94 | Sorting neither adds nor drops a review. |
| PropertyRules.ListPropertyGuard | routes/property.route.js:54-76 | Listing succeeds exactly when the requester exists, is an owner, and supplies a non-empty title, description, location and type. A missing record gives `Internal` (the catch block) and a tenant gives a role violation. For an owner, an empty required string gives `Internal`: the schema refuses it on `create` and the catch block answers. |
| PropertyRules.NewProperty | routes/property.route.js:56-67 | The created property has the fresh id, the requester as `owner`, and the request's `averageRating`. |
| PropertyRules.DeletePropertyGuard | routes/property.route.js:100-116 | A missing or non-owner user is refused before any lookup. For an owner, not found holds exactly when no property has that id. An ownership violation means a property with that id belongs to someone else, and with distinct ids such a property always gives it. On success the property at the returned position has that id and belongs to the requester. With distinct ids, success holds exactly when the requester owns a property with that id. |
| ProfileRules.Merge | routes/profile.route.js:74-77 | Each of name, email, phone and isOwner is the supplied value if present, otherwise the stored one. The password is carried over. |
| ProfileRules.EmptyPatchKeepsRecord | routes/profile.route.js:74-88 | A request with no fields leaves the record unchanged. |
| ProfileRules.MergeIdempotent | routes/profile.route.js:74-88 | Applying the same request twice gives the same record as applying it once. |
| ProfileRules.MergeAgreesOnSuppliedFields | routes/profile.route.js:74-77 | A request that supplies all four fields determines the written record, whatever was stored before, apart from the password. |
| RentalStore.Store.Lookup | routes/booking.route.js:47 | `findById` on users: some record exactly when the id is a key, and then that record. |
| RentalStore.Store.AddBooking | routes/booking.route.js:43-96 | The outcome is the guard's verdict. On success exactly one booking is appended: the request's property, tenant, dates and price, a fresh id and status `"pending"`. No existing booking changes, nothing changes on refusal, and the store invariant is kept. |
| RentalStore.Store.UpdateStatus | routes/booking.route.js:157-188 | Success holds exactly for an owner and a booking with that id on a property the owner holds. Then only that booking's status changes, to the given value. A missing user gives `Internal` and a tenant gives a role violation. For an owner: not found exactly when no booking has that id, `Internal` exactly when the booking's property is gone, and an ownership violation exactly when the property is someone else's. Everything else is unchanged. |
| RentalStore.Store.CancelBooking | routes/booking.route.js:203-242 | Success holds exactly for a tenant and a booking whose id and tenant match. The new table is the old one with exactly that booking removed, the others keeping their order. A missing user gives user-not-found, an owner a role violation, and a tenant's other failures not found. |
| RentalStore.Store.MyBookings | routes/booking.route.js:108-129 | A tenant gets their own bookings, each as many times as the store holds it (a multiset equality), or not found when there are none. An owner is refused, and a missing record gives `Internal`. |
| RentalStore.Store.BookingInfo | routes/booking.route.js:257-318 | A tenant gets a booking only if it is theirs, and exactly when such a booking exists; otherwise not found. For an owner, not found holds exactly when no booking has that id. An owner gets the booking only if its property is theirs. With distinct ids the owner gets it exactly then, and an ownership violation exactly otherwise. A missing user gives user-not-found. |
| RentalStore.Store.PropertyBookings | routes/booking.route.js:333-367 | Only the property's owner gets an answer: the bookings with that property id, each as many times as the store holds it (a multiset equality), or not found when there are none. A missing user gives `Internal`, a tenant a role violation, and an absent property not found. An ownership violation means the property with that id is someone else's, and with distinct ids such a property always gives it. |
| RentalStore.Store.AddReview | routes/reviews.route.js:10-78 | The outcome is the guard's verdict, so an empty comment gives `Internal` with nothing written. On success exactly one review is appended, with the given rating, comment, property, user and timestamp. The property with that id gets the mean of all its ratings, new one included, and no other property or field changes. Nothing changes on refusal. |
| RentalStore.Store.SetAverageRating | routes/reviews.route.js:67-73 | Only the property with that id gets the new average. Every other document is untouched. |
| RentalStore.Store.MyReviews | routes/reviews.route.js:84-100 | A user gets exactly their reviews, newest first, each as many times as the store holds it (a multiset equality), or not found when there are none. A missing user gives user-not-found. |
| RentalStore.Store.PropertyReviews | routes/reviews.route.js:106-117 | The answer is exactly the property's reviews, newest first, each as many times as the store holds it (a multiset equality), or not found when there are none. |
| RentalStore.Store.ListProperty | routes/property.route.js:9-78 | Success holds exactly for an owner whose listing has a non-empty title, description, location and type. An owner's listing with an empty one gives `Internal`. On success one property is appended, owned by the requester and carrying a fresh id. Nothing is created otherwise. |
| RentalStore.Store.AllProperties | routes/property.route.js:80-88 | Every stored property, in store order. |
| RentalStore.Store.DeleteProperty | routes/property.route.js:90-123 | Success holds exactly for an owner deleting a property they own. The new collection is the old one with exactly that property removed, the others keeping their order. Bookings and reviews that reference it stay. A non-owner is refused first. For an owner, not found holds exactly when no property has that id, and an ownership violation exactly when the property is someone else's. |
| RentalStore.Store.MyProfile | routes/profile.route.js:8-38 | The requester's stored record, or user-not-found. |
| RentalStore.Store.UpdateProfile | routes/profile.route.js:40-107 | A missing user is refused with no change. Otherwise only the requester's record is rewritten, as the merge of the stored record with the request. Other users and collections are unchanged. |

## Left out

- Bearer tokens and `jwt.verify`/`jwt.sign` belong to a foreign library. The caller is the user id the token carries. The missing-token and invalid-token answers are not modelled.
- routes/auth.route.js (sign-up and log-in) and middlewares/auth.middleware.js are not part of this model. They are password hashing, token issuing and one insert.
- Request-body validation (zod) and `Date.parse` are not modelled. Inputs are well-typed, with dates as integer timestamps. So are the "Booking ID is required" answers for an absent query parameter.
- HTTP status codes, JSON bodies and `console.log` are not modelled. Each answer is an error tag of `Records.Error`.
- Store failures other than the required-string check on `create` are not modelled. This covers the unique-email index refusing an `update-profile` write and a malformed id throwing in a query.
- The average is an exact `real`. IEEE double rounding of the sum and the division is not modelled.
- The read-then-write race between the overlap check and the insert is not modelled. The model is sequential.
- Ids and timestamps are not modelled as the store makes them. Fresh ObjectIds come from the `nextId` counter, and `createdAt` is a parameter of `AddReview`.
- RentalStore.Store.MyReviews and RentalStore.Store.PropertyReviews: each fixes the multiset and the order of the result but not how equal timestamps are ordered. The database leaves that unspecified too.
- Database connection, CORS and server startup (db/db.js, index.js) are not modelled.
