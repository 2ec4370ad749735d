/** The rental store: the four collections the handlers read and write, with every
    route handler of the booking, review, property and profile routers as a member.
    Handlers that write are methods; handlers that only answer are functions. The
    caller is the user id the bearer token carries. */
module RentalStore {
  import opened Records
  import opened Queries
  import opened BookingRules
  import opened ReviewRules
  import opened PropertyRules
  import opened ProfileRules

  class Store {
    var users: map<Id, User>
    var properties: seq<Property>
    var bookings: seq<Booking>
    var reviews: seq<Review>
    /** The next fresh document id: larger than every property and booking id. */
    var nextId: Id

    /** The store invariant: ids are unique and below `nextId`, the three booking
        invariants hold, and nobody reviewed a property twice. */
    ghost predicate Valid()
      reads this
    {
      DistinctKeys(properties, PropertyKey) && DistinctKeys(bookings, BookingKey)
      && (forall p :: p in properties ==> p.id < nextId)
      && (forall b :: b in bookings ==> b.id < nextId)
      && Consistent(bookings)
      && OneReviewPerPair(reviews)
    }

    /** `UserModel.findById(user)`. */
    function Lookup(user: Id): (r: Option<User>)
      reads this
      ensures r.Some? <==> user in users
      ensures r.Some? ==> r.value == users[user]
    {
      if user in users then Some(users[user]) else None
    }

    /** A store holding the given accounts and nothing else. */
    constructor (accounts: map<Id, User>)
      ensures Valid()
      ensures users == accounts && properties == [] && bookings == [] && reviews == []
    {
      users := accounts;
      properties := [];
      bookings := [];
      reviews := [];
      nextId := 0;
    }

    /** `add-booking`: the guards of AddBookingGuard, then one `pending` booking appended. */
    method AddBooking(user: Id, property: Id, start: Time, end: Time, price: real) returns (out: Outcome)
      requires Valid()
      modifies this
      ensures Valid()
      ensures out == AddBookingGuard(old(bookings), old(Lookup(user)), user, property, start, end)
      ensures out == Success <==>
                !HoldsBooking(old(bookings), user, property) && !Clashes(old(bookings), property, start, end)
                && start < end && IsTenant(old(Lookup(user)))
      ensures bookings == if out == Success
                          then old(bookings) + [NewBooking(old(nextId), property, user, start, end, price)]
                          else old(bookings)
      ensures users == old(users) && properties == old(properties) && reviews == old(reviews)
    {
      out := AddBookingGuard(bookings, Lookup(user), user, property, start, end);
      if out == Success {
        var b := NewBooking(nextId, property, user, start, end, price);
        AcceptedBookingKeepsConsistency(bookings, Lookup(user), user, property, start, end, b);
        bookings := bookings + [b];
        nextId := nextId + 1;
      }
    }

    /** `update-status`: an owner sets the status of a booking on one of their properties. */
    method UpdateStatus(user: Id, booking: Id, status: BookingStatus) returns (out: Outcome)
      requires Valid()
      modifies this
      ensures Valid()
      ensures out == Success <==>
                IsOwner(old(Lookup(user)))
                && exists i :: 0 <= i < |old(bookings)| && old(bookings)[i].id == booking
                                 && Owns(old(properties), user, old(bookings)[i].propertyId)
      ensures user !in old(users) ==> out == Failure(Internal)
      ensures IsTenant(old(Lookup(user))) ==> out == Failure(RoleViolation)
      ensures IsOwner(old(Lookup(user))) ==>
                (out == Failure(NotFound) <==> forall i :: 0 <= i < |old(bookings)| ==> old(bookings)[i].id != booking)
                && (out == Failure(Internal) <==> Orphaned(old(properties), old(bookings), booking))
                && (out == Failure(OwnershipViolation) <==> OthersBooking(old(properties), old(bookings), user, booking))
      ensures |bookings| == |old(bookings)|
      ensures forall j :: 0 <= j < |bookings| ==>
                bookings[j] == if out == Success && old(bookings)[j].id == booking
                               then old(bookings)[j].(status := status)
                               else old(bookings)[j]
      ensures users == old(users) && properties == old(properties) && reviews == old(reviews)
    {
      var g := UpdateStatusGuard(properties, bookings, Lookup(user), user, booking);
      if IsOwner(Lookup(user)) {
        UpdateStatusGuardExact(properties, bookings, Lookup(user), user, booking);
      }
      if g.Err? {
        out := Failure(g.error);
        return;
      }
      var i := g.value;
      StatusChangeKeepsConsistency(bookings, i, status);
      StatusChangeKeepsKeys(bookings, i, status, nextId);
      bookings := bookings[i := bookings[i].(status := status)];
      out := Success;
    }

    /** `delete`: a tenant cancels one of their own bookings. */
    method CancelBooking(user: Id, booking: Id) returns (out: Outcome)
      requires Valid()
      modifies this
      ensures Valid()
      ensures out == Success <==>
                IsTenant(old(Lookup(user)))
                && exists i :: 0 <= i < |old(bookings)| && old(bookings)[i].id == booking
                                 && old(bookings)[i].userId == user
      ensures user !in old(users) ==> out == Failure(UserNotFound)
      ensures IsOwner(old(Lookup(user))) ==> out == Failure(RoleViolation)
      ensures IsTenant(old(Lookup(user))) && out != Success ==> out == Failure(NotFound)
      ensures |bookings| == if out == Success then |old(bookings)| - 1 else |old(bookings)|
      ensures out == Success ==> forall b :: b in bookings <==> b in old(bookings) && b.id != booking
      ensures out == Success ==>
                exists i :: 0 <= i < |old(bookings)| && old(bookings)[i].id == booking
                            && old(bookings)[i].userId == user && bookings == RemoveAt(old(bookings), i)
      ensures out != Success ==> bookings == old(bookings)
      ensures users == old(users) && properties == old(properties) && reviews == old(reviews)
    {
      var g := CancelGuard(bookings, Lookup(user), user, booking);
      if g.Err? {
        out := Failure(g.error);
        return;
      }
      RemoveAtKeepsOthers(bookings, g.value, BookingKey);
      RemovalKeepsConsistency(bookings, g.value);
      bookings := RemoveAt(bookings, g.value);
      out := Success;
    }

    /** `my-bookings`: a tenant's own bookings, in store order. */
    function MyBookings(user: Id): (r: Result<seq<Booking>>)
      reads this
      ensures user !in users ==> r == Err(Internal)
      ensures IsOwner(Lookup(user)) ==> r == Err(RoleViolation)
      ensures IsTenant(Lookup(user)) ==> (r.Ok? <==> exists b :: b in bookings && b.userId == user)
      ensures IsTenant(Lookup(user)) && r.Err? ==> r.error == NotFound
      ensures r.Ok? ==> |r.value| > 0
      ensures r.Ok? ==> forall b :: multiset(r.value)[b] == if b.userId == user then multiset(bookings)[b] else 0
    {
      if user !in users then Err(Internal)
      else if users[user].isOwner then Err(RoleViolation)
      else
        var mine := Filter(bookings, BookedBy(user));
        FilterCount(bookings, BookedBy(user));
        if |mine| == 0 then Err(NotFound) else Ok(mine)
    }

    /** `booking-info`: one booking, to its tenant or to the owner of its property. */
    function BookingInfo(user: Id, booking: Id): (r: Result<Booking>)
      reads this
      ensures user !in users ==> r == Err(UserNotFound)
      ensures r.Ok? ==> user in users && r.value in bookings && r.value.id == booking
      ensures r.Ok? && IsTenant(Lookup(user)) ==> r.value.userId == user
      ensures r.Ok? && IsOwner(Lookup(user)) ==> Owns(properties, user, r.value.propertyId)
      ensures IsTenant(Lookup(user)) ==>
                (r.Ok? <==> exists b :: b in bookings && b.id == booking && b.userId == user)
      ensures IsTenant(Lookup(user)) && r.Err? ==> r.error == NotFound
      ensures IsOwner(Lookup(user)) ==> (r == Err(NotFound) <==> forall b :: b in bookings ==> b.id != booking)
      ensures r == Err(OwnershipViolation) ==>
                IsOwner(Lookup(user)) && exists b :: b in bookings && b.id == booking && !Owns(properties, user, b.propertyId)
      ensures IsOwner(Lookup(user)) && DistinctKeys(bookings, BookingKey) ==>
                (r.Ok? <==> exists b :: b in bookings && b.id == booking && Owns(properties, user, b.propertyId))
                && (r == Err(OwnershipViolation) <==>
                      exists b :: b in bookings && b.id == booking && !Owns(properties, user, b.propertyId))
    {
      if user !in users then Err(UserNotFound)
      else if !users[user].isOwner then
        match FirstMatch(bookings, (b: Booking) => b.id == booking && b.userId == user)
        case None =>
          assert forall b :: b in bookings ==> !(b.id == booking && b.userId == user);
          Err(NotFound)
        case Some(i) => Ok(bookings[i])
      else
        match FirstMatch(bookings, (b: Booking) => b.id == booking)
        case None =>
          assert forall b :: b in bookings ==> b.id != booking;
          Err(NotFound)
        case Some(i) =>
          var b := bookings[i];
          assert b in bookings;
          assert DistinctKeys(bookings, BookingKey) ==> forall c :: c in bookings && c.id == booking ==> c == b by {
            if DistinctKeys(bookings, BookingKey) {
              forall c | c in bookings && c.id == booking ensures c == b {
                var j :| 0 <= j < |bookings| && bookings[j] == c;
                assert BookingKey(bookings[j]) == BookingKey(bookings[i]);
              }
            }
          }
          match FirstMatch(properties, (p: Property) => p.owner == user && p.id == b.propertyId)
          case None => Err(OwnershipViolation)
          case Some(k) => Ok(b)
    }

    /** `/:propertyId` of the booking router: the bookings of a property, to its owner. */
    function PropertyBookings(user: Id, property: Id): (r: Result<seq<Booking>>)
      reads this
      ensures user !in users ==> r == Err(Internal)
      ensures IsTenant(Lookup(user)) ==> r == Err(RoleViolation)
      ensures IsOwner(Lookup(user)) && (forall k :: 0 <= k < |properties| ==> properties[k].id != property) ==>
                r == Err(NotFound)
      ensures r == Err(OwnershipViolation) ==>
                IsOwner(Lookup(user))
                && exists k :: 0 <= k < |properties| && properties[k].id == property && properties[k].owner != user
      ensures IsOwner(Lookup(user)) && DistinctKeys(properties, PropertyKey)
              && (exists k :: 0 <= k < |properties| && properties[k].id == property && properties[k].owner != user) ==>
                r == Err(OwnershipViolation)
      ensures r.Ok? ==> IsOwner(Lookup(user)) && Owns(properties, user, property)
      ensures r.Ok? ==> |r.value| > 0
      ensures r.Ok? ==>
                forall b :: multiset(r.value)[b] == if b.propertyId == property then multiset(bookings)[b] else 0
      ensures IsOwner(Lookup(user)) && Owns(properties, user, property) && DistinctKeys(properties, PropertyKey) ==>
                (r.Ok? <==> exists b :: b in bookings && b.propertyId == property)
                && (r.Err? ==> r.error == NotFound)
    {
      if user !in users then Err(Internal)
      else if !users[user].isOwner then Err(RoleViolation)
      else
        match FirstMatch(properties, (p: Property) => p.id == property)
        case None => Err(NotFound)
        case Some(k) =>
          assert DistinctKeys(properties, PropertyKey) ==>
                   forall m :: 0 <= m < |properties| && properties[m].id == property ==>
                     properties[m].owner == properties[k].owner by {
            if DistinctKeys(properties, PropertyKey) {
              forall m | 0 <= m < |properties| && properties[m].id == property
                ensures properties[m].owner == properties[k].owner
              {
                assert PropertyKey(properties[m]) == PropertyKey(properties[k]);
              }
            }
          }
          if properties[k].owner != user then Err(OwnershipViolation)
          else
            var theirs := Filter(bookings, BookingsOn(property));
            FilterCount(bookings, BookingsOn(property));
            if |theirs| == 0 then Err(NotFound) else Ok(theirs)
    }

    /** `add-review`: the guards of AddReviewGuard, then the review appended and the
        property's `averageRating` set to the mean of all its ratings. A comment the
        schema refuses writes nothing. */
    method AddReview(user: Id, property: Id, rating: real, comment: string, now: Time) returns (out: Outcome)
      requires Valid()
      modifies this
      ensures Valid()
      ensures out == AddReviewGuard(old(reviews), old(Lookup(user)), user, property, comment)
      ensures out == Success <==>
                IsTenant(old(Lookup(user))) && !HasReviewed(old(reviews), user, property) && Filled(comment)
      ensures IsTenant(old(Lookup(user))) && !HasReviewed(old(reviews), user, property) && !Filled(comment) ==>
                out == Failure(Internal)
      ensures reviews == if out == Success then old(reviews) + [Review(rating, comment, property, user, now)]
                         else old(reviews)
      ensures out == Success ==> Reviewed(reviews, property)
      ensures |properties| == |old(properties)|
      ensures forall k :: 0 <= k < |properties| ==>
                properties[k] == if out == Success && old(properties)[k].id == property
                                 then old(properties)[k].(averageRating := Some(AverageRating(reviews, property)))
                                 else old(properties)[k]
      ensures users == old(users) && bookings == old(bookings)
    {
      out := AddReviewGuard(reviews, Lookup(user), user, property, comment);
      if out != Success {
        return;
      }
      var x := Review(rating, comment, property, user, now);
      AcceptedReviewKeepsOnePerPair(reviews, Lookup(user), user, property, x);
      InsertedReviewCounts(reviews, x);
      reviews := reviews + [x];
      SetAverageRating(property, AverageRating(reviews, property));
    }

    /** `PropertyModel.findByIdAndUpdate(property, { averageRating })`: the property with
        that id, if any, gets the new average; nothing else changes. */
    method SetAverageRating(property: Id, avg: real)
      requires Valid()
      modifies this
      ensures Valid()
      ensures |properties| == |old(properties)|
      ensures forall k :: 0 <= k < |properties| ==>
                properties[k] == if old(properties)[k].id == property
                                 then old(properties)[k].(averageRating := Some(avg))
                                 else old(properties)[k]
      ensures users == old(users) && bookings == old(bookings) && reviews == old(reviews)
    {
      match FirstMatch(properties, (p: Property) => p.id == property)
      case None =>
      case Some(k) =>
        RatingUpdateKeepsOthers(properties, k, avg, nextId);
        properties := properties[k := properties[k].(averageRating := Some(avg))];
    }

    /** `my-reviews`: the requester's reviews, newest first. */
    function MyReviews(user: Id): (r: Result<seq<Review>>)
      reads this
      ensures user !in users ==> r == Err(UserNotFound)
      ensures user in users ==> (r.Ok? <==> exists x :: x in reviews && x.userId == user)
      ensures user in users && r.Err? ==> r.error == NotFound
      ensures r.Ok? ==> NewestFirst(r.value)
      ensures r.Ok? ==> forall x :: multiset(r.value)[x] == if x.userId == user then multiset(reviews)[x] else 0
      ensures r.Ok? ==> forall x :: x in r.value <==> x in reviews && x.userId == user
    {
      if user !in users then Err(UserNotFound)
      else
        var mine := Filter(reviews, ReviewedBy(user));
        FilterCount(reviews, ReviewedBy(user));
        if |mine| == 0 then Err(NotFound)
        else
          assert mine[0] in mine;
          var sorted := SortNewestFirst(mine);
          SortKeepsMembers(mine);
          Ok(sorted)
    }

    /** `/:propertyId` of the review router: the property's reviews, newest first. */
    function PropertyReviews(property: Id): (r: Result<seq<Review>>)
      reads this
      ensures r.Ok? <==> exists x :: x in reviews && x.propertyId == property
      ensures r.Err? ==> r.error == NotFound
      ensures r.Ok? ==> NewestFirst(r.value)
      ensures r.Ok? ==> forall x :: multiset(r.value)[x] == if x.propertyId == property then multiset(reviews)[x] else 0
      ensures r.Ok? ==> forall x :: x in r.value <==> x in reviews && x.propertyId == property
    {
      var theirs := ReviewsOf(reviews, property);
      FilterCount(reviews, ReviewedProperty(property));
      if |theirs| == 0 then Err(NotFound)
      else
        assert theirs[0] in theirs;
        var sorted := SortNewestFirst(theirs);
        SortKeepsMembers(theirs);
        Ok(sorted)
    }

    /** `list-property`: an owner lists a property, owned by them. A listing the schema
        refuses creates nothing. */
    method ListProperty(user: Id, listing: Listing) returns (out: Outcome)
      requires Valid()
      modifies this
      ensures Valid()
      ensures out == ListPropertyGuard(old(Lookup(user)), listing)
      ensures out == Success <==> IsOwner(old(Lookup(user))) && Complete(listing)
      ensures IsOwner(old(Lookup(user))) && !Complete(listing) ==> out == Failure(Internal)
      ensures properties == if out == Success then old(properties) + [NewProperty(old(nextId), user, listing)]
                            else old(properties)
      ensures users == old(users) && bookings == old(bookings) && reviews == old(reviews)
    {
      out := ListPropertyGuard(Lookup(user), listing);
      if out == Success {
        var p := NewProperty(nextId, user, listing);
        assert forall q :: q in properties + [p] ==> q in properties || q == p;
        properties := properties + [p];
        nextId := nextId + 1;
      }
    }

    /** `all-properties`: every stored property. */
    function AllProperties(): (r: seq<Property>)
      reads this
      ensures r == properties
    {
      properties
    }

    /** `delete /:propertyId`: an owner removes one of their own properties. */
    method DeleteProperty(user: Id, property: Id) returns (out: Outcome)
      requires Valid()
      modifies this
      ensures Valid()
      ensures out == Success <==>
                IsOwner(old(Lookup(user)))
                && exists k :: 0 <= k < |old(properties)| && old(properties)[k].id == property
                                 && old(properties)[k].owner == user
      ensures !IsOwner(old(Lookup(user))) ==> out == Failure(RoleViolation)
      ensures IsOwner(old(Lookup(user))) ==>
                (out == Failure(NotFound) <==> forall k :: 0 <= k < |old(properties)| ==> old(properties)[k].id != property)
                && (out == Failure(OwnershipViolation) <==>
                      exists k :: 0 <= k < |old(properties)| && old(properties)[k].id == property
                                  && old(properties)[k].owner != user)
      ensures |properties| == if out == Success then |old(properties)| - 1 else |old(properties)|
      ensures out == Success ==> forall p :: p in properties <==> p in old(properties) && p.id != property
      ensures out == Success ==>
                exists k :: 0 <= k < |old(properties)| && old(properties)[k].id == property
                            && old(properties)[k].owner == user && properties == RemoveAt(old(properties), k)
      ensures out != Success ==> properties == old(properties)
      ensures users == old(users) && bookings == old(bookings) && reviews == old(reviews)
    {
      var g := DeletePropertyGuard(properties, Lookup(user), user, property);
      if g.Err? {
        out := Failure(g.error);
        return;
      }
      RemoveAtKeepsOthers(properties, g.value, PropertyKey);
      properties := RemoveAt(properties, g.value);
      out := Success;
    }

    /** `my-profile`: the requester's stored record. */
    function MyProfile(user: Id): (r: Result<User>)
      reads this
      ensures user in users ==> r == Ok(users[user])
      ensures user !in users ==> r == Err(UserNotFound)
    {
      if user in users then Ok(users[user]) else Err(UserNotFound)
    }

    /** `update-profile`: the requester's record overwritten by its merge with the request. */
    method UpdateProfile(user: Id, patch: ProfilePatch) returns (out: Outcome)
      requires Valid()
      modifies this
      ensures Valid()
      ensures out == Success <==> user in old(users)
      ensures out != Success ==> out == Failure(UserNotFound) && users == old(users)
      ensures out == Success ==> users == old(users)[user := Merge(old(users)[user], patch)]
      ensures properties == old(properties) && bookings == old(bookings) && reviews == old(reviews)
    {
      if user !in users {
        return Failure(UserNotFound);
      }
      users := users[user := Merge(users[user], patch)];
      out := Success;
    }
  }
}
