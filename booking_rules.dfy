/** The booking validator: the guards of `add-booking`, `update-status` and
    `delete` over the booking and property collections, and the booking-table
    invariants those handlers keep. */
module BookingRules {
  import opened Records
  import opened Queries

  /** The instant t lies in the half-open range [from, to). */
  ghost predicate Covers(from: Time, to: Time, t: Time) {
    from <= t < to
  }

  /** The overlap query `startDate < end && endDate > start`. */
  predicate Overlaps(b: Booking, start: Time, end: Time) {
    b.startDate < end && b.endDate > start
  }

  /** For two non-empty ranges, the overlap query holds exactly when the booked range
      [startDate, endDate) and the requested range [start, end) share an instant. (For
      an inverted request it may hold all the same.) */
  lemma OverlapsSharesInstant(b: Booking, start: Time, end: Time)
    requires b.startDate < b.endDate && start < end
    ensures Overlaps(b, start, end) <==> exists t :: Covers(b.startDate, b.endDate, t) && Covers(start, end, t)
  {
    if Overlaps(b, start, end) {
      var t := if b.startDate < start then start else b.startDate;
      assert Covers(b.startDate, b.endDate, t) && Covers(start, end, t);
    }
  }

  /** The user already holds a booking (any dates, any status) for the property. */
  ghost predicate HoldsBooking(bs: seq<Booking>, user: Id, property: Id) {
    exists i :: 0 <= i < |bs| && bs[i].userId == user && bs[i].propertyId == property
  }

  /** Some booking on the property (any tenant, any status) overlaps [start, end). */
  ghost predicate Clashes(bs: seq<Booking>, property: Id, start: Time, end: Time) {
    exists i :: 0 <= i < |bs| && bs[i].propertyId == property && Overlaps(bs[i], start, end)
  }

  /** `find({ userId: user })` on bookings. */
  function BookedBy(user: Id): Booking -> bool {
    (b: Booking) => b.userId == user
  }

  /** `find({ propertyId: property })` on bookings. */
  function BookingsOn(property: Id): Booking -> bool {
    (b: Booking) => b.propertyId == property
  }

  /** Some property with that id is owned by `owner`. */
  ghost predicate Owns(ps: seq<Property>, owner: Id, property: Id) {
    exists k :: 0 <= k < |ps| && ps[k].id == property && ps[k].owner == owner
  }

  /** The guards of `add-booking`, first failure wins: duplicate, overlap, range, role. */
  function AddBookingGuard(bs: seq<Booking>, requester: Option<User>, user: Id, property: Id,
                           start: Time, end: Time): (r: Outcome)
    ensures HoldsBooking(bs, user, property) ==> r == Failure(DuplicateBooking)
    ensures !HoldsBooking(bs, user, property) && Clashes(bs, property, start, end) ==>
              r == Failure(DateConflict)
    ensures !HoldsBooking(bs, user, property) && !Clashes(bs, property, start, end) && start >= end ==>
              r == Failure(InvalidRange)
    ensures (!HoldsBooking(bs, user, property) && !Clashes(bs, property, start, end) && start < end
             && !IsTenant(requester)) ==> r == Failure(RoleViolation)
    ensures r == Success <==>
              !HoldsBooking(bs, user, property) && !Clashes(bs, property, start, end) && start < end
              && IsTenant(requester)
  {
    var mine := Filter(bs, (b: Booking) => b.propertyId == property && b.userId == user);
    var clash := FirstMatch(bs, (b: Booking) => b.propertyId == property && Overlaps(b, start, end));
    assert HoldsBooking(bs, user, property) ==> |mine| > 0 by {
      if HoldsBooking(bs, user, property) {
        var i :| 0 <= i < |bs| && bs[i].userId == user && bs[i].propertyId == property;
        assert bs[i] in mine;
      }
    }
    if |mine| > 0 then
      assert mine[0] in bs;
      Failure(DuplicateBooking)
    else if clash.Some? then Failure(DateConflict)
    else if start >= end then Failure(InvalidRange)
    else if requester.None? || requester.value.isOwner then Failure(RoleViolation)
    else Success
  }

  /** The booking `add-booking` inserts: the request's property, tenant, dates and price,
      in status `"pending"`. */
  function NewBooking(id: Id, property: Id, user: Id, start: Time, end: Time, price: real): (b: Booking)
    ensures b.id == id && b.propertyId == property && b.userId == user
    ensures b.startDate == start && b.endDate == end && b.totalPrice == price
    ensures b.status == Pending
  {
    Booking(id, property, user, start, end, price, Pending)
  }

  /** The booking with that id lies on a property with another owner. */
  ghost predicate OthersBooking(ps: seq<Property>, bs: seq<Booking>, user: Id, booking: Id) {
    exists i, k :: 0 <= i < |bs| && 0 <= k < |ps| && bs[i].id == booking && ps[k].id == bs[i].propertyId
                   && ps[k].owner != user
  }

  /** The booking with that id lies on a property no longer in the store. */
  ghost predicate Orphaned(ps: seq<Property>, bs: seq<Booking>, booking: Id) {
    exists i :: 0 <= i < |bs| && bs[i].id == booking && forall k :: 0 <= k < |ps| ==> ps[k].id != bs[i].propertyId
  }

  /** The guards of `update-status`: the requester must be an owner, the booking must
      exist, and its property must be the requester's; reading the owner of a property
      that is gone throws. On success, the position of the booking. */
  function UpdateStatusGuard(ps: seq<Property>, bs: seq<Booking>, requester: Option<User>,
                             user: Id, booking: Id): (r: Result<nat>)
    ensures requester.None? ==> r == Err(Internal)
    ensures IsTenant(requester) ==> r == Err(RoleViolation)
    ensures IsOwner(requester) ==> (r == Err(NotFound) <==> forall i :: 0 <= i < |bs| ==> bs[i].id != booking)
    ensures r == Err(Internal) ==> requester.None? || Orphaned(ps, bs, booking)
    ensures r == Err(OwnershipViolation) ==> IsOwner(requester) && OthersBooking(ps, bs, user, booking)
    ensures r.Ok? ==> IsOwner(requester) && r.value < |bs| && bs[r.value].id == booking
                      && Owns(ps, user, bs[r.value].propertyId)
    ensures r.Ok? || r.error in {Internal, RoleViolation, NotFound, OwnershipViolation}
  {
    if requester.None? then Err(Internal)
    else if !requester.value.isOwner then Err(RoleViolation)
    else
      match FirstMatch(bs, (b: Booking) => b.id == booking)
      case None => Err(NotFound)
      case Some(i) =>
        match FirstMatch(ps, (p: Property) => p.id == bs[i].propertyId)
        case None =>
          assert Orphaned(ps, bs, booking);
          Err(Internal)
        case Some(k) =>
          if ps[k].owner != user then
            assert OthersBooking(ps, bs, user, booking);
            Err(OwnershipViolation)
          else Ok(i)
  }

  /** With distinct booking and property ids, a booking with a given id is either on
      a property of the user, on someone else's, or on one that is gone, never two of these. */
  lemma {:induction false} BookingPlacement(ps: seq<Property>, bs: seq<Booking>, user: Id, booking: Id)
    requires DistinctKeys(bs, BookingKey) && DistinctKeys(ps, PropertyKey)
    ensures var mine := exists i :: 0 <= i < |bs| && bs[i].id == booking && Owns(ps, user, bs[i].propertyId);
            (mine ==> !OthersBooking(ps, bs, user, booking) && !Orphaned(ps, bs, booking))
            && (OthersBooking(ps, bs, user, booking) ==> !Orphaned(ps, bs, booking))
  {
    forall i, j | 0 <= i < j < |bs| ensures bs[i].id != bs[j].id {
      assert BookingKey(bs[i]) != BookingKey(bs[j]);
    }
    forall k, m | 0 <= k < m < |ps| ensures ps[k].id != ps[m].id {
      assert PropertyKey(ps[k]) != PropertyKey(ps[m]);
    }
  }

  /** With distinct ids, `update-status` succeeds exactly on a booking of the owner's
      property, answers `Internal` exactly for a booking whose property is gone, and
      refuses ownership exactly for a booking on another owner's property. */
  lemma UpdateStatusGuardExact(ps: seq<Property>, bs: seq<Booking>, requester: Option<User>, user: Id, booking: Id)
    requires IsOwner(requester) && DistinctKeys(bs, BookingKey) && DistinctKeys(ps, PropertyKey)
    ensures var r := UpdateStatusGuard(ps, bs, requester, user, booking);
            (r.Ok? <==> exists i :: 0 <= i < |bs| && bs[i].id == booking && Owns(ps, user, bs[i].propertyId))
            && (r == Err(Internal) <==> Orphaned(ps, bs, booking))
            && (r == Err(OwnershipViolation) <==> OthersBooking(ps, bs, user, booking))
  {
    BookingPlacement(ps, bs, user, booking);
  }

  /** The guards of the tenant's `delete`: the requester must be a tenant holding a
      booking with that id. On success, the position of the booking to remove. */
  function CancelGuard(bs: seq<Booking>, requester: Option<User>, user: Id, booking: Id): (r: Result<nat>)
    ensures requester.None? ==> r == Err(UserNotFound)
    ensures IsOwner(requester) ==> r == Err(RoleViolation)
    ensures r.Ok? ==> IsTenant(requester) && r.value < |bs| && bs[r.value].id == booking && bs[r.value].userId == user
    ensures IsTenant(requester) ==>
              (r.Ok? <==> exists i :: 0 <= i < |bs| && bs[i].id == booking && bs[i].userId == user)
    ensures r.Err? && IsTenant(requester) ==> r == Err(NotFound)
  {
    if requester.None? then Err(UserNotFound)
    else if requester.value.isOwner then Err(RoleViolation)
    else
      match FirstMatch(bs, (b: Booking) => b.id == booking && b.userId == user)
      case None => Err(NotFound)
      case Some(i) => Ok(i)
  }

  /** Every booking's range is non-empty. */
  ghost predicate DatesOrdered(bs: seq<Booking>) {
    forall i :: 0 <= i < |bs| ==> bs[i].startDate < bs[i].endDate
  }

  /** At most one booking per (user, property) pair. */
  ghost predicate OnePerTenant(bs: seq<Booking>) {
    forall i, j :: 0 <= i < |bs| && 0 <= j < |bs| && i != j && bs[i].propertyId == bs[j].propertyId ==>
      bs[i].userId != bs[j].userId
  }

  /** No two bookings of one property overlap. */
  ghost predicate NoDoubleBooking(bs: seq<Booking>) {
    forall i, j :: 0 <= i < |bs| && 0 <= j < |bs| && i != j && bs[i].propertyId == bs[j].propertyId ==>
      !Overlaps(bs[i], bs[j].startDate, bs[j].endDate)
  }

  ghost predicate Consistent(bs: seq<Booking>) {
    DatesOrdered(bs) && OnePerTenant(bs) && NoDoubleBooking(bs)
  }

  /** A booking `add-booking` accepts keeps the three booking invariants. */
  lemma AcceptedBookingKeepsConsistency(bs: seq<Booking>, requester: Option<User>, user: Id, property: Id,
                                        start: Time, end: Time, b: Booking)
    requires AddBookingGuard(bs, requester, user, property, start, end) == Success
    requires b.propertyId == property && b.userId == user && b.startDate == start && b.endDate == end
    requires Consistent(bs)
    ensures Consistent(bs + [b])
  {
    var bs' := bs + [b];
    forall i, j | 0 <= i < |bs'| && 0 <= j < |bs'| && i != j && bs'[i].propertyId == bs'[j].propertyId
      ensures bs'[i].userId != bs'[j].userId && !Overlaps(bs'[i], bs'[j].startDate, bs'[j].endDate)
    {
      if j == |bs| {
        assert bs'[i] == bs[i];
      } else if i == |bs| {
        assert bs'[j] == bs[j];
      } else {
        assert bs'[i] == bs[i] && bs'[j] == bs[j];
      }
    }
  }

  /** Changing one booking's status keeps the invariants: dates, tenant and property are untouched. */
  lemma StatusChangeKeepsConsistency(bs: seq<Booking>, i: nat, status: BookingStatus)
    requires i < |bs| && Consistent(bs)
    ensures Consistent(bs[i := bs[i].(status := status)])
  {
  }

  /** Setting the status of the booking at position i changes that booking alone,
      whose id no other booking shares, and keeps ids distinct and bounded. */
  lemma {:induction false} StatusChangeKeepsKeys(bs: seq<Booking>, i: nat, status: BookingStatus, bound: Id)
    requires i < |bs| && DistinctKeys(bs, BookingKey)
    requires forall b :: b in bs ==> b.id < bound
    ensures DistinctKeys(bs[i := bs[i].(status := status)], BookingKey)
    ensures forall b :: b in bs[i := bs[i].(status := status)] ==> b.id < bound
    ensures forall j :: 0 <= j < |bs| ==>
              bs[i := bs[i].(status := status)][j] == if bs[j].id == bs[i].id then bs[j].(status := status) else bs[j]
  {
    var r := bs[i := bs[i].(status := status)];
    forall j | 0 <= j < |bs| && bs[j].id == bs[i].id ensures j == i {
      assert BookingKey(bs[j]) == BookingKey(bs[i]);
    }
    forall a, c | 0 <= a < c < |r| ensures BookingKey(r[a]) != BookingKey(r[c]) {
      assert BookingKey(r[a]) == BookingKey(bs[a]) && BookingKey(r[c]) == BookingKey(bs[c]);
    }
    forall b | b in r ensures b.id < bound {
      var j :| 0 <= j < |r| && r[j] == b;
      assert bs[j] in bs;
    }
  }

  /** Removing a booking keeps the invariants: they speak of pairs, and no pair is added. */
  lemma {:induction false} RemovalKeepsConsistency(bs: seq<Booking>, i: nat)
    requires i < |bs| && Consistent(bs)
    ensures Consistent(RemoveAt(bs, i))
  {
    var r := RemoveAt(bs, i);
    assert forall j :: 0 <= j < |r| ==> r[j] == if j < i then bs[j] else bs[j + 1];
    forall a, c | 0 <= a < |r| && 0 <= c < |r| && a != c && r[a].propertyId == r[c].propertyId
      ensures r[a].userId != r[c].userId && !Overlaps(r[a], r[c].startDate, r[c].endDate)
    {
      var a' := if a < i then a else a + 1;
      var c' := if c < i then c else c + 1;
      assert r[a] == bs[a'] && r[c] == bs[c'] && a' != c';
    }
  }

  /** Ranges that only touch do not overlap: a booking that ends when the requested
      range starts, or starts when it ends, never blocks the request. */
  lemma TouchingRangesAccepted(bs: seq<Booking>, requester: Option<User>, user: Id, property: Id,
                               start: Time, end: Time)
    requires forall i :: 0 <= i < |bs| && bs[i].propertyId == property ==>
               bs[i].endDate <= start || bs[i].startDate >= end
    requires !HoldsBooking(bs, user, property) && start < end && IsTenant(requester)
    ensures AddBookingGuard(bs, requester, user, property, start, end) == Success
  {
  }

  /** The overlap check runs before the range check, so an inverted range (end at or
      before start) whose bounds straddle an existing booking of the property is
      reported as a conflict, whoever asks. */
  lemma InvertedRangeReportedAsConflict(bs: seq<Booking>, i: nat, requester: Option<User>, user: Id,
                                        property: Id, start: Time, end: Time)
    requires i < |bs| && bs[i].propertyId == property
    requires bs[i].startDate < end && start < bs[i].endDate && end <= start
    requires !HoldsBooking(bs, user, property)
    ensures AddBookingGuard(bs, requester, user, property, start, end) == Failure(DateConflict)
  {
    assert Overlaps(bs[i], start, end);
  }

  /** A tenant is refused a second booking of a property even for disjoint dates. */
  lemma SecondBookingIsDuplicate(first: Booking, requester: Option<User>, start: Time, end: Time)
    ensures AddBookingGuard([first], requester, first.userId, first.propertyId, start, end)
            == Failure(DuplicateBooking)
  {
    var bs := [first];
    assert bs[0].userId == first.userId && bs[0].propertyId == first.propertyId;
  }
}
