/** The guards of the property handlers: owner-only `list-property` and the
    ownership-checked `delete /:propertyId`. */
module PropertyRules {
  import opened Records
  import opened Queries

  /** The listing fields the property schema declares as required strings (title,
      description, location and type) are all non-empty, so `PropertyModel.create`
      accepts the document. */
  predicate Complete(l: Listing) {
    Filled(l.title) && Filled(l.description) && Filled(l.location) && Filled(l.kind)
  }

  /** The verdict of `list-property`: the requester's record must exist (the handler reads
      `user.isOwner` without checking, so a missing record ends in its catch block), must
      be an owner's, and `create` must accept the listing (a refused listing also ends in
      the catch block). */
  function ListPropertyGuard(requester: Option<User>, l: Listing): (r: Outcome)
    ensures r == Success <==> IsOwner(requester) && Complete(l)
    ensures requester.None? ==> r == Failure(Internal)
    ensures IsTenant(requester) ==> r == Failure(RoleViolation)
    ensures IsOwner(requester) && !Complete(l) ==> r == Failure(Internal)
  {
    if requester.None? then Failure(Internal)
    else if !requester.value.isOwner then Failure(RoleViolation)
    else if !Complete(l) then Failure(Internal)
    else Success
  }

  /** The property `list-property` inserts: the request's fields, owned by the requester. */
  function NewProperty(id: Id, owner: Id, l: Listing): (p: Property)
    ensures p.id == id && p.owner == owner && p.averageRating == l.averageRating
  {
    Property(id, owner, l.title, l.description, l.location, l.price, l.kind, l.size,
             l.available, l.amenities, l.averageRating)
  }

  /** The guards of `delete /:propertyId`, in order: the requester must be an owner, the
      property must exist, and it must be the requester's. On success, its position. */
  function DeletePropertyGuard(ps: seq<Property>, requester: Option<User>, user: Id, property: Id)
    : (r: Result<nat>)
    ensures !IsOwner(requester) ==> r == Err(RoleViolation)
    ensures IsOwner(requester) ==>
              (r == Err(NotFound) <==> forall k :: 0 <= k < |ps| ==> ps[k].id != property)
    ensures r == Err(OwnershipViolation) ==>
              IsOwner(requester)
              && exists k :: 0 <= k < |ps| && ps[k].id == property && ps[k].owner != user
    ensures IsOwner(requester) && DistinctKeys(ps, PropertyKey)
            && (exists k :: 0 <= k < |ps| && ps[k].id == property && ps[k].owner != user) ==>
              r == Err(OwnershipViolation)
    ensures r.Ok? ==> IsOwner(requester) && r.value < |ps|
                      && ps[r.value].id == property && ps[r.value].owner == user
    ensures IsOwner(requester) && DistinctKeys(ps, PropertyKey) ==>
              (r.Ok? <==> exists k :: 0 <= k < |ps| && ps[k].id == property && ps[k].owner == user)
    ensures r.Err? && IsOwner(requester) ==> r.error in {NotFound, OwnershipViolation}
  {
    if requester.None? || !requester.value.isOwner then Err(RoleViolation)
    else
      match FirstMatch(ps, (p: Property) => p.id == property)
      case None => Err(NotFound)
      case Some(k) =>
        if ps[k].owner != user then
          assert DistinctKeys(ps, PropertyKey) ==>
                   forall m :: 0 <= m < |ps| && ps[m].id == property ==> ps[m].owner != user by {
            if DistinctKeys(ps, PropertyKey) {
              forall m | 0 <= m < |ps| && ps[m].id == property ensures ps[m].owner != user {
                assert PropertyKey(ps[m]) == PropertyKey(ps[k]);
              }
            }
          }
          Err(OwnershipViolation)
        else
          assert DistinctKeys(ps, PropertyKey) ==>
                   forall m :: 0 <= m < |ps| && ps[m].id == property ==> ps[m].owner == user by {
            if DistinctKeys(ps, PropertyKey) {
              forall m | 0 <= m < |ps| && ps[m].id == property ensures ps[m].owner == user {
                assert PropertyKey(ps[m]) == PropertyKey(ps[k]);
              }
            }
          }
          Ok(k)
  }
}
