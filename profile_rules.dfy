/** The field-wise merge of `update-profile`: every field of the stored record
    is replaced by the supplied value when one is present (`supplied ?? stored`). */
module ProfileRules {
  import opened Records

  /** The record `update-profile` writes back: name, email, phone and role merged,
      the password carried over. */
  function Merge(stored: User, patch: ProfilePatch): (u: User)
    ensures u.name == (if patch.name.Some? then patch.name.value else stored.name)
    ensures u.email == (if patch.email.Some? then patch.email.value else stored.email)
    ensures u.phone == (if patch.phone.Some? then patch.phone.value else stored.phone)
    ensures u.isOwner == (if patch.isOwner.Some? then patch.isOwner.value else stored.isOwner)
    ensures u.password == stored.password
  {
    User(patch.name.GetOr(stored.name), patch.email.GetOr(stored.email), stored.password,
         patch.phone.GetOr(stored.phone), patch.isOwner.GetOr(stored.isOwner))
  }

  /** The request that supplies no field. */
  const EmptyPatch: ProfilePatch := ProfilePatch(None, None, None, None)

  /** A request that supplies no field leaves the record as it was. */
  lemma EmptyPatchKeepsRecord(stored: User)
    ensures Merge(stored, EmptyPatch) == stored
  {
  }

  /** Applying the same request twice gives the record applying it once gives. */
  lemma MergeIdempotent(stored: User, patch: ProfilePatch)
    ensures Merge(Merge(stored, patch), patch) == Merge(stored, patch)
  {
  }

  /** A request that supplies every field determines the written record: what was
      stored before, the password aside, no longer shows. */
  lemma MergeAgreesOnSuppliedFields(a: User, b: User, patch: ProfilePatch)
    requires patch.name.Some? && patch.email.Some? && patch.phone.Some? && patch.isOwner.Some?
    requires a.password == b.password
    ensures Merge(a, patch) == Merge(b, patch)
  {
  }
}
