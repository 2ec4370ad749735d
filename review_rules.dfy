/** The rating aggregator and the review guards: the duplicate and role checks of
    `add-review`, the average it stores, and the newest-first order of the review reads. */
module ReviewRules {
  import opened Records
  import opened Queries

  /** The user already reviewed the property. */
  ghost predicate HasReviewed(rs: seq<Review>, user: Id, property: Id) {
    exists i :: 0 <= i < |rs| && rs[i].userId == user && rs[i].propertyId == property
  }

  /** The verdict of `add-review`: the requester must exist, must not have reviewed the
      property yet, and must be a tenant, checked in that order; then `create` must accept
      the review, which the schema refuses for an empty comment (its catch block answers). */
  function AddReviewGuard(rs: seq<Review>, requester: Option<User>, user: Id, property: Id, comment: string)
    : (r: Outcome)
    ensures requester.None? ==> r == Failure(UserNotFound)
    ensures requester.Some? && HasReviewed(rs, user, property) ==> r == Failure(DuplicateReview)
    ensures IsOwner(requester) && !HasReviewed(rs, user, property) ==> r == Failure(RoleViolation)
    ensures IsTenant(requester) && !HasReviewed(rs, user, property) && !Filled(comment) ==>
              r == Failure(Internal)
    ensures r == Success <==> IsTenant(requester) && !HasReviewed(rs, user, property) && Filled(comment)
  {
    if requester.None? then Failure(UserNotFound)
    else if FirstMatch(rs, (x: Review) => x.userId == user && x.propertyId == property).Some? then
      Failure(DuplicateReview)
    else if requester.value.isOwner then Failure(RoleViolation)
    else if !Filled(comment) then Failure(Internal)
    else Success
  }

  /** At most one review per (user, property) pair. */
  ghost predicate OneReviewPerPair(rs: seq<Review>) {
    forall i, j :: 0 <= i < |rs| && 0 <= j < |rs| && i != j && rs[i].propertyId == rs[j].propertyId ==>
      rs[i].userId != rs[j].userId
  }

  /** A review `add-review` accepts keeps the one-review-per-pair invariant. */
  lemma AcceptedReviewKeepsOnePerPair(rs: seq<Review>, requester: Option<User>, user: Id, property: Id,
                                      x: Review)
    requires AddReviewGuard(rs, requester, user, property, x.comment) == Success
    requires x.userId == user && x.propertyId == property
    requires OneReviewPerPair(rs)
    ensures OneReviewPerPair(rs + [x])
  {
    var rs' := rs + [x];
    forall i, j | 0 <= i < |rs'| && 0 <= j < |rs'| && i != j && rs'[i].propertyId == rs'[j].propertyId
      ensures rs'[i].userId != rs'[j].userId
    {
      if j == |rs| {
        assert rs'[i] == rs[i];
      } else if i == |rs| {
        assert rs'[j] == rs[j];
      } else {
        assert rs'[i] == rs[i] && rs'[j] == rs[j];
      }
    }
  }

  /** `find({ propertyId: property })` on reviews. */
  function ReviewedProperty(property: Id): Review -> bool {
    (x: Review) => x.propertyId == property
  }

  /** `find({ userId: user })` on reviews. */
  function ReviewedBy(user: Id): Review -> bool {
    (x: Review) => x.userId == user
  }

  /** The reviews of one property, in collection order (`find({ propertyId })`). */
  function ReviewsOf(rs: seq<Review>, property: Id): seq<Review> {
    Filter(rs, ReviewedProperty(property))
  }

  /** The sum of the ratings added up from the front: the first rating plus the sum of
      the rest. */
  ghost function SumFromFront(rs: seq<Review>): real {
    if rs == [] then 0.0 else rs[0].rating + SumFromFront(rs[1..])
  }

  /** Adding a rating at the back of a front-first sum adds it to the sum. */
  lemma {:induction false} SumFromFrontSnoc(rs: seq<Review>, x: Review)
    ensures SumFromFront(rs + [x]) == SumFromFront(rs) + x.rating
  {
    if rs != [] {
      assert (rs + [x])[1..] == rs[1..] + [x];
      SumFromFrontSnoc(rs[1..], x);
    }
  }

  /** The sum of the ratings, folded from the left starting at 0 (`reduce`). */
  function RatingTotal(rs: seq<Review>): real {
    if rs == [] then 0.0 else RatingTotal(rs[..|rs| - 1]) + rs[|rs| - 1].rating
  }

  /** The left fold adds up the same sum as the front-first sum. */
  lemma {:induction false} RatingTotalFromFront(rs: seq<Review>)
    ensures RatingTotal(rs) == SumFromFront(rs)
  {
    if rs != [] {
      RatingTotalFromFront(rs[..|rs| - 1]);
      assert rs[..|rs| - 1] + [rs[|rs| - 1]] == rs;
      SumFromFrontSnoc(rs[..|rs| - 1], rs[|rs| - 1]);
    }
  }

  /** The total of two runs of reviews is the sum of their totals. */
  lemma {:induction false} RatingTotalConcat(a: seq<Review>, b: seq<Review>)
    ensures RatingTotal(a + b) == RatingTotal(a) + RatingTotal(b)
  {
    if b == [] {
      assert a + b == a;
    } else {
      RatingTotalConcat(a, b[..|b| - 1]);
      assert (a + b)[..|a + b| - 1] == a + b[..|b| - 1];
    }
  }

  /** Taking the review at position j out of a run takes its rating out of the total. */
  lemma RatingTotalRemove(b: seq<Review>, j: nat)
    requires j < |b|
    ensures RatingTotal(b) == b[j].rating + RatingTotal(b[..j] + b[j + 1..])
  {
    var front := b[..j] + [b[j]];
    assert front + b[j + 1..] == b;
    assert front[..|front| - 1] == b[..j];
    RatingTotalConcat(front, b[j + 1..]);
    RatingTotalConcat(b[..j], b[j + 1..]);
  }

  /** Two runs with the same reviews still have the same reviews once the first review
      of one and an equal review of the other are taken out. */
  lemma MultisetRemove(a: seq<Review>, b: seq<Review>, j: nat)
    requires multiset(a) == multiset(b) && a != [] && j < |b| && b[j] == a[0]
    ensures multiset(a[1..]) == multiset(b[..j] + b[j + 1..])
  {
    assert a == [a[0]] + a[1..];
    assert b == b[..j] + [b[j]] + b[j + 1..];
    assert multiset(a) == multiset{a[0]} + multiset(a[1..]);
    assert multiset(b) == multiset(b[..j]) + multiset{b[j]} + multiset(b[j + 1..]);
    assert multiset(b[..j] + b[j + 1..]) == multiset(b[..j]) + multiset(b[j + 1..]);
    forall z ensures multiset(a[1..])[z] == multiset(b[..j] + b[j + 1..])[z] {
      assert multiset(a)[z] == multiset{a[0]}[z] + multiset(a[1..])[z];
      assert multiset(b)[z] == multiset(b[..j])[z] + multiset{b[j]}[z] + multiset(b[j + 1..])[z];
    }
  }

  /** The total depends only on which reviews there are, not on the order `find`
      returns them in. */
  lemma {:induction false} RatingTotalPermutation(a: seq<Review>, b: seq<Review>)
    requires multiset(a) == multiset(b)
    ensures RatingTotal(a) == RatingTotal(b)
    decreases |a|
  {
    if a != [] {
      assert a[0] in multiset(b);
      var j :| 0 <= j < |b| && b[j] == a[0];
      MultisetRemove(a, b, j);
      RatingTotalPermutation(a[1..], b[..j] + b[j + 1..]);
      RatingTotalRemove(b, j);
      RatingTotalFromFront(a);
      RatingTotalFromFront(a[1..]);
    } else {
      assert b == [];
    }
  }

  /** The property has at least one review. */
  ghost predicate Reviewed(rs: seq<Review>, property: Id) {
    exists i :: 0 <= i < |rs| && rs[i].propertyId == property
  }

  /** A reviewed property has a non-empty list of reviews. */
  lemma ReviewedHasReviews(rs: seq<Review>, property: Id)
    requires Reviewed(rs, property)
    ensures |ReviewsOf(rs, property)| > 0
  {
    var i :| 0 <= i < |rs| && rs[i].propertyId == property;
    assert rs[i] in ReviewsOf(rs, property);
  }

  /** Total over count. */
  function Mean(total: real, count: nat): (m: real)
    requires count > 0
    ensures m * (count as real) == total
  {
    total / (count as real)
  }

  /** The mean rating of the property's reviews: their total over their count. */
  function AverageRating(rs: seq<Review>, property: Id): (avg: real)
    requires Reviewed(rs, property)
    ensures |ReviewsOf(rs, property)| > 0
    ensures avg * (|ReviewsOf(rs, property)| as real) == RatingTotal(ReviewsOf(rs, property))
  {
    ReviewedHasReviews(rs, property);
    Mean(RatingTotal(ReviewsOf(rs, property)), |ReviewsOf(rs, property)|)
  }

  /** If every rating lies in [lo, hi], so does their total over their count. */
  lemma {:induction false} RatingTotalBounds(rs: seq<Review>, lo: real, hi: real)
    requires forall i :: 0 <= i < |rs| ==> lo <= rs[i].rating <= hi
    ensures (|rs| as real) * lo <= RatingTotal(rs) <= (|rs| as real) * hi
  {
    if rs != [] {
      RatingTotalBounds(rs[..|rs| - 1], lo, hi);
    }
  }

  /** A total within [n * lo, n * hi] over a positive count n lies within [lo, hi]. */
  lemma MeanBounds(total: real, n: nat, lo: real, hi: real)
    requires n > 0
    requires (n as real) * lo <= total <= (n as real) * hi
    ensures lo <= Mean(total, n) <= hi
  {
    var avg := Mean(total, n);
    assert avg * (n as real) == total;
  }

  /** A mean of ratings in [lo, hi] lies in [lo, hi]. */
  lemma MeanOfBoundedRatings(rs: seq<Review>, lo: real, hi: real)
    requires |rs| > 0
    requires forall i :: 0 <= i < |rs| ==> lo <= rs[i].rating <= hi
    ensures lo <= Mean(RatingTotal(rs), |rs|) <= hi
  {
    RatingTotalBounds(rs, lo, hi);
    MeanBounds(RatingTotal(rs), |rs|, lo, hi);
  }

  /** The reviews of the property carry ratings the bounds hold for. */
  lemma ReviewsOfBounded(rs: seq<Review>, property: Id, lo: real, hi: real)
    requires forall i :: 0 <= i < |rs| && rs[i].propertyId == property ==> lo <= rs[i].rating <= hi
    ensures forall i :: 0 <= i < |ReviewsOf(rs, property)| ==> lo <= ReviewsOf(rs, property)[i].rating <= hi
  {
    var mine := ReviewsOf(rs, property);
    forall i | 0 <= i < |mine| ensures lo <= mine[i].rating <= hi {
      assert mine[i] in mine;
    }
  }

  /** The stored average lies between the lowest and the highest rating of the property. */
  lemma {:induction false} AverageWithinRatings(rs: seq<Review>, property: Id, lo: real, hi: real)
    requires Reviewed(rs, property)
    requires forall i :: 0 <= i < |rs| && rs[i].propertyId == property ==> lo <= rs[i].rating <= hi
    ensures lo <= AverageRating(rs, property) <= hi
  {
    var mine := ReviewsOf(rs, property);
    ReviewedHasReviews(rs, property);
    ReviewsOfBounded(rs, property, lo, hi);
    MeanOfBoundedRatings(mine, lo, hi);
  }

  /** Inserting a review of the property adds its rating to the total and one to the count. */
  lemma InsertedReviewCounts(rs: seq<Review>, x: Review)
    ensures ReviewsOf(rs + [x], x.propertyId) == ReviewsOf(rs, x.propertyId) + [x]
    ensures Reviewed(rs + [x], x.propertyId)
    ensures RatingTotal(ReviewsOf(rs + [x], x.propertyId)) == RatingTotal(ReviewsOf(rs, x.propertyId)) + x.rating
  {
    FilterAppend(rs, x, ReviewedProperty(x.propertyId));
    var rs' := rs + [x];
    assert rs'[|rs|] == x;
    var t := ReviewsOf(rs, x.propertyId) + [x];
    assert t[..|t| - 1] == ReviewsOf(rs, x.propertyId);
  }

  /** Storing an average on the property at position k changes that property alone,
      whose id no other property shares, and keeps ids distinct and bounded. */
  lemma {:induction false} RatingUpdateKeepsOthers(ps: seq<Property>, k: nat, avg: real, bound: Id)
    requires k < |ps| && DistinctKeys(ps, PropertyKey)
    requires forall p :: p in ps ==> p.id < bound
    ensures DistinctKeys(ps[k := ps[k].(averageRating := Some(avg))], PropertyKey)
    ensures forall p :: p in ps[k := ps[k].(averageRating := Some(avg))] ==> p.id < bound
    ensures forall m :: 0 <= m < |ps| ==>
              ps[k := ps[k].(averageRating := Some(avg))][m]
              == if ps[m].id == ps[k].id then ps[m].(averageRating := Some(avg)) else ps[m]
  {
    var r := ps[k := ps[k].(averageRating := Some(avg))];
    forall m | 0 <= m < |ps| && ps[m].id == ps[k].id ensures m == k {
      assert PropertyKey(ps[m]) == PropertyKey(ps[k]);
    }
    forall a, c | 0 <= a < c < |r| ensures PropertyKey(r[a]) != PropertyKey(r[c]) {
      assert PropertyKey(r[a]) == PropertyKey(ps[a]) && PropertyKey(r[c]) == PropertyKey(ps[c]);
    }
    forall p | p in r ensures p.id < bound {
      var j :| 0 <= j < |r| && r[j] == p;
      assert ps[j] in ps;
    }
  }

  /** Ratings 4, 5 and 3 of one property average to 4. */
  lemma AverageOfThreeRatings(property: Id)
    ensures Reviewed([Review(4.0, "", property, 1, 10), Review(5.0, "", property, 2, 20),
                      Review(3.0, "", property, 3, 30)], property)
    ensures AverageRating([Review(4.0, "", property, 1, 10), Review(5.0, "", property, 2, 20),
                           Review(3.0, "", property, 3, 30)], property) == 4.0
  {
    var a, b, c := Review(4.0, "", property, 1, 10), Review(5.0, "", property, 2, 20), Review(3.0, "", property, 3, 30);
    assert ReviewsOf([], property) == [];
    InsertedReviewCounts([], a);
    assert [] + [a] == [a];
    InsertedReviewCounts([a], b);
    assert [a] + [b] == [a, b];
    InsertedReviewCounts([a, b], c);
    assert [a, b] + [c] == [a, b, c];
    assert |ReviewsOf([a, b, c], property)| == 3;
    assert RatingTotal(ReviewsOf([a, b, c], property)) == 12.0;
  }

  /** Newest first: `createdAt` never increases along the sequence. */
  ghost predicate NewestFirst(rs: seq<Review>) {
    forall i, j :: 0 <= i < j < |rs| ==> rs[i].createdAt >= rs[j].createdAt
  }

  /** Inserts a review into a newest-first sequence at its place. */
  function InsertByDate(x: Review, rs: seq<Review>): (r: seq<Review>)
    requires NewestFirst(rs)
    ensures NewestFirst(r)
    ensures multiset(r) == multiset(rs) + multiset{x}
  {
    if rs == [] || x.createdAt >= rs[0].createdAt then [x] + rs
    else
      assert rs == [rs[0]] + rs[1..];
      var t := InsertByDate(x, rs[1..]);
      assert forall k :: 0 <= k < |t| ==> t[k].createdAt <= rs[0].createdAt by {
        forall k | 0 <= k < |t| ensures t[k].createdAt <= rs[0].createdAt {
          assert t[k] in multiset(t);
          if t[k] != x {
            assert t[k] in multiset(rs[1..]);
          }
        }
      }
      [rs[0]] + t
  }

  /** `.sort({ createdAt: -1 })`: the same reviews, newest first (ties in some order). */
  function SortNewestFirst(rs: seq<Review>): (r: seq<Review>)
    ensures NewestFirst(r)
    ensures multiset(r) == multiset(rs)
    ensures |r| == |rs|
  {
    if rs == [] then []
    else
      assert rs == [rs[0]] + rs[1..];
      InsertByDate(rs[0], SortNewestFirst(rs[1..]))
  }

  /** Sorting neither adds nor drops a review. */
  lemma SortKeepsMembers(rs: seq<Review>)
    ensures forall x :: x in SortNewestFirst(rs) <==> x in rs
  {
    var r := SortNewestFirst(rs);
    assert forall x :: x in r <==> x in multiset(r);
    assert forall x :: x in rs <==> x in multiset(rs);
  }
}
