/** The "reviews" slice: a state record { reviews, loading, error } driven by
    the three lifecycle actions of the addOrUpdateReview request (pending,
    fulfilled, rejected). Step and Run are the reducer as a function on
    values; ReviewState is the mutable state record whose methods perform
    each reducer case in place, and is proved to agree with Step. */
module ReviewSlice {
  import opened ReviewCollection

  /** The error stored when a rejection carries no usable payload. */
  const DefaultError: string := "Failed to add or update comment"

  /** The slice state as a value. */
  datatype SliceState = SliceState(reviews: seq<Review>, loading: bool, error: Option<string>)

  /** The state the slice starts in. */
  const InitialState: SliceState := SliceState([], false, None)

  /** The outcome events of one addOrUpdateReview request. Fulfilled carries
      the review the server returned; Rejected carries the rejection payload,
      None when there is none. */
  datatype Action = Pending | Fulfilled(review: Review) | Rejected(payload: Option<string>)

  /** `payload || "Failed to add or update comment"`: a missing payload and
      the empty string are falsy and give the default message; any other
      string is kept as it is. The result is never falsy. */
  function RejectionMessage(payload: Option<string>): (m: string)
    ensures m != ""
    ensures m == DefaultError || payload == Some(m)
    ensures payload.Some? && payload.value != "" ==> m == payload.value
  {
    match payload
    case Some(p) => if p != "" then p else DefaultError
    case None => DefaultError
  }

  /** The reducer: the new slice state after one action. Loading is on
      exactly after pending, which also clears the error; only fulfilled
      touches the reviews, never shrinking them or losing a postId; a
      rejection stores its message, which is never empty. */
  ghost function Step(s: SliceState, a: Action): (t: SliceState)
    ensures t.loading <==> a.Pending?
    ensures !a.Fulfilled? ==> t.reviews == s.reviews
    ensures a.Fulfilled? ==> t.error == s.error && a.review in t.reviews
    ensures a.Pending? ==> t.error == None
    ensures a.Rejected? ==> t.error == Some(RejectionMessage(a.payload)) && t.error.value != ""
    ensures |s.reviews| <= |t.reviews| && Keys(s.reviews) <= Keys(t.reviews)
  {
    match a
    case Pending => s.(loading := true, error := None)
    case Fulfilled(r) =>
      UpsertKeys(s.reviews, r);
      s.(loading := false, reviews := Upsert(s.reviews, r))
    case Rejected(p) => s.(loading := false, error := Some(RejectionMessage(p)))
  }

  /** The state after dispatching the actions in order. No run removes a
      review: the collection never shrinks and no postId disappears. */
  ghost function Run(s: SliceState, actions: seq<Action>): (t: SliceState)
    ensures |s.reviews| <= |t.reviews| && Keys(s.reviews) <= Keys(t.reviews)
    decreases actions
  {
    if actions == [] then s else Run(Step(s, actions[0]), actions[1..])
  }

  /** No action sequence introduces a second review for a postId. */
  lemma {:induction false} RunKeepsUniqueKeys(s: SliceState, actions: seq<Action>)
    requires UniqueKeys(s.reviews)
    ensures UniqueKeys(Run(s, actions).reviews)
    decreases actions
  {
    if actions != [] {
      if actions[0].Fulfilled? {
        UpsertUnique(s.reviews, actions[0].review);
      }
      RunKeepsUniqueKeys(Step(s, actions[0]), actions[1..]);
    }
  }

  /** Every state reachable from the initial state has at most one review
      per postId. */
  lemma ReachableUniqueKeys(actions: seq<Action>)
    ensures UniqueKeys(Run(InitialState, actions).reviews)
  {
    RunKeepsUniqueKeys(InitialState, actions);
  }

  /** After at least one action, loading is set exactly when the last action
      was the pending one. */
  lemma {:induction false} RunLoading(s: SliceState, actions: seq<Action>)
    requires actions != []
    ensures Run(s, actions).loading <==> actions[|actions| - 1].Pending?
    decreases actions
  {
    if |actions| > 1 {
      RunLoading(Step(s, actions[0]), actions[1..]);
    }
  }

  /** Reviews change only on fulfilled actions: a run with no fulfilled
      action leaves the collection as it was. */
  lemma {:induction false} RunWithoutFulfilled(s: SliceState, actions: seq<Action>)
    requires forall i :: 0 <= i < |actions| ==> !actions[i].Fulfilled?
    ensures Run(s, actions).reviews == s.reviews
    decreases actions
  {
    if actions != [] {
      RunWithoutFulfilled(Step(s, actions[0]), actions[1..]);
    }
  }

  /** A fulfilled action delivered twice leaves the same state as once. */
  lemma FulfilledIdempotent(s: SliceState, r: Review)
    ensures Step(Step(s, Fulfilled(r)), Fulfilled(r)) == Step(s, Fulfilled(r))
  {
    UpsertIdempotent(s.reviews, r);
  }

  /** The mutable slice state, updated in place by each reducer case. */
  class ReviewState {
    var reviews: seq<Review>
    var loading: bool
    var error: Option<string>

    /** The current state as a value. */
    function State(): SliceState
      reads this
    {
      SliceState(reviews, loading, error)
    }

    /** The slice invariant: at most one review per postId. */
    ghost predicate Valid()
      reads this
    {
      UniqueKeys(reviews)
    }

    /** The initial state: no reviews, not loading, no error. */
    constructor ()
      ensures reviews == [] && !loading && error == None
      ensures State() == InitialState && Valid()
    {
      reviews := [];
      loading := false;
      error := None;
    }

    /** Pending: loading starts and any previous error is cleared. */
    method OnPending()
      modifies this
      ensures loading && error == None
      ensures reviews == old(reviews)
    {
      loading := true;
      error := None;
    }

    /** Fulfilled: loading stops and the returned review is upserted by
        postId; the error is left as it was. */
    method OnFulfilled(updatedReview: Review)
      modifies this
      ensures !loading && error == old(error)
      ensures reviews == Upsert(old(reviews), updatedReview)
      ensures old(Valid()) ==> Valid() && updatedReview.postId in Keys(reviews)
    {
      loading := false;
      var existingIndex := FindIndex(reviews, updatedReview.postId);
      if existingIndex >= 0 {
        UpsertExisting(reviews, updatedReview, existingIndex);
        reviews := reviews[existingIndex := updatedReview];
      } else {
        UpsertAbsent(reviews, updatedReview);
        reviews := reviews + [updatedReview];
      }
      if old(Valid()) {
        UpsertUnique(old(reviews), updatedReview);
      }
    }

    /** Rejected: loading stops, the reviews are kept and the error is the
        payload, or the default message when the payload is falsy. */
    method OnRejected(payload: Option<string>)
      modifies this
      ensures !loading && reviews == old(reviews)
      ensures error == Some(RejectionMessage(payload))
    {
      loading := false;
      error := Some(RejectionMessage(payload));
    }

    /** The slice reducer: routes an action to its case. */
    method Reduce(action: Action)
      modifies this
      ensures State() == Step(old(State()), action)
      ensures old(Valid()) ==> Valid()
    {
      match action
      case Pending => OnPending();
      case Fulfilled(r) => OnFulfilled(r);
      case Rejected(p) => OnRejected(p);
    }
  }
}
