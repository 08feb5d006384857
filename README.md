# Review slice of the marketplace front end, in Dafny

This project models the `reviews` Redux slice of the marketplace front end.
The slice is a state record `{ reviews, loading, error }`. It reacts to the
three lifecycle actions of the `addOrUpdateReview` request:

- **pending** starts loading and clears the error;
- **fulfilled** stops loading and upserts the review the server returned,
  keyed by `postId` alone: the first review with the same `postId` is
  overwritten as a whole record, and otherwise the review is appended;
- **rejected** stops loading and stores the rejection payload, or the fixed
  message "Failed to add or update comment" when the payload is falsy.

The project has two files.

- `collection.dfy` (module `ReviewCollection`) holds the `Review` record and
  the `findIndex` search as a loop (`FindIndex`). It also holds `Upsert`, a
  recursive reference definition of the keyed upsert, with its properties:
  - an existing key is overwritten in place;
  - a new key is appended;
  - the keys grow by exactly the new key;
  - at most one review per `postId` is preserved;
  - upsert is idempotent;
  - the last write wins for one key;
  - upsert is a map update when the collection is read as a map.
- `review_slice.dfy` (module `ReviewSlice`) holds:
  - the reducer as a function on state values (`Step`), and `Run`, which
    applies a sequence of actions in order, with lemmas about them;
  - the class `ReviewState`. It has the slice's three fields and one method
    per reducer case, and each method updates the fields in place.
    `Reduce` routes an action to its case and is proved to agree with `Step`.

The key is `postId` alone, as the code has it. So two users' reviews of the
same post replace each other. The code has only the `loading` flag and the
`error` field, and the model follows the code.

## Model

| member | source | states |
|---|---|---|
| `ReviewSlice.ReviewState.constructor` | src/Redux/Features/DetailPage/Review.ts:14-22 | The initial state has no reviews, `loading` is false and `error` is null. It satisfies the one-review-per-postId invariant. |
| `ReviewSlice.ReviewState.OnPending` | src/Redux/Features/DetailPage/Review.ts:56-59 | Pending sets `loading` to true and `error` to null, and leaves `reviews` unchanged. |
| `ReviewSlice.ReviewState.OnFulfilled` | src/Redux/Features/DetailPage/Review.ts:60-74 | Fulfilled clears `loading` and never touches `error`. The new `reviews` is the upsert of the returned review into the old ones. If the old reviews had at most one review per postId, the new ones do too, and they contain the returned review's postId. |
| `ReviewSlice.ReviewState.OnRejected` | src/Redux/Features/DetailPage/Review.ts:76-80 | Rejected clears `loading` and leaves `reviews` unchanged. It sets `error` to the payload, or to the default message when the payload is falsy. |
| `ReviewSlice.ReviewState.Reduce` | src/Redux/Features/DetailPage/Review.ts:50-84 | Dispatching any action to the slice in place gives exactly the state that the reducer function computes from the old state. Dispatching preserves the one-review-per-postId invariant. |
| `ReviewSlice.Step` | src/Redux/Features/DetailPage/Review.ts:54-81 | The reducer as a function on state values. `loading` is true exactly after pending. Only fulfilled changes `reviews`: the result contains the returned review, never shrinks and keeps every postId (an overwritten review itself is replaced). Fulfilled leaves `error` as it was, pending sets it to null, and rejected stores the rejection message, which is never empty. |
| `ReviewSlice.Run` | src/Redux/Features/DetailPage/Review.ts:50-84 | Dispatching a sequence of actions in order never shrinks `reviews` and never loses a postId. |
| `ReviewCollection.FindIndex` | src/Redux/Features/DetailPage/Review.ts:64-66 | The result is -1 exactly when no review has the postId. Otherwise it is the first index whose review has that postId. |
| `ReviewSlice.RejectionMessage` | src/Redux/Features/DetailPage/Review.ts:78-79 | The stored error is never empty. It is either the payload or the default message. A non-empty payload is kept as it is. |
| `ReviewCollection.Upsert` | src/Redux/Features/DetailPage/Review.ts:64-73 | An upsert grows the collection by at most one, and the result contains the new review. |
| `ReviewCollection.UpsertExisting` | src/Redux/Features/DetailPage/Review.ts:64-69 | Suppose the first review with the new review's postId is at index i. Then the upsert is the old sequence with position i overwritten by the new review as a whole record: same length, every other index unchanged. |
| `ReviewCollection.UpsertAbsent` | src/Redux/Features/DetailPage/Review.ts:70-73 | When no review has the new review's postId, the upsert is the old sequence with the new review appended. The length grows by one and earlier entries keep their positions and values. |
| `ReviewCollection.UpsertKeys` | src/Redux/Features/DetailPage/Review.ts:64-73 | The postIds after an upsert are the old postIds plus the new review's postId, and nothing else. |
| `ReviewCollection.UpsertUnique` | src/Redux/Features/DetailPage/Review.ts:64-73 | If the collection held at most one review per postId, it still does after an upsert, and it then contains the new review's postId. |
| `ReviewCollection.UpsertIdempotent` | src/Redux/Features/DetailPage/Review.ts:64-73 | Upserting the same review twice gives the same sequence as upserting it once. |
| `ReviewCollection.UpsertLastWriteWins` | src/Redux/Features/DetailPage/Review.ts:64-73 | Upserting two reviews of the same postId one after the other gives the same result as upserting only the second one. The first one's position is kept and no duplicate appears. |
| `ReviewCollection.UpsertLookup` | src/Redux/Features/DetailPage/Review.ts:64-73 | Read as a map from postId to review, an upsert maps the new review's postId to the new review. Every other postId keeps its review. |
| `ReviewSlice.RunKeepsUniqueKeys` | src/Redux/Features/DetailPage/Review.ts:56-80 | Any sequence of pending, fulfilled and rejected actions preserves the one-review-per-postId invariant. |
| `ReviewSlice.ReachableUniqueKeys` | src/Redux/Features/DetailPage/Review.ts:14-80 | Every state reachable from the initial state holds at most one review per postId. |
| `ReviewSlice.RunLoading` | src/Redux/Features/DetailPage/Review.ts:56-80 | After one or more actions, `loading` is true exactly when the last action was pending. |
| `ReviewSlice.RunWithoutFulfilled` | src/Redux/Features/DetailPage/Review.ts:56-80 | Only fulfilled actions change `reviews`. A run of pending and rejected actions leaves the collection as it was. |
| `ReviewSlice.FulfilledIdempotent` | src/Redux/Features/DetailPage/Review.ts:60-74 | Delivering the same fulfilled action twice leaves the whole slice state as delivering it once. |

## Left out

- The body of the `addOrUpdateReview` thunk (src/Redux/Features/DetailPage/Review.ts:25-48) is left out. It is an HTTP `PUT` to an environment-configured URL, plus the error extraction `error.response?.data || error.message`. That is network I/O, so only its outcome is modelled, as an `Action`.
- ReviewSlice.RejectionMessage: the rejection payload is modelled as an optional string. A non-string payload, such as an error response body object cast with `as string`, is not modelled. Other falsy non-string values (`undefined`, `null`) are folded into `None`.
- The rating is a JavaScript number. It is modelled as a `real` because the reducer only copies it. NaN and infinities are not represented.
- Immer's copy-on-write behind `createSlice`, the action-type strings and the store wiring are left out. Each reducer case is modelled as a direct in-place update of the state record.
- src/Pages/Users/AddPost/AddPost.tsx is not part of this model. It is a React component: form state hooks, an image upload to an external host, a category fetch, toasts, navigation and layout.
- The code has no guard against a second in-flight request, no form state machine for upload and submit, no listing store (the listing slice imported at src/Pages/Users/AddPost/AddPost.tsx:9 is not part of this model) and no discarding of stale results, so none of these is modelled.
- ReviewSlice.ReviewState.OnFulfilled: the fulfilled payload, the untyped `response.data.data` of src/Redux/Features/DetailPage/Review.ts:43, is assumed to be a `Review` record. A missing or malformed payload is not modelled. With an empty list, the code would push `undefined`. With a non-empty list, reading `postId` at src/Redux/Features/DetailPage/Review.ts:65 would throw a TypeError and leave `loading` true.
