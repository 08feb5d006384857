/** The review record and the keyed collection of reviews held by the review
    slice: an ordered sequence in which a review is identified by its postId
    alone. Upsert is the reference definition of what the fulfilled case does
    to the sequence; FindIndex is the linear search it performs. */
module ReviewCollection {

  datatype Option<T> = None | Some(value: T)

  /** A review as the server returns it. The rating is a JavaScript number
      that the reducer only copies, so it is kept as a real. */
  datatype Review = Review(postId: string, userId: string, rating: real, description: string)

  /** The set of postIds present in a collection. */
  ghost function Keys(s: seq<Review>): set<string>
  {
    if s == [] then {} else {s[0].postId} + Keys(s[1..])
  }

  /** A postId is among the keys exactly when some position holds it. */
  lemma {:induction false} KeysAt(s: seq<Review>, k: string)
    ensures k in Keys(s) <==> exists i :: 0 <= i < |s| && s[i].postId == k
  {
    if s != [] {
      KeysAt(s[1..], k);
      if k in Keys(s[1..]) {
        var i :| 0 <= i < |s[1..]| && s[1..][i].postId == k;
        assert s[i + 1].postId == k;
      }
      if exists i :: 0 <= i < |s| && s[i].postId == k {
        var i :| 0 <= i < |s| && s[i].postId == k;
        if i > 0 { assert s[1..][i - 1].postId == k; }
      }
    }
  }

  /** At most one review per postId. */
  ghost predicate UniqueKeys(s: seq<Review>)
  {
    forall i, j :: 0 <= i < j < |s| ==> s[i].postId != s[j].postId
  }

  /** The first review whose postId equals k: the collection read as a map. */
  ghost function Lookup(s: seq<Review>, k: string): Option<Review>
  {
    if s == [] then None
    else if s[0].postId == k then Some(s[0])
    else Lookup(s[1..], k)
  }

  /** Insert-or-replace by postId: the first review with the same postId is
      replaced by r as a whole record; when there is none, r is appended. */
  ghost function Upsert(s: seq<Review>, r: Review): (t: seq<Review>)
    ensures |t| == |s| || |t| == |s| + 1
    ensures r in t
  {
    if s == [] then [r]
    else if s[0].postId == r.postId then [r] + s[1..]
    else [s[0]] + Upsert(s[1..], r)
  }

  /** findIndex with strict equality on postId: the first matching position,
      or -1 when no review has that postId. */
  method FindIndex(reviews: seq<Review>, postId: string) returns (index: int)
    ensures -1 <= index < |reviews|
    ensures 0 <= index ==> reviews[index].postId == postId
    ensures 0 <= index ==> forall j :: 0 <= j < index ==> reviews[j].postId != postId
    ensures index == -1 <==> forall j :: 0 <= j < |reviews| ==> reviews[j].postId != postId
  {
    var i := 0;
    while i < |reviews|
      invariant 0 <= i <= |reviews|
      invariant forall j :: 0 <= j < i ==> reviews[j].postId != postId
    {
      if reviews[i].postId == postId {
        return i;
      }
      i := i + 1;
    }
    return -1;
  }

  /** When the first review with r's postId sits at i, upserting overwrites
      position i with r and nothing else: same length, other positions kept. */
  lemma {:induction false} UpsertExisting(s: seq<Review>, r: Review, i: nat)
    requires i < |s| && s[i].postId == r.postId
    requires forall j :: 0 <= j < i ==> s[j].postId != r.postId
    ensures Upsert(s, r) == s[i := r]
  {
    if i > 0 {
      UpsertExisting(s[1..], r, i - 1);
      assert s[i := r] == [s[0]] + s[1..][i - 1 := r];
    }
  }

  /** When no review has r's postId, upserting appends r at the end and keeps
      every earlier review at its position. */
  lemma {:induction false} UpsertAbsent(s: seq<Review>, r: Review)
    requires forall j :: 0 <= j < |s| ==> s[j].postId != r.postId
    ensures Upsert(s, r) == s + [r]
  {
    if s != [] {
      UpsertAbsent(s[1..], r);
      assert s + [r] == [s[0]] + (s[1..] + [r]);
    }
  }

  /** Upserting adds exactly r's postId to the keys. */
  lemma {:induction false} UpsertKeys(s: seq<Review>, r: Review)
    ensures Keys(Upsert(s, r)) == Keys(s) + {r.postId}
  {
    if s != [] {
      var t := Upsert(s, r);
      if s[0].postId == r.postId {
        assert t[1..] == s[1..];
      } else {
        UpsertKeys(s[1..], r);
        assert t[1..] == Upsert(s[1..], r);
      }
    }
  }

  /** Upserting keeps at most one review per postId, and afterwards the
      collection holds r's postId. */
  lemma {:induction false} UpsertUnique(s: seq<Review>, r: Review)
    requires UniqueKeys(s)
    ensures UniqueKeys(Upsert(s, r))
    ensures r.postId in Keys(Upsert(s, r))
  {
    UpsertKeys(s, r);
    if s != [] {
      var t := Upsert(s, r);
      if s[0].postId == r.postId {
        assert t == s[0 := r];
      } else {
        var u := Upsert(s[1..], r);
        UpsertUnique(s[1..], r);
        UpsertKeys(s[1..], r);
        KeysAt(s[1..], s[0].postId);
        forall j | 0 < j < |t| ensures t[j].postId != t[0].postId {
          KeysAt(u, t[j].postId);
          assert t[j] == u[j - 1];
        }
      }
    }
  }

  /** Applying the same review twice gives the same collection as once. */
  lemma {:induction false} UpsertIdempotent(s: seq<Review>, r: Review)
    ensures Upsert(Upsert(s, r), r) == Upsert(s, r)
  {
    if s != [] && s[0].postId != r.postId {
      UpsertIdempotent(s[1..], r);
    }
  }

  /** Two reviews of the same post in a row: the second one wins, at the
      position the first one took, with no duplicate introduced. */
  lemma {:induction false} UpsertLastWriteWins(s: seq<Review>, a: Review, b: Review)
    requires a.postId == b.postId
    ensures Upsert(Upsert(s, a), b) == Upsert(s, b)
  {
    if s != [] && s[0].postId != a.postId {
      UpsertLastWriteWins(s[1..], a, b);
    }
  }

  /** Read as a map from postId to review, upsert is a map update at r's
      postId and leaves every other postId's review as it was. */
  lemma {:induction false} UpsertLookup(s: seq<Review>, r: Review, k: string)
    ensures Lookup(Upsert(s, r), k) == if k == r.postId then Some(r) else Lookup(s, k)
  {
    if s != [] && s[0].postId != r.postId {
      UpsertLookup(s[1..], r, k);
    }
  }
}
