/**
  * The store's state as a value: a map from identifier to post, and the new
  * map each store operation produces (pkg/store/post_store.go and
  * pkg/store/seed_data.go). The methods of `Store.PostStore` are specified by
  * these functions; the lemmas here state what a sequence of operations does.
  */
module PostMap {
  import opened Models

  type Posts = map<int, Post>

  /** Every stored post carries its own key as its identifier. */
  predicate KeyedById(posts: Posts) {
    forall k :: k in posts ==> posts[k].id == k
  }

  /** The identifiers 1 through n. */
  function KeyRange(n: nat): (r: set<int>)
    ensures forall i :: i in r <==> 1 <= i <= n
    ensures |r| == n
  {
    if n == 0 then {} else KeyRange(n - 1) + {n}
  }

  /** The identifier Create assigns: one more than the number of stored posts. */
  function NextId(posts: Posts): int {
    |posts| + 1
  }

  /**
    * The map after Create: the post is stored, with its identifier set to
    * NextId, under that key; every other entry is kept. When NextId is already
    * a key, its entry is overwritten and the number of posts stays the same.
    */
  function Created(posts: Posts, post: Post): (r: Posts)
    ensures r.Keys == posts.Keys + {NextId(posts)}
    ensures r[NextId(posts)] == post.(id := NextId(posts))
    ensures forall k :: k in posts && k != NextId(posts) ==> r[k] == posts[k]
    ensures |r| == if NextId(posts) in posts then |posts| else |posts| + 1
    ensures KeyedById(posts) ==> KeyedById(r)
  {
    var id := |posts| + 1;
    posts[id := post.(id := id)]
  }

  /**
    * The map after a successful Update of `id`: the key set is unchanged, the
    * entry under `id` becomes the post with its identifier forced to `id`, and
    * every other entry is kept.
    */
  function Updated(posts: Posts, id: int, post: Post): (r: Posts)
    requires id in posts
    ensures r.Keys == posts.Keys
    ensures r[id] == post.(id := id)
    ensures forall k :: k in posts && k != id ==> r[k] == posts[k]
    ensures KeyedById(posts) ==> KeyedById(r)
  {
    posts[id := post.(id := id)]
  }

  /** The map after a successful Delete of `id`: exactly that key is gone. */
  function Deleted(posts: Posts, id: int): (r: Posts)
    requires id in posts
    ensures r.Keys == posts.Keys - {id}
    ensures |r| == |posts| - 1
    ensures forall k :: k in r ==> r[k] == posts[k]
    ensures KeyedById(posts) ==> KeyedById(r)
  {
    posts - {id}
  }

  /** The map after one Create call per post of `batch`, in order. */
  function CreatedAll(posts: Posts, batch: seq<Post>): Posts
    decreases |batch|
  {
    if batch == [] then posts
    else Created(CreatedAll(posts, batch[..|batch| - 1]), batch[|batch| - 1])
  }

  // ----- seed loading (pkg/store/seed_data.go) -----

  /** One entry of the seed document, already decoded. */
  datatype SeedEntry = SeedEntry(id: int, title: string, content: string, author: string)

  /** Why a seed load can fail before the store is touched. */
  datatype SeedError = ReadFailed | DecodeFailed

  /** The post a seed entry becomes: its fields copied verbatim, stamped `now`. */
  function SeedPost(e: SeedEntry, now: Instant): Post {
    Post(e.id, e.title, e.content, e.author, now, now)
  }

  /** The identifiers named by a seed list. */
  function SeedIds(entries: seq<SeedEntry>): set<int> {
    set i | 0 <= i < |entries| :: entries[i].id
  }

  /**
    * The map after loading `entries` in order: each entry is written under its
    * own identifier, so a later entry overwrites an earlier one with the same
    * identifier and the key set grows by the seed identifiers only.
    */
  function Seeded(posts: Posts, entries: seq<SeedEntry>, now: Instant): (r: Posts)
    ensures KeyedById(posts) ==> KeyedById(r)
    decreases |entries|
  {
    if entries == [] then posts
    else
      var e := entries[|entries| - 1];
      Seeded(posts, entries[..|entries| - 1], now)[e.id := SeedPost(e, now)]
  }

  // ----- lemmas about identifier assignment -----

  /** On a store whose keys are exactly 1..n, Create assigns n + 1 and the keys become 1..n+1. */
  lemma {:induction false} CreateOnDenseKeys(posts: Posts, n: nat, post: Post)
    requires posts.Keys == KeyRange(n)
    ensures NextId(posts) == n + 1
    ensures Created(posts, post).Keys == KeyRange(n + 1)
    ensures |Created(posts, post)| == n + 1
  {
    assert |posts| == |posts.Keys|;
  }

  /**
    * N sequential Create calls on an empty store assign the identifiers 1..N,
    * the k-th call (from 1) storing its post under k: no duplicates, no gaps.
    */
  lemma {:induction false} CreatedAllFromEmpty(batch: seq<Post>)
    ensures |CreatedAll(map[], batch)| == |batch|
    ensures forall k :: k in CreatedAll(map[], batch) <==> 1 <= k <= |batch|
    ensures forall k :: k in CreatedAll(map[], batch) ==> CreatedAll(map[], batch)[k] == batch[k - 1].(id := k)
  {
    if batch != [] {
      var init, last := batch[..|batch| - 1], batch[|batch| - 1];
      CreatedAllFromEmpty(init);
      var before := CreatedAll(map[], init);
      var after := StoreAfterBatch(before, init, last, batch);
      assert CreatedAll(map[], batch) == after;
    }
  }

  /**
    * Storing the next post under |init| + 1 on the map a batch `init` left
    * behind extends that batch's invariant to `batch`, which is `init + [last]`.
    */
  lemma StoreAfterBatch(before: Posts, init: seq<Post>, last: Post, batch: seq<Post>) returns (after: Posts)
    requires batch == init + [last]
    requires |before| == |init|
    requires forall k :: k in before <==> 1 <= k <= |init|
    requires forall k :: k in before ==> before[k] == init[k - 1].(id := k)
    ensures after == before[|init| + 1 := last.(id := |init| + 1)]
    ensures |after| == |batch|
    ensures forall k :: k in after <==> 1 <= k <= |batch|
    ensures forall k :: k in after ==> after[k] == batch[k - 1].(id := k)
  {
    var n := |init|;
    after := before[n + 1 := last.(id := n + 1)];
    assert n + 1 !in before;
    forall k | k in after
      ensures after[k] == batch[k - 1].(id := k)
    {
      if k <= n {
        assert batch[k - 1] == init[k - 1];
      }
    }
  }

  lemma SubsetSize(a: set<int>, b: set<int>)
    requires a <= b
    ensures |a| <= |b|
  {
    assert b == a + (b - a);
  }

  /**
    * Create can only overwrite a live entry when some identifier below NextId
    * is unused, which is what a Delete leaves behind.
    */
  lemma CreateOverwritesOnlyAfterGap(posts: Posts)
    requires NextId(posts) in posts
    ensures exists j :: 1 <= j < NextId(posts) && j !in posts
  {
    var below := KeyRange(|posts|);
    if below <= posts.Keys {
      // then 1..NextId, one more identifier than there are keys, would all be keys
      SubsetSize(below + {NextId(posts)}, posts.Keys);
      assert false;
    }
    var j :| j in below && j !in posts;
  }

  /**
    * Create two posts, delete the first, create a third: the third is given
    * identifier 2 and silently replaces the second post, so the store still
    * holds one post.
    */
  lemma DeleteThenCreateOverwrites(a: Post, b: Post, c: Post)
    ensures var two := Created(Created(map[], a), b);
            var one := Deleted(two, 1);
            var after := Created(one, c);
            && two.Keys == {1, 2} && two[2] == b.(id := 2)
            && NextId(one) == 2 && 2 in one
            && after.Keys == {2} && after[2] == c.(id := 2) && |after| == |one|
  {
    var first := Created(map[], a);
    assert first.Keys == {1};
    var two := Created(first, b);
    assert |first| == 1;
    var one := Deleted(two, 1);
    assert one.Keys == {2};
    assert |one| == 1;
  }

  // ----- lemmas about seed loading -----

  /** After loading, the key set is the old keys plus the seed identifiers. */
  lemma {:induction false} SeededKeys(posts: Posts, entries: seq<SeedEntry>, now: Instant)
    ensures Seeded(posts, entries, now).Keys == posts.Keys + SeedIds(entries)
    decreases |entries|
  {
    if entries != [] {
      var init := entries[..|entries| - 1];
      SeededKeys(posts, init, now);
      assert SeedIds(entries) == SeedIds(init) + {entries[|entries| - 1].id} by {
        forall x | x in SeedIds(entries) ensures x in SeedIds(init) + {entries[|entries| - 1].id} {
          var i :| 0 <= i < |entries| && entries[i].id == x;
          if i < |init| { assert init[i] == entries[i]; }
        }
        forall x | x in SeedIds(init) ensures x in SeedIds(entries) {
          var i :| 0 <= i < |init| && init[i].id == x;
          assert entries[i] == init[i];
        }
      }
    }
  }

  /** Entries whose keys the seed list does not name are kept as they were. */
  lemma {:induction false} SeededRetains(posts: Posts, entries: seq<SeedEntry>, now: Instant, k: int)
    requires k in posts
    requires forall i :: 0 <= i < |entries| ==> entries[i].id != k
    ensures k in Seeded(posts, entries, now) && Seeded(posts, entries, now)[k] == posts[k]
    decreases |entries|
  {
    if entries != [] {
      var init := entries[..|entries| - 1];
      forall i | 0 <= i < |init| ensures init[i].id != k {
        assert init[i] == entries[i];
      }
      SeededRetains(posts, init, now, k);
    }
  }

  /**
    * Each seed entry is stored under its own identifier, fields copied verbatim
    * and without validation, unless a later entry repeats that identifier: the
    * last entry for an identifier wins.
    */
  lemma {:induction false} SeededLastWins(posts: Posts, entries: seq<SeedEntry>, now: Instant, i: nat)
    requires i < |entries|
    requires forall j :: i < j < |entries| ==> entries[j].id != entries[i].id
    ensures entries[i].id in Seeded(posts, entries, now)
    ensures Seeded(posts, entries, now)[entries[i].id] == SeedPost(entries[i], now)
    decreases |entries|
  {
    if i < |entries| - 1 {
      var init := entries[..|entries| - 1];
      assert init[i] == entries[i];
      forall j | i < j < |init| ensures init[j].id != init[i].id {
        assert init[j] == entries[j];
      }
      SeededLastWins(posts, init, now, i);
    }
  }

  /** A seed entry with an empty title is stored as it is, and fails validation there. */
  lemma SeededSkipsValidation(now: Instant)
    ensures var r := Seeded(map[], [SeedEntry(1, "", "body", "someone")], now);
            1 in r && r[1].title == "" && Validate(r[1]).Fail?
  {
    var entries := [SeedEntry(1, "", "body", "someone")];
    assert entries[..0] == [];
  }

  /**
    * Seeded identifiers bypass NextId, so a later Create can land on a seeded
    * key: seeding identifier 2 alone and then creating a post overwrites it.
    */
  lemma SeedThenCreateOverwrites(e: SeedEntry, post: Post, now: Instant)
    requires e.id == 2
    ensures var seeded := Seeded(map[], [e], now);
            && seeded.Keys == {2}
            && NextId(seeded) == 2
            && Created(seeded, post).Keys == {2}
            && Created(seeded, post)[2] == post.(id := 2)
  {
    var entries := [e];
    assert entries[..0] == [];
    assert Seeded(map[], entries[..0], now) == map[];
    var seeded := Seeded(map[], entries, now);
    assert seeded == map[2 := SeedPost(e, now)];
    assert |seeded| == 1;
  }
}
