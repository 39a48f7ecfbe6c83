/**
  * The in-memory post store (pkg/store/post_store.go, pkg/store/seed_data.go):
  * a map from identifier to post that each operation reads or updates in
  * place. Every operation runs as one sequential step; the reader/writer lock
  * that makes it atomic in the original is not modelled.
  */
module Store {
  import opened Wrappers
  import opened Models
  import opened PostMap
  import opened Sets

  /** The one error the store reports. */
  datatype StoreError = ErrPostNotFound

  /** The position of an element known to be in a sequence. */
  function IndexOf(s: seq<int>, x: int): (i: nat)
    requires x in s
    ensures i < |s| && s[i] == x
  {
    if s[0] == x then 0 else 1 + IndexOf(s[1..], x)
  }

  class PostStore {
    var posts: Posts

    /** Every post is stored under its own identifier. */
    ghost predicate Valid()
      reads this
    {
      KeyedById(posts)
    }

    /** NewPostStore: an empty store. */
    constructor ()
      ensures Valid()
      ensures posts == map[]
    {
      posts := map[];
    }

    /**
      * Stores `post` under NextId (one more than the number of stored posts)
      * and returns it with its identifier set to that key. There is no error
      * case. A key left free by an earlier Delete can make NextId a live key,
      * whose entry is then overwritten (see PostMap.DeleteThenCreateOverwrites).
      */
    method Create(post: Post) returns (stored: Post)
      requires Valid()
      modifies this
      ensures Valid()
      ensures stored == post.(id := NextId(old(posts)))
      ensures posts == Created(old(posts), post)
    {
      stored := post.(id := |posts| + 1);
      posts := posts[stored.id := stored];
    }

    /** Looks `id` up; an absent identifier is ErrPostNotFound. Reads only. */
    method Get(id: int) returns (r: Result<Post, StoreError>)
      ensures r.Ok? <==> id in posts
      ensures r.Ok? ==> r.value == posts[id]
      ensures r.Err? ==> r.error == ErrPostNotFound
    {
      if id !in posts {
        return Err(ErrPostNotFound);
      }
      return Ok(posts[id]);
    }

    /**
      * Lists every stored post once, in an unspecified order: `order` is the
      * order in which the keys were visited, each key exactly once.
      */
    method GetAll() returns (all: seq<Post>, ghost order: seq<int>)
      ensures |all| == |order| == |posts|
      ensures forall i :: 0 <= i < |order| ==> order[i] in posts && all[i] == posts[order[i]]
      ensures forall i, j :: 0 <= i < j < |order| ==> order[i] != order[j]
      ensures forall k :: k in posts <==> k in order
      ensures forall k :: k in posts ==> posts[k] in all
      ensures forall p :: p in all ==> p in posts.Values
    {
      all, order := [], [];
      var rest := posts.Keys;
      while rest != {}
        invariant rest <= posts.Keys
        invariant |all| == |order|
        invariant |order| + |rest| == |posts|
        invariant forall i :: 0 <= i < |order| ==> order[i] in posts && order[i] !in rest && all[i] == posts[order[i]]
        invariant forall i, j :: 0 <= i < j < |order| ==> order[i] != order[j]
        invariant forall k :: k in posts <==> k in rest || k in order
        decreases rest
      {
        ghost var some := NonEmptyHasMember(rest);
        var k :| k in rest;
        all, order := all + [posts[k]], order + [k];
        rest := rest - {k};
      }
      forall k | k in posts ensures posts[k] in all {
        assert all[IndexOf(order, k)] == posts[k];
      }
    }

    /**
      * Replaces the post under `id`, forcing its identifier to `id`; the key
      * set and every other entry stay as they were. An absent identifier is
      * ErrPostNotFound and changes nothing.
      */
    method Update(id: int, post: Post) returns (r: Result<Post, StoreError>)
      requires Valid()
      modifies this
      ensures Valid()
      ensures r.Err? <==> id !in old(posts)
      ensures r.Err? ==> r.error == ErrPostNotFound && posts == old(posts)
      ensures r.Ok? ==> r.value == post.(id := id) && posts == Updated(old(posts), id, post)
    {
      if id !in posts {
        return Err(ErrPostNotFound);
      }
      var stored := post.(id := id);
      posts := posts[id := stored];
      return Ok(stored);
    }

    /**
      * Removes exactly the key `id`. An absent identifier is ErrPostNotFound
      * and changes nothing.
      */
    method Delete(id: int) returns (r: Outcome<StoreError>)
      requires Valid()
      modifies this
      ensures Valid()
      ensures r.Fail? <==> id !in old(posts)
      ensures r.Fail? ==> r.error == ErrPostNotFound && posts == old(posts)
      ensures r.Pass? ==> posts == Deleted(old(posts), id)
    {
      if id !in posts {
        return Fail(ErrPostNotFound);
      }
      posts := posts - {id};
      return Pass;
    }

    /**
      * LoadSeedData. `source` is the outcome of reading and decoding the seed
      * document; a failure there is returned before the map is touched.
      * Otherwise each entry is written, in order, under its own identifier
      * (not under NextId), its text copied without validation and both
      * timestamps set to `now`.
      */
    method LoadSeedData(source: Result<seq<SeedEntry>, SeedError>, now: Instant) returns (r: Outcome<SeedError>)
      requires Valid()
      modifies this
      ensures Valid()
      ensures source.Err? ==> r == Fail(source.error) && posts == old(posts)
      ensures source.Ok? ==> r == Pass && posts == Seeded(old(posts), source.value, now)
    {
      if source.Err? {
        return Fail(source.error);
      }
      var entries := source.value;
      for i := 0 to |entries|
        invariant posts == Seeded(old(posts), entries[..i], now)
      {
        var e := entries[i];
        var post := Post(e.id, e.title, e.content, e.author, now, now);
        posts := posts[post.id := post];
        assert entries[..i + 1][..i] == entries[..i];
      }
      assert entries[..|entries|] == entries;
      return Pass;
    }
  }
}
