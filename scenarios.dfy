/**
  * Clients of the store and the service, written after the cases of
  * pkg/service/service_test.go: each one follows a case through the
  * contracts alone, showing that they fix the status codes and the stored
  * state the tests expect; the last one does the same for the table of
  * logical_test/main_test.go.
  */
module Scenarios {
  import opened Wrappers
  import opened Models
  import opened Store
  import opened Service
  import opened DecodeWays

  /** TestCreatePost: a complete post is created with 201, one without a title is refused with 400. */
  method CreatePostCases(now: Instant) {
    var store := new PostStore();
    var service := new Service(store);
    var created := service.CreatePost(Some(Post(0, "Test Post", "Test Content", "Test Author", 0, 0)), now);
    assert created.status == StatusCreated;
    assert created.body.post.id == 1 && store.posts.Keys == {1};
    var refused := service.CreatePost(Some(Post(0, "", "Test Content", "Test Author", 0, 0)), now);
    assert refused.status == StatusBadRequest;
    assert refused.body == ErrorJson("title is required");
    assert store.posts.Keys == {1};
  }

  /** TestGetPost: the created post is found with 200, identifier 999 is not (404). */
  method GetPostCases(now: Instant) {
    var store := new PostStore();
    var service := new Service(store);
    var post := store.Create(Post(0, "Test Post", "Test Content", "Test Author", now, now));
    var found := service.GetPost(Some(post.id));
    assert found == Response(StatusOK, PostJson(post));
    var missing := service.GetPost(Some(999));
    assert missing.status == StatusNotFound;
  }

  /** TestDeletePost: deleting the created post answers 200 and Get then fails; 999 answers 404. */
  method DeletePostCases(now: Instant) {
    var store := new PostStore();
    var service := new Service(store);
    var post := store.Create(Post(0, "Test Post", "Test Content", "Test Author", now, now));
    var deleted := service.DeletePost(Some(post.id));
    assert deleted.status == StatusOK;
    var gone := store.Get(post.id);
    assert gone == Err(ErrPostNotFound);
    var missing := service.DeletePost(Some(999));
    assert missing.status == StatusNotFound;
  }

  /**
    * TestUpdatePost: a full update, an unknown identifier (404), a malformed
    * body (400, store unchanged) and a title-only update that keeps the
    * content and author of the previous update.
    */
  method UpdatePostCases(now: Instant, later: Instant) {
    var store := new PostStore();
    var service := new Service(store);
    var post := store.Create(Post(0, "Initial Title", "Initial Content", "Initial Author", now, now));
    var full := service.UpdatePost(Some(post.id), Some(Post(0, "Updated Title", "Updated Content", "Updated Author", 0, 0)), later);
    assert full.status == StatusOK;
    assert store.posts[post.id].title == "Updated Title";
    var missing := service.UpdatePost(Some(999), Some(Post(0, "Updated Title", "", "", 0, 0)), later);
    assert missing.status == StatusNotFound;
    ghost var before := store.posts;
    var malformed := service.UpdatePost(Some(post.id), None, later);
    assert malformed.status == StatusBadRequest && store.posts == before;
    var partial := service.UpdatePost(Some(post.id), Some(Post(0, "New Title", "", "", 0, 0)), later);
    assert partial.status == StatusOK;
    assert store.posts[post.id].title == "New Title";
    assert store.posts[post.id].content == "Updated Content";
    assert store.posts[post.id].author == "Updated Author";
    assert store.posts[post.id].createdAt == now;
  }

  /**
    * Three posts created in order get identifiers 1, 2 and 3; after deleting
    * the second, two remain, the second is not found and the others are.
    */
  method CreateThreeDeleteOne(a: Post, b: Post, c: Post) {
    var store := new PostStore();
    var pa := store.Create(a);
    var pb := store.Create(b);
    var pc := store.Create(c);
    assert pa.id == 1 && pb.id == 2 && pc.id == 3;
    var all, order := store.GetAll();
    assert |all| == 3;
    var r := store.Delete(pb.id);
    assert r == Pass;
    all, order := store.GetAll();
    assert |all| == 2;
    var gb := store.Get(pb.id);
    var ga := store.Get(pa.id);
    var gc := store.Get(pc.id);
    assert gb.Err? && ga == Ok(pa) && gc == Ok(pc);
  }

  /** TestNumDecodings, "basic valid input". */
  method NumDecodingsBasic() {
    var count := NumDecodings("12");
    assert count == 2;
  }

  /** TestNumDecodings, "input with zero". */
  method NumDecodingsWithZero() {
    var count := NumDecodings("102");
    assert count == 1;
  }

  /** TestNumDecodings, "longer valid input". */
  method NumDecodingsLonger() {
    var count := NumDecodings("226");
    assert count == 3;
  }

  /** TestNumDecodings, "invalid two digit number". */
  method NumDecodingsTooLarge() {
    var count := NumDecodings("27");
    assert count == 1;
  }

  /** TestNumDecodings, the inputs starting with '0': "01" and "0". */
  method NumDecodingsZeroCases() {
    var leadingZero := NumDecodings("01");
    assert leadingZero == 0;
    var zero := NumDecodings("0");
    assert zero == 0;
  }

  /** 128 ones: the count returned is the wrapped one, not the number of decodings. */
  method NumDecodingsOverflow() {
    var count := NumDecodings(Ones(128));
    ManyOnesOverflow(128);
    assert count != Ways(Ones(128));
    assert count == Int64(|AllDecodings(Ones(128))|);
  }
}
