/**
  * The request handlers of pkg/service/service.go, with the HTTP plumbing
  * abstracted: the path identifier arrives already parsed (`None` when it is
  * not an integer), the request body already decoded (`None` when it is not
  * a valid post), the clock as an `Instant`, and the handler yields the
  * status code and the body it would write.
  */
module Service {
  import opened Wrappers
  import opened Models
  import opened PostMap
  import opened Store

  const StatusOK := 200
  const StatusCreated := 201
  const StatusBadRequest := 400
  const StatusNotFound := 404

  /** What a handler writes as its JSON body. */
  datatype Body =
    | PostJson(post: Post)
    | PostListJson(posts: seq<Post>)
    | MessageJson(message: string)
    | ErrorJson(error: string)

  datatype Response = Response(status: int, body: Body)

  const InvalidId := Response(StatusBadRequest, ErrorJson("Invalid post ID"))
  const InvalidPayload := Response(StatusBadRequest, ErrorJson("Invalid request payload"))
  const PostNotFound := Response(StatusNotFound, ErrorJson("Post not found"))

  /**
    * The partial-update merge of UpdatePost: each of title, content and author
    * takes the payload's value when that value is non-empty and keeps the
    * existing one otherwise; the update time is refreshed and nothing else
    * changes. Since no field can be cleared, a post that passed Validate still
    * does after any merge.
    */
  function Merge(existing: Post, payload: Post, now: Instant): (r: Post)
    ensures r.id == existing.id && r.createdAt == existing.createdAt && r.updatedAt == now
    ensures payload.title != "" ==> r.title == payload.title
    ensures payload.content != "" ==> r.content == payload.content
    ensures payload.author != "" ==> r.author == payload.author
    ensures r.title != existing.title ==> r.title == payload.title != ""
    ensures r.content != existing.content ==> r.content == payload.content != ""
    ensures r.author != existing.author ==> r.author == payload.author != ""
    ensures Validate(existing).Pass? ==> Validate(r).Pass?
  {
    existing.(
      title := if payload.title != "" then payload.title else existing.title,
      content := if payload.content != "" then payload.content else existing.content,
      author := if payload.author != "" then payload.author else existing.author,
      updatedAt := now)
  }

  class Service {
    const store: PostStore

    /** NewService */
    constructor (store: PostStore)
      ensures this.store == store
    {
      this.store := store;
    }

    /** GetPosts: always 200, listing every stored post, one entry per key. */
    method GetPosts() returns (resp: Response)
      ensures resp.status == StatusOK && resp.body.PostListJson?
      ensures |resp.body.posts| == |store.posts|
      ensures forall k :: k in store.posts ==> store.posts[k] in resp.body.posts
      ensures forall p :: p in resp.body.posts ==> p in store.posts.Values
    {
      var all, order := store.GetAll();
      resp := Response(StatusOK, PostListJson(all));
    }

    /**
      * GetPost: 400 when the identifier is not an integer (before the store is
      * consulted), 404 when no post has it, otherwise 200 with the post.
      */
    method GetPost(id: Option<int>) returns (resp: Response)
      ensures id.None? ==> resp == InvalidId
      ensures id.Some? && id.value !in store.posts ==> resp == PostNotFound
      ensures id.Some? && id.value in store.posts ==> resp == Response(StatusOK, PostJson(store.posts[id.value]))
    {
      if id.None? {
        return InvalidId;
      }
      var r := store.Get(id.value);
      if r.Err? {
        return PostNotFound;
      }
      return Response(StatusOK, PostJson(r.value));
    }

    /**
      * CreatePost: 400 for an undecodable payload or one that fails Validate
      * (with Validate's message), leaving the store untouched; otherwise the
      * post is stamped `now`, created, and returned with 201 and its new id.
      */
    method CreatePost(payload: Option<Post>, now: Instant) returns (resp: Response)
      requires store.Valid()
      modifies store
      ensures store.Valid()
      ensures payload.None? ==> resp == InvalidPayload && store.posts == old(store.posts)
      ensures payload.Some? && Validate(payload.value).Fail? ==>
                && resp == Response(StatusBadRequest, ErrorJson(Validate(payload.value).error.Message()))
                && store.posts == old(store.posts)
      ensures payload.Some? && Validate(payload.value).Pass? ==>
                var stamped := payload.value.(createdAt := now, updatedAt := now);
                && resp == Response(StatusCreated, PostJson(stamped.(id := NextId(old(store.posts)))))
                && store.posts == Created(old(store.posts), stamped)
    {
      if payload.None? {
        return InvalidPayload;
      }
      var post := payload.value;
      var valid := Validate(post);
      if valid.Fail? {
        return Response(StatusBadRequest, ErrorJson(valid.error.Message()));
      }
      post := post.(createdAt := now);
      post := post.(updatedAt := now);
      var stored := store.Create(post);
      return Response(StatusCreated, PostJson(stored));
    }

    /**
      * UpdatePost: 400 for a non-integer identifier; then 404 when no post has
      * it, whatever the body; then 400 for an undecodable payload. Only then is
      * the existing post merged with the payload (see Merge) and written back,
      * answered with 200 and the merged post. Every failure leaves the store as
      * it was.
      */
    method UpdatePost(id: Option<int>, payload: Option<Post>, now: Instant) returns (resp: Response)
      requires store.Valid()
      modifies store
      ensures store.Valid()
      ensures id.None? ==> resp == InvalidId && store.posts == old(store.posts)
      ensures id.Some? && id.value !in old(store.posts) ==> resp == PostNotFound && store.posts == old(store.posts)
      ensures id.Some? && id.value in old(store.posts) && payload.None? ==>
                resp == InvalidPayload && store.posts == old(store.posts)
      ensures id.Some? && id.value in old(store.posts) && payload.Some? ==>
                var merged := Merge(old(store.posts)[id.value], payload.value, now);
                && resp == Response(StatusOK, PostJson(merged))
                && store.posts == Updated(old(store.posts), id.value, merged)
    {
      if id.None? {
        return InvalidId;
      }
      var found := store.Get(id.value);
      if found.Err? {
        return PostNotFound;
      }
      if payload.None? {
        return InvalidPayload;
      }
      var existing := found.value;
      var incoming := payload.value;
      if incoming.title != "" {
        existing := existing.(title := incoming.title);
      }
      if incoming.content != "" {
        existing := existing.(content := incoming.content);
      }
      if incoming.author != "" {
        existing := existing.(author := incoming.author);
      }
      existing := existing.(updatedAt := now);
      var updated := store.Update(id.value, existing);
      if updated.Err? {
        return PostNotFound;
      }
      return Response(StatusOK, PostJson(updated.value));
    }

    /**
      * DeletePost: 400 for a non-integer identifier, 404 when no post has it
      * (store unchanged), otherwise the post is removed and the answer is 200.
      */
    method DeletePost(id: Option<int>) returns (resp: Response)
      requires store.Valid()
      modifies store
      ensures store.Valid()
      ensures id.None? ==> resp == InvalidId && store.posts == old(store.posts)
      ensures id.Some? && id.value !in old(store.posts) ==> resp == PostNotFound && store.posts == old(store.posts)
      ensures id.Some? && id.value in old(store.posts) ==>
                && resp == Response(StatusOK, MessageJson("Post deleted successfully"))
                && store.posts == Deleted(old(store.posts), id.value)
    {
      if id.None? {
        return InvalidId;
      }
      var r := store.Delete(id.value);
      if r.Fail? {
        return PostNotFound;
      }
      return Response(StatusOK, MessageJson("Post deleted successfully"));
    }
  }
}
