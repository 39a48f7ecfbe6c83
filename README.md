# Blog post store and service, and the decode-ways counter, in Dafny

This project models the core of a small CRUD backend for blog posts and one
stand-alone dynamic programme:

- **The post store** (`store.dfy`, module `Store`): class `PostStore` with a
  field `posts: map<int, Post>` that Create, Update, Delete and the seed loader
  update in place, and Get and GetAll read. Create assigns the identifier
  `len(posts) + 1`. This is not a counter: after a Delete, a later Create can
  land on a live key and overwrite its post. The model keeps that behaviour and
  proves when it happens. The object invariant `Valid()` says that every post
  is stored under its own identifier.
- **The store as a value** (`post_map.dfy`, module `PostMap`): the map each
  store operation produces (`Created`, `Updated`, `Deleted`, `Seeded`). The
  methods are specified by these functions. The lemmas cover sequences of
  operations:
  - dense keys `1..n` stay dense under Create;
  - N creates from empty give exactly `1..N`;
  - an overwrite needs a gap below `len + 1`;
  - seed entries keep their own identifiers, and the last entry for an
    identifier wins.
- **Validation** (`models.dfy`, module `Models`): the `Post` record and
  `Validate`, which requires title, content and author, checked in that order.
- **The request handlers** (`service.dfy`, module `Service`): GetPosts,
  GetPost, CreatePost, UpdatePost and DeletePost. Their inputs are abstract:
  - the path identifier arrives parsed, as `Option<int>` (`None` = not an
    integer);
  - the body arrives decoded, as `Option<Post>` (`None` = malformed);
  - the clock is an `Instant` argument.

  Each handler yields the status code and the JSON body it would write, and
  changes the store through the store's methods. `Merge` is the
  partial-update rule: only non-empty payload fields overwrite.
- **numDecodings** (`decode_ways.dfy`, module `DecodeWays`): the loop that
  fills the `dp` array is proved against `Ways`, a recurrence over prefixes.
  `Ways` is proved equal to the size of `AllDecodings(s)`. That is the set of
  all token sequences that spell `s`: single digits 1-9 and two-digit codes
  10-26. The lemmas `AllDecodingsSound` and `AllDecodingsComplete`
  characterise it exactly. The table holds Go `int`s and `+=` wraps around.
  Go's `int` is 32 or 64 bits wide depending on the platform; the model
  assumes a 64-bit `int` (amd64, arm64). `Int64`
  models that wrap, `Table` is the table as Go fills it, and the result is
  proved to be the number of decodings wrapped to 64 bits. That equals the
  number of decodings only below 2^63. From 92 ones on, the count no longer
  fits: 92 ones have Fib(93) = 12200160415121876738 decodings, more than
  2^63 - 1. The lemma `ManyOnesOverflow` proves the overflow from 128 ones on.
- `scenarios.dfy` follows the cases of `pkg/service/service_test.go` and
  `logical_test/main_test.go` through the contracts. It reaches the same status
  codes, stored fields and counts that those tests expect.

Identifiers are not a counter: Create reuses `len + 1`, so an identifier can be
handed out again, and the seed loader accepts any identifier, zero and
negative included. The model follows the code.

## Model

| member | source | states |
|---|---|---|
| Models.Validate | pkg/models/post.go:19-30 | Succeeds exactly when title, content and author are all non-empty. Otherwise it reports the first missing field, in the order title, content, author. It is a function of the post, so it changes nothing. |
| PostMap.Created | pkg/store/post_store.go:32-33 | The map after Create. The key `len + 1` is added, holding the post with its id set to that key. Every other entry is kept. The size grows by one unless that key was already live, in which case the entry is overwritten. Keys-equal-ids is preserved. |
| PostMap.Updated | pkg/store/post_store.go:71-72 | The map after a successful Update. The key set is unchanged, the entry under `id` is the post with its id forced to `id`, and every other entry is kept. |
| PostMap.Deleted | pkg/store/post_store.go:85 | The map after a successful Delete. Exactly `id` is removed, the size drops by one, and the remaining entries are unchanged. |
| PostMap.Seeded | pkg/store/seed_data.go:35-45 | The map after loading a seed list in order. Writing entries under their own ids preserves keys-equal-ids. |
| PostMap.CreateOnDenseKeys | pkg/store/post_store.go:32-33 | On a store whose keys are exactly 1..n, Create assigns n+1 and the keys become exactly 1..n+1. |
| PostMap.CreatedAllFromEmpty | pkg/store/post_store.go:32-33 | N sequential Creates on an empty store leave exactly N posts. The keys are exactly 1..N, and the k-th post (counting from 1) is stored under k with id k: no duplicates, no gaps. |
| PostMap.CreateOverwritesOnlyAfterGap | pkg/store/post_store.go:32-33 | If Create's key `len + 1` is already live, then some identifier in 1..len is unused. So an overwrite needs a hole, such as one left by Delete. |
| PostMap.DeleteThenCreateOverwrites | pkg/store/post_store.go:32-33 | Create a, create b, delete 1, create c: c gets id 2 and replaces b, and the store still holds one post. |
| PostMap.SeededKeys | pkg/store/seed_data.go:35-45 | After loading, the key set is the old keys plus the seed ids. |
| PostMap.SeededRetains | pkg/store/seed_data.go:44 | An existing entry whose key no seed entry names is kept unchanged. |
| PostMap.SeededLastWins | pkg/store/seed_data.go:35-44 | An entry not followed by another with the same id is stored under its own id (not `len + 1`). Its text is copied verbatim and both timestamps are the load time. A later duplicate id overwrites an earlier one. |
| PostMap.SeededSkipsValidation | pkg/store/seed_data.go:36-40 | A seed entry with an empty title is stored as is, and the stored post fails Validate. |
| PostMap.SeedThenCreateOverwrites | pkg/store/seed_data.go:44 | Seeding only id 2 makes Create's next id 2, and that Create overwrites the seeded post. |
| Store.PostStore.constructor | pkg/store/post_store.go:20-25 | NewPostStore: an empty map, which satisfies the invariant. |
| Store.PostStore.Create | pkg/store/post_store.go:27-35 | Returns the post with id `len(posts) + 1` and makes the map `Created(old map, post)`. It has no error case and keeps the invariant. |
| Store.PostStore.Get | pkg/store/post_store.go:37-47 | Ok with the stored post exactly when the id is a key, ErrPostNotFound otherwise. It has no modifies clause, so it never changes the map. |
| Store.PostStore.GetAll | pkg/store/post_store.go:49-60 | The result has one entry per key: every stored post appears in it, and every entry is a stored post. Entry i is the post under the i-th key of a visiting order that names each key exactly once; that order is unspecified. |
| Store.PostStore.Update | pkg/store/post_store.go:62-74 | An absent id gives ErrPostNotFound and leaves the map unchanged. Otherwise the new map is `Updated(old, id, post)` and the stored post has id `id`. |
| Store.PostStore.Delete | pkg/store/post_store.go:76-87 | An absent id gives ErrPostNotFound and leaves the map unchanged. Otherwise the new map is `Deleted(old, id)`. |
| Store.PostStore.LoadSeedData | pkg/store/seed_data.go:21-48 | A read or decode failure is returned with the map untouched. Otherwise the result is Pass and the map is `Seeded(old map, entries, now)`. |
| Service.Merge | pkg/service/service.go:99-109 | Each text field takes the payload's value when it is non-empty and keeps the existing value otherwise. A field changes only to a non-empty payload value. Id and creation time are kept, and the update time is refreshed. A post that passed Validate still passes after any merge. |
| Service.Service.constructor | pkg/service/service.go:19-22 | NewService keeps the store it is given. |
| Service.Service.GetPosts | pkg/service/service.go:29-33 | Always 200, with a list of one entry per key. Every stored post appears, and only stored posts appear. |
| Service.Service.GetPost | pkg/service/service.go:35-51 | A non-integer id gives 400, an unknown id 404, and otherwise 200 with the stored post. |
| Service.Service.CreatePost | pkg/service/service.go:53-75 | An undecodable body gives 400 "Invalid request payload". A failed Validate gives 400 with its message. Both leave the store unchanged. Otherwise the response is 201 with the post stamped `now` and given id `len + 1`, and the store is `Created(old, stamped post)`. |
| Service.Service.UpdatePost | pkg/service/service.go:77-117 | The checks run in order: 400 for a non-integer id, then 404 for an unknown id whatever the body, then 400 for an undecodable body. Each leaves the store unchanged. Otherwise the response is 200 with `Merge(existing, payload, now)`, which replaces the existing entry. |
| Service.Service.DeletePost | pkg/service/service.go:119-134 | 400 for a non-integer id, 404 (store unchanged) for an unknown id, and otherwise 200 with the id removed. |
| DecodeWays.NumDecodings | logical_test/main.go:3-27 | The result is 0 for "" or a leading '0'. Otherwise it is `Table(s, len(s))`, the last entry of the table as Go fills it, with every `+=` wrapping. That equals `Int64(Ways(s))`, the number of decodings of `s` wrapped to a signed 64-bit value. When there are fewer than 2^63 decodings, the result is their exact number. Above that it can be negative. The loop invariant is `dp[k] == Ways(s[..k])`, with `dp[0] = dp[1] = 1`. |
| DecodeWays.Int64Add | logical_test/main.go:15-23 | Adding two wrapped Go `int`s and wrapping the sum gives the wrapped exact sum. So a table of `int`s that wraps at each `+=` holds the exact count modulo 2^64. |
| DecodeWays.TableWraps | logical_test/main.go:8-24 | Every entry of the table Go fills, with each `+=` wrapping, is the number of decodings of that prefix wrapped to 64 bits. |
| DecodeWays.OnesFib | logical_test/main.go:13-24 | A string of n ones has Fib(n + 1) decodings, because each one is its own token or pairs with the next one as 11. |
| DecodeWays.ManyOnesOverflow | logical_test/main.go:13-26 | From 128 ones on, the number of decodings is at least 2^63. Its wrapped value, which is what numDecodings returns, differs from it. |
| DecodeWays.WaysCounts | logical_test/main.go:13-24 | The recurrence the loop tabulates counts the decodings: `Ways(s) == |AllDecodings(s)|`. |
| DecodeWays.AllDecodingsSound | logical_test/main.go:13-24 | Every member of `AllDecodings(s)` is a sequence of tokens (1-9, 10-26) that spells `s`. |
| DecodeWays.AllDecodingsComplete | logical_test/main.go:13-24 | Every sequence of tokens that spells `s` is in `AllDecodings(s)`. |
| DecodeWays.StrandedZero | logical_test/main.go:15-22 | A '0' that is first, or that does not follow '1' or '2', passes neither check, so the count is 0. This covers a leading '0'. |
| DecodeWays.SingleDigit | logical_test/main.go:10-11 | A single non-zero digit has exactly one decoding, the digit itself. |

## Left out

- The `sync.RWMutex` in the store and the seed loader. Each operation is one
  atomic sequential method, so the concurrency guarantees are not modelled.
- HTTP and JSON. `mux.Vars` and `strconv.Atoi` become an `Option<int>`, and
  `json.NewDecoder` an `Option<Post>`. `respondWithJSON` and
  `respondWithError` become the returned `Response`. What JSON accepts as a
  post, such as unknown or missing fields, is not modelled.
- `MainHandler` in pkg/service/service.go: a constant greeting with no logic.
- pkg/rest/rest.go (router, CORS) and main.go (signals, server lifecycle) are
  not part of this model.
- Store.PostStore.Create: the Go method returns an error that is always nil,
  so the model returns only the stored post. The 500 branch of CreatePost
  therefore cannot occur and is not modelled.
- Store.PostStore.LoadSeedData: reading the file and `json.Unmarshal` become
  the `Result` argument, with `ReadFailed` and `DecodeFailed` as its errors.
  The original reads the clock twice per entry. The model uses one instant,
  `now`, for all timestamps of a load.
- Service.Service.CreatePost: the original calls `time.Now()` twice, once for
  `CreatedAt` and once for `UpdatedAt` (pkg/service/service.go:66-67). The
  model stamps both fields with the one `now` it is given, so it does not
  capture the two readings differing.
- Timestamps are opaque `Instant` values supplied by the caller. The code
  promises no ordering between successive clock readings, so the model proves
  none.
- Pointer aliasing. The original stores pointers, and Create and Update also
  write the caller's `ID` into the record passed in (pkg/store/post_store.go:32-33,
  71-72). The model stores values. It matches the original only for callers
  that pass each call a record no key holds yet and do not mutate it afterwards.
  The handlers do this: CreatePost passes a fresh record. UpdatePost passes the
  record already stored under the same id, and the model replaces that entry
  with the merged post. Other callers see differences the model does not capture.
  Calling Create twice with the same record leaves keys 1 and 2 sharing one
  record whose `ID` is 2. Calling Update(2, q) with q taken from Get(1) sets
  the `ID` seen under key 1 to 2 as well. So `Valid()`, where every post is
  stored under its own id, is an invariant of the model and of the original as
  the handlers use it, but not of the Go store for arbitrary callers.
- DecodeWays.NumDecodings keeps the entries of its own table exact and wraps
  once, on return. Go's table holds the wrapped entries. `Table` models those,
  and the method's contract ties its result to `Table`. So the result is the
  same, but the intermediate entries the model's array holds are not Go's
  once a count passes 2^63.
- DecodeWays.NumDecodings does not model 32-bit builds. There Go's `int` is
  32 bits wide and wraps at 2^31, so the table first wraps at 46 ones: they
  have Fib(47) = 2971215073 decodings, more than 2^31 - 1. The model assumes a
  64-bit `int`.
- The text of the store's `ErrPostNotFound` error is not modelled: the handlers
  answer with their own "Post not found" message and never read it.
- DecodeWays.NumDecodings requires a string of ASCII digits. For other bytes
  the original's `twoDigit` arithmetic wraps around modulo 256, and that is
  not modelled.
