# Car-post record store

A Dafny model of the in-memory record store behind the car-post GraphQL
server (`server/src/server.ts`). The server keeps a process-wide array of
`{car, manufacturer}` records, seeded with three entries, and answers three
root resolvers:

- `post(id)` — the record at position `id`, tagged with `id`, or `null`;
- `posts` — every record in storage order, each tagged with its index;
- `submitPost(input)` — an upsert by position: replace in place when
  `input.id` is present and `0 <= id < length`, append otherwise, and return
  the new record tagged with the position it occupies.

The public id of a record is its current index; it is not a stable key.

Modules:

- `Wrappers` (`wrappers.dfy`) — `Option`, standing for `null`.
- `PostStore` (`store.dfy`) — `Record`, `Post`, the store as `seq<Record>`,
  the seed, and the pure operations `Get`, `List`, `Upsert`, with lemmas
  relating them.
- `Api` (`api.dfy`) — the three resolvers as a `Step` function from a store
  and a request to the next store and a response, and `Run`, which serves a
  sequence of requests one after the other (the server serves each request
  to completion before the next).

## Model

| member | source | states |
|---|---|---|
| PostStore.SeedListing | server/src/server.ts:48-52 | the initial listing is exactly Echo/Toyota, Optra/Chevrolet, Rio/Kia with ids 0, 1, 2 |
| PostStore.Tag | server/src/server.ts:77 | `mapPost` gives the post the id it is passed and keeps the record's car and manufacturer unchanged |
| PostStore.Get | server/src/server.ts:77-80 | `post(id)` is present exactly when `0 <= id < length`, and then carries id `id` and the record stored at `id` |
| PostStore.List | server/src/server.ts:81 | `posts` has the store's length and element `i` is record `i` tagged with id `i` |
| PostStore.ListRecords | server/src/server.ts:81 | dropping the ids from the listing gives back the store in storage order |
| PostStore.GetAgreesWithList | server/src/server.ts:80-81 | `post(id)` is element `id` of `posts` when that exists and null otherwise |
| PostStore.Target | server/src/server.ts:88-95 | the written position is `id` exactly when `id` is non-null and in range, and the old length otherwise |
| PostStore.Upsert | server/src/server.ts:82-98 | in range: same length, position `id` holds the new record, every other position unchanged, returned id is `id`; otherwise: length grows by one, old prefix unchanged, new record last, returned id is the old length; the returned post holds only the input car and manufacturer |
| PostStore.OutOfRangeUpsertIsAppend | server/src/server.ts:88-95 | a null, negative or too-large id gives the same result as a null id: the store with the record appended |
| PostStore.UpsertIgnoresInputId | server/src/server.ts:83-87 | the stored record and result depend on the input id only through the position written |
| PostStore.UpsertThenGet | server/src/server.ts:80-97 | after any upsert, looking up the returned id yields exactly the returned post |
| PostStore.ListAfterReplace | server/src/server.ts:81-92 | replacing position `k` in place changes only element `k` of the listing, which becomes the new record tagged `k` |
| PostStore.ListAfterAppend | server/src/server.ts:81-95 | appending a record adds exactly one element to the listing, the record tagged with the old length |
| PostStore.ListAfterUpsert | server/src/server.ts:81-97 | after an upsert the listing is the old listing with one element replaced, or with the returned post appended |
| Api.Step | server/src/server.ts:79-99 | `post` and `posts` leave the store unchanged; `post(id)` is present exactly for in-range ids and then carries that id and the stored record; `posts` lists every record tagged with its index; `submitPost` writes its post at the input id when that id is non-null and in range (store length unchanged) and otherwise at the old length (store one longer), answers with a post holding only the input car and manufacturer tagged with that position, and leaves every other old position unchanged |
| Api.Run | server/src/server.ts:79-99 | serving a sequence of requests yields exactly one answer per request |
| Api.RunAppend | server/src/server.ts:79-99 | serving two sequences back to back equals serving their concatenation, the second starting from the store the first left |
| Api.RunIndex | server/src/server.ts:79-99 | the answer to request `i` is that request served against the store left by the requests before it |
| Api.RepeatedReadsAgree | server/src/server.ts:80-81 | within any run, mutations included, a query repeated with only queries in between gets the same answer both times |
| Api.ReadsKeepStore | server/src/server.ts:80-81 | a run of queries leaves the store unchanged, answers each as if served alone, and answers repeated queries identically |
| Api.SubmitThenQuery | server/src/server.ts:80-97 | a mutation followed by a query of the id it returned answers with the same post |
| Api.SeedSubmitAppends | server/src/server.ts:48-97 | from the seed, a mutation with a null id returns id 3 and the listing grows to four posts with the seed listing as prefix |

## Left out

- The MongoDB connection and the `reviews` aggregation (server/src/server.ts:14-46): network I/O with floating-point averaging and a timer-driven close; it never touches the store.
- The Express application, `helmet`, `cors`, the `graphqlHTTP` mounting, static file serving and `listen` (server/src/server.ts:101-126): HTTP plumbing from third-party libraries.
- The schema text and `buildASTSchema` (server/src/server.ts:54-75): requests are taken as already type-checked, so `car` and `manufacturer` are always present strings.
- `dotenv` configuration and `console.log` output.
- GraphQL `ID` values are strings in the server and JavaScript coerces them in `id >= 0`, `id < POSTS.length`, `splice` and `POSTS[id]`. The model takes the id as an integer (`Option<int>` for the nullable mutation input). Non-integer or non-canonical id strings, where the lookup and the mutation coerce differently, are not modelled, nor is the fact that the returned id keeps the caller's spelling. For such ids the source breaks the round trip that `PostStore.UpsertThenGet` and `Api.SubmitThenQuery` prove for integers: `submitPost` with id `"01"` replaces position 1 (the comparisons and `splice` read it as 1) and returns id `"01"`, but `post(id: "01")` reads the property `POSTS["01"]`, which does not exist, and answers null; the id `""` likewise replaces position 0 yet cannot be looked up.
- Mutation of the shared array is modelled as a pure function returning the new store; the single-threaded, one-request-at-a-time serving is modelled by `Api.Run`.
