/**
 The in-memory record store behind the car-post GraphQL API.

 The store is an ordered sequence of records.  A record carries only a car
 name and a manufacturer; its public id is its current position in the
 sequence, attached when the record is read (`Tag`).  Positional ids are not
 stable identifiers: they would shift if records were ever removed, which is
 why nothing here treats them as keys of a persistent layer.
 */
module PostStore {
  import opened Wrappers

  /** A stored record: exactly the two fields the mutation persists. */
  datatype Record = Record(car: string, manufacturer: string)

  /** A record as the API returns it: annotated with its positional id. */
  datatype Post = Post(id: int, car: string, manufacturer: string)

  /** The whole store, in storage order. */
  type Store = seq<Record>

  /** The three records the process starts with. */
  function Seed(): Store
  {
    [ Record("Echo", "Toyota"),
      Record("Optra", "Chevrolet"),
      Record("Rio", "Kia") ]
  }

  /** Annotates a record with an id (the `mapPost` helper). */
  function Tag(r: Record, id: int): (p: Post)
    ensures p.id == id
    ensures Untag(p) == r
  {
    Post(id, r.car, r.manufacturer)
  }

  /** Forgets the id of a returned post, giving back the record it was made from. */
  function Untag(p: Post): Record
  {
    Record(p.car, p.manufacturer)
  }

  /** True when `id` names an existing position of `s`. */
  predicate InRange(s: Store, id: int)
  {
    0 <= id < |s|
  }

  /** The `post(id)` query: the record at position `id` tagged with `id`, or null. */
  function Get(s: Store, id: int): (r: Option<Post>)
    ensures r.Some? <==> InRange(s, id)
    ensures r.Some? ==> r.value.id == id && Untag(r.value) == s[id]
  {
    if InRange(s, id) then Some(Tag(s[id], id)) else None
  }

  /** The `posts` query: every record, in storage order, tagged with its index. */
  function List(s: Store): (ps: seq<Post>)
    ensures |ps| == |s|
    ensures forall i :: 0 <= i < |ps| ==> ps[i].id == i && Untag(ps[i]) == s[i]
    decreases |s|
  {
    if s == [] then []
    else List(s[..|s| - 1]) + [Tag(s[|s| - 1], |s| - 1)]
  }

  /** Strips the ids off a listing. */
  function Records(ps: seq<Post>): (rs: Store)
    ensures |rs| == |ps|
  {
    if ps == [] then [] else [Untag(ps[0])] + Records(ps[1..])
  }

  /** The position `submitPost` writes to: `id` when it is present and in range, else the old length. */
  function Target(s: Store, id: Option<int>): (k: nat)
    ensures k <= |s|
    ensures k < |s| <==> id.Some? && InRange(s, id.value)
    ensures k < |s| ==> k == id.value
  {
    if id.Some? && InRange(s, id.value) then id.value else |s|
  }

  /**
   The `submitPost` mutation: builds a record from `car` and `manufacturer`
   (the input id is not part of it), replaces position `id` when `id` is
   present and in range, and appends otherwise.  Returns the new store and
   the record tagged with the position it now occupies.
   */
  function Upsert(s: Store, id: Option<int>, car: string, manufacturer: string): (res: (Store, Post))
    ensures res.1.id == Target(s, id)
    ensures Untag(res.1) == Record(car, manufacturer)
    ensures id.Some? && InRange(s, id.value) ==>
              && |res.0| == |s|
              && res.1.id == id.value
              && res.0[id.value] == Record(car, manufacturer)
              && (forall j :: 0 <= j < |s| && j != id.value ==> res.0[j] == s[j])
    ensures !(id.Some? && InRange(s, id.value)) ==>
              && |res.0| == |s| + 1
              && res.1.id == |s|
              && res.0[..|s|] == s
              && res.0[|s|] == Record(car, manufacturer)
  {
    var post := Record(car, manufacturer);
    var index := Target(s, id);
    if index < |s| then (s[index := post], Tag(post, index))
    else (s + [post], Tag(post, index))
  }

  // ---------------------------------------------------------------------------
  // Properties relating the operations
  // ---------------------------------------------------------------------------

  /** Immediately after start-up, the listing is Echo/Toyota, Optra/Chevrolet, Rio/Kia with ids 0, 1, 2. */
  lemma SeedListing()
    ensures List(Seed()) == [ Post(0, "Echo", "Toyota"),
                              Post(1, "Optra", "Chevrolet"),
                              Post(2, "Rio", "Kia") ]
  {
  }

  /** The point lookup agrees with the listing: `post(id)` is element `id` of `posts`, or null off its end. */
  lemma GetAgreesWithList(s: Store, id: int)
    ensures Get(s, id) == if 0 <= id < |List(s)| then Some(List(s)[id]) else None
  {
  }

  /** Stripping the ids off the listing gives back the store itself. */
  lemma {:induction false} ListRecords(s: Store)
    ensures Records(List(s)) == s
  {
    RecordsIndex(List(s));
  }

  /** Element `i` of `Records(ps)` is element `i` of `ps` without its id. */
  lemma {:induction false} RecordsIndex(ps: seq<Post>)
    ensures forall i :: 0 <= i < |ps| ==> Records(ps)[i] == Untag(ps[i])
    decreases |ps|
  {
    if ps != [] {
      RecordsIndex(ps[1..]);
      forall i | 0 < i < |ps|
        ensures Records(ps)[i] == Untag(ps[i])
      {
        assert Records(ps)[i] == Records(ps[1..])[i - 1];
      }
    }
  }

  /** After any upsert, looking up the id it returned yields exactly the post it returned. */
  lemma UpsertThenGet(s: Store, id: Option<int>, car: string, manufacturer: string)
    ensures var (s', p) := Upsert(s, id, car, manufacturer);
            Get(s', p.id) == Some(p)
  {
  }

  /** Every id that is absent, negative or past the end behaves exactly like a null id. */
  lemma OutOfRangeUpsertIsAppend(s: Store, id: Option<int>, car: string, manufacturer: string)
    requires !(id.Some? && InRange(s, id.value))
    ensures Upsert(s, id, car, manufacturer) == Upsert(s, None, car, manufacturer)
    ensures Upsert(s, id, car, manufacturer).0 == s + [Record(car, manufacturer)]
  {
  }

  /** The stored record does not depend on the input id: two upserts landing on the same position store the same record. */
  lemma UpsertIgnoresInputId(s: Store, id1: Option<int>, id2: Option<int>, car: string, manufacturer: string)
    requires Target(s, id1) == Target(s, id2)
    ensures Upsert(s, id1, car, manufacturer) == Upsert(s, id2, car, manufacturer)
  {
  }

  /** Replacing record `k` changes only element `k` of the listing, which becomes the new record tagged `k`. */
  lemma ListAfterReplace(s: Store, k: int, r: Record)
    requires 0 <= k < |s|
    ensures List(s[k := r]) == List(s)[k := Tag(r, k)]
  {
  }

  /** Appending a record appends it, tagged with the old length, to the listing. */
  lemma ListAfterAppend(s: Store, r: Record)
    ensures List(s + [r]) == List(s) + [Tag(r, |s|)]
  {
  }

  /** The listing after an upsert: one element replaced in place, or the returned post appended. */
  lemma ListAfterUpsert(s: Store, id: Option<int>, car: string, manufacturer: string)
    ensures var (s', p) := Upsert(s, id, car, manufacturer);
            if p.id < |s| then List(s') == List(s)[p.id := p]
            else List(s') == List(s) + [p]
  {
    var k := Target(s, id);
    if k < |s| {
      ListAfterReplace(s, k, Record(car, manufacturer));
    } else {
      ListAfterAppend(s, Record(car, manufacturer));
    }
  }
}
