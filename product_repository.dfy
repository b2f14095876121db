/**
 * The persisted Product entity and the repository's `search(q, status)` query:
 * a description filter, a status filter, and `order by p.id desc`.
 */
module ProductRepository {
  import opened Wrappers
  import opened Text

  /** A point in time, from the clock the service reads. */
  type Instant = int

  /** A stored product; `deletedAt` is null while the product is active. */
  datatype Product = Product(id: int, description: string, quantity: int, deleted: bool, deletedAt: Option<Instant>)

  /** The table of products, keyed by id. */
  type Store = map<int, Product>

  /** Every row is stored under its own id. */
  predicate WellKeyed(store: Store) {
    forall k :: k in store ==> store[k].id == k
  }

  /** `:q is null or :q = '' or lower(p.description) like lower(concat('%', :q, '%'))`,
      with `q` read as literal text. */
  predicate DescriptionMatches(q: Option<string>, description: string) {
    q == None || q.value == "" || Contains(Lower(description), Lower(q.value))
  }

  /** The status clause: ALL admits every row, ACTIVE the rows not deleted, DELETED the
      deleted ones; any other value admits nothing. */
  predicate StatusMatches(status: string, p: Product) {
    status == "ALL" || (status == "ACTIVE" && !p.deleted) || (status == "DELETED" && p.deleted)
  }

  predicate Matches(q: Option<string>, status: string, p: Product) {
    DescriptionMatches(q, p.description) && StatusMatches(status, p)
  }

  lemma EmptyOrHasMember(ids: set<int>)
    ensures ids == {} || exists k :: k in ids
  {
    if forall k :: k !in ids {
      assert ids == {};
    }
  }

  lemma {:induction false} MaxExists(ids: set<int>)
    requires ids != {}
    ensures exists m :: m in ids && forall k :: k in ids ==> k <= m
  {
    EmptyOrHasMember(ids);
    var x :| x in ids;
    if ids - {x} != {} {
      MaxExists(ids - {x});
      var m :| m in ids - {x} && forall k :: k in ids - {x} ==> k <= m;
      var top := if m < x then x else m;
      forall k | k in ids ensures k <= top {
        if k != x { assert k in ids - {x}; }
      }
      assert top in ids;
    } else {
      assert ids == {x};
    }
  }

  /** The largest id of a non-empty set. */
  function MaxId(ids: set<int>): (m: int)
    requires ids != {}
    ensures m in ids && forall k :: k in ids ==> k <= m
  {
    MaxExists(ids);
    var m :| m in ids && forall k :: k in ids ==> k <= m;
    m
  }

  /** The ids of a set, largest first. */
  function IdsDescending(ids: set<int>): (r: seq<int>)
    ensures forall i, j :: 0 <= i < j < |r| ==> r[i] > r[j]
    ensures forall k :: k in r <==> k in ids
    decreases ids
  {
    if ids == {} then []
    else
      var m := MaxId(ids);
      var rest := IdsDescending(ids - {m});
      assert forall j :: 0 <= j < |rest| ==> rest[j] in ids - {m};
      [m] + rest
  }

  /** The rows stored under `ids` that match, in the order of `ids`. */
  function Collect(store: Store, ids: seq<int>, q: Option<string>, status: string): (r: seq<Product>)
    requires WellKeyed(store)
    requires forall i :: 0 <= i < |ids| ==> ids[i] in store
    ensures forall p :: p in r ==> p.id in ids && p.id in store && store[p.id] == p && Matches(q, status, p)
    ensures forall i :: 0 <= i < |ids| && Matches(q, status, store[ids[i]]) ==> store[ids[i]] in r
    ensures (forall i, j :: 0 <= i < j < |ids| ==> ids[i] > ids[j]) ==>
              forall i, j :: 0 <= i < j < |r| ==> r[i].id > r[j].id
  {
    if ids == [] then []
    else
      var rest := Collect(store, ids[1..], q, status);
      var p := store[ids[0]];
      assert forall i :: 0 < i < |ids| ==> ids[i] == ids[1..][i - 1];
      if Matches(q, status, p) then
        assert forall j :: 0 <= j < |rest| ==> rest[j] in rest;
        [p] + rest
      else rest
  }

  /** The repository's `search`: exactly the stored products that match `q` and `status`,
      each once, ordered by id descending. */
  function Search(store: Store, q: Option<string>, status: string): (r: seq<Product>)
    requires WellKeyed(store)
    ensures forall p :: p in r <==> p in store.Values && Matches(q, status, p)
    ensures forall i, j :: 0 <= i < j < |r| ==> r[i].id > r[j].id
  {
    var ids := IdsDescending(store.Keys);
    var r := Collect(store, ids, q, status);
    assert forall p :: p in store.Values && Matches(q, status, p) ==> p in r by {
      forall p | p in store.Values && Matches(q, status, p) ensures p in r {
        var k :| k in store && store[k] == p;
        assert k in ids;
        var i :| 0 <= i < |ids| && ids[i] == k;
      }
    }
    r
  }

  /** With the same `q`, the ALL result holds exactly the ACTIVE and the DELETED
      results together, and no product is in both. */
  lemma SearchAllIsDisjointUnion(store: Store, q: Option<string>)
    requires WellKeyed(store)
    ensures forall p :: p in Search(store, q, "ALL") <==> p in Search(store, q, "ACTIVE") || p in Search(store, q, "DELETED")
    ensures forall p :: !(p in Search(store, q, "ACTIVE") && p in Search(store, q, "DELETED"))
  {
  }

  /** No product appears twice in a search result. */
  lemma SearchHasNoDuplicates(store: Store, q: Option<string>, status: string)
    requires WellKeyed(store)
    ensures var r := Search(store, q, status); forall i, j :: 0 <= i < j < |r| ==> r[i] != r[j]
  {
  }

  /** A missing or empty query matches every description. */
  lemma EmptyQueryMatchesAll(store: Store, status: string)
    requires WellKeyed(store)
    ensures forall p :: p in Search(store, None, status) <==> p in store.Values && StatusMatches(status, p)
    ensures forall p :: p in Search(store, Some(""), status) <==> p in store.Values && StatusMatches(status, p)
  {
  }
}
