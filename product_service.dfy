/**
 * The product service: create, get, update, list, soft delete, restore, stock out and
 * stock in over the product table. Each failure is a status code with a reason, as the
 * service's ResponseStatusException carries.
 */
module Server {
  import opened Wrappers
  import opened Text
  import opened ProductRepository

  datatype HttpStatus = NotFound | Conflict | BadRequest

  datatype Failure = Failure(status: HttpStatus, reason: string)

  const ProductNotFound := Failure(NotFound, "Product not found")
  const ProductIsDeleted := Failure(Conflict, "Product is deleted")
  const InsufficientStock := Failure(Conflict, "Insufficient stock")
  const InvalidStatus := Failure(BadRequest, "status must be ACTIVE, DELETED or ALL")

  /** The largest value of a Java `int`. */
  const Int32Max := 0x7fff_ffff

  /** A product create request that passes validation: a description that is not blank
      and has at most 200 characters, and a quantity of at least 0. */
  predicate ValidCreateRequest(description: string, quantity: int) {
    NotBlank(description) && |description| <= 200 && quantity >= 0
  }

  /** A stock move request that passes validation: a quantity of at least 1. */
  predicate ValidStockMove(quantity: int) {
    quantity >= 1
  }

  /** What every stored product satisfies: its stock is not negative, and it carries a
      deletion time exactly when it is deleted. */
  predicate RowInvariant(p: Product) {
    p.quantity >= 0 && (p.deleted <==> p.deletedAt.Some?)
  }

  // ---------------------------------------------------------------------------
  // The effect of each operation on the one product it finds

  /** softDelete on a found product: an active product becomes deleted at `now`; a
      deleted one keeps its original deletion time. */
  function SoftDeleted(p: Product, now: Instant): (r: Product)
    ensures r.deleted
    ensures r.(deleted := p.deleted, deletedAt := p.deletedAt) == p
    ensures p.deleted ==> r == p
    ensures !p.deleted ==> r.deletedAt == Some(now)
    ensures RowInvariant(p) ==> RowInvariant(r)
  {
    if !p.deleted then p.(deleted := true, deletedAt := Some(now)) else p
  }

  /** restore on a found product: a deleted product becomes active with no deletion
      time; an active one is left as it is. */
  function Restored(p: Product): (r: Product)
    ensures !r.deleted
    ensures r.(deleted := p.deleted, deletedAt := p.deletedAt) == p
    ensures RowInvariant(p) ==> r == p.(deleted := false, deletedAt := None)
    ensures RowInvariant(p) ==> RowInvariant(r)
  {
    if p.deleted then p.(deleted := false, deletedAt := None) else p
  }

  /** stockOut on a found product: refused while the product is deleted or when the
      stock would go below zero; otherwise the stock drops by `quantity`. */
  function StockedOut(p: Product, quantity: int): (r: Result<Product, Failure>)
    ensures p.deleted ==> r == Err(ProductIsDeleted)
    ensures !p.deleted && p.quantity < quantity ==> r == Err(InsufficientStock)
    ensures r.Ok? <==> !p.deleted && quantity <= p.quantity
    ensures r.Ok? ==> r.value.quantity >= 0 && r.value == p.(quantity := p.quantity - quantity)
    ensures r.Ok? && RowInvariant(p) ==> RowInvariant(r.value)
  {
    if p.deleted then Err(ProductIsDeleted)
    else
      var newQty := p.quantity - quantity;
      if newQty < 0 then Err(InsufficientStock) else Ok(p.(quantity := newQty))
  }

  /** stockIn on a found product, with the sum taken exactly: refused while the
      product is deleted; otherwise the stock grows by `quantity`. */
  function StockedIn(p: Product, quantity: int): (r: Result<Product, Failure>)
    requires ValidStockMove(quantity)
    ensures r.Err? <==> p.deleted
    ensures r.Err? ==> r.error == ProductIsDeleted
    ensures r.Ok? ==> r.value.quantity > p.quantity && r.value == p.(quantity := p.quantity + quantity)
    ensures r.Ok? && RowInvariant(p) ==> RowInvariant(r.value)
  {
    if p.deleted then Err(ProductIsDeleted) else Ok(p.(quantity := p.quantity + quantity))
  }

  /** Java's `int` addition: the exact sum wrapped into the 32-bit two's complement range. */
  function WrapInt32(x: int): (r: int)
    ensures -Int32Max - 1 <= r <= Int32Max
    ensures -Int32Max - 1 <= x <= Int32Max ==> r == x
    ensures (r - x) % (2 * (Int32Max + 1)) == 0
  {
    (x + Int32Max + 1) % (2 * (Int32Max + 1)) - (Int32Max + 1)
  }

  /** stockIn as the service computes it, `p.getQuantity() + req.quantity()` in `int`. */
  function StockedInAsWritten(p: Product, quantity: int): (r: Result<Product, Failure>)
    requires ValidStockMove(quantity)
    ensures r.Err? <==> p.deleted
    ensures r.Err? ==> r.error == ProductIsDeleted
    ensures r.Ok? ==> r.value == p.(quantity := WrapInt32(p.quantity + quantity))
  {
    if p.deleted then Err(ProductIsDeleted) else Ok(p.(quantity := WrapInt32(p.quantity + quantity)))
  }

  /** The 32-bit sum wraps: one more unit into a product that holds the largest `int`
      leaves it with a negative stock. */
  lemma StockInAsWrittenOverflows(p: Product)
    requires !p.deleted && p.quantity == Int32Max
    ensures StockedInAsWritten(p, 1).Ok?
    ensures StockedInAsWritten(p, 1).value.quantity == -Int32Max - 1
    ensures !RowInvariant(StockedInAsWritten(p, 1).value)
  {
  }

  /** Within the 32-bit range the exact sum and the wrapped sum agree. */
  lemma StockInAgreesBelowOverflow(p: Product, quantity: int)
    requires ValidStockMove(quantity) && RowInvariant(p) && p.quantity + quantity <= Int32Max
    ensures StockedInAsWritten(p, quantity) == StockedIn(p, quantity)
  {
  }

  // ---------------------------------------------------------------------------
  // Laws relating the operations

  /** Deleting twice is deleting once: the second call keeps the first deletion time. */
  lemma SoftDeleteIsIdempotent(p: Product, first: Instant, second: Instant)
    ensures SoftDeleted(SoftDeleted(p, first), second) == SoftDeleted(p, first)
  {
  }

  /** Restoring twice is restoring once. */
  lemma RestoreIsIdempotent(p: Product)
    ensures Restored(Restored(p)) == Restored(p)
  {
  }

  /** Restore undoes a soft delete of an active product. */
  lemma RestoreUndoesSoftDelete(p: Product, now: Instant)
    requires RowInvariant(p) && !p.deleted
    ensures Restored(SoftDeleted(p, now)) == p
  {
  }

  /** Soft delete at the original time undoes a restore of a deleted product. */
  lemma SoftDeleteUndoesRestore(p: Product)
    requires RowInvariant(p) && p.deleted
    ensures SoftDeleted(Restored(p), p.deletedAt.value) == p
  {
  }

  /** A stock in followed by a stock out of the same amount gives back the product. */
  lemma StockOutUndoesStockIn(p: Product, quantity: int)
    requires ValidStockMove(quantity) && RowInvariant(p)
    ensures StockedIn(p, quantity).Ok? ==> StockedOut(StockedIn(p, quantity).value, quantity) == Ok(p)
  {
  }

  /** A stock out followed by a stock in of the same amount gives back the product. */
  lemma StockInUndoesStockOut(p: Product, quantity: int)
    requires ValidStockMove(quantity)
    ensures StockedOut(p, quantity).Ok? ==> StockedIn(StockedOut(p, quantity).value, quantity) == Ok(p)
  {
  }

  // ---------------------------------------------------------------------------
  // Listing

  /** The status filter `list` searches with: a missing or blank value means ACTIVE,
      anything else is upper-cased. */
  function NormalizeStatus(status: Option<string>): (r: string)
    ensures status == None || IsBlank(status.value) ==> r == "ACTIVE"
    ensures status != None && !IsBlank(status.value) ==> r == Upper(status.value)
    ensures Upper(r) == r
  {
    if status == None || IsBlank(status.value) then "ACTIVE" else Upper(status.value)
  }

  predicate IsKnownStatus(st: string) {
    st == "ACTIVE" || st == "DELETED" || st == "ALL"
  }

  /** `list` accepts a status exactly when it is missing, blank, or one of ACTIVE, DELETED
      and ALL in any letter case. */
  lemma KnownStatusesIgnoreCase(status: Option<string>)
    ensures IsKnownStatus(NormalizeStatus(status)) <==>
      status == None || IsBlank(status.value) || IsKnownStatus(Upper(status.value))
  {
  }

  /** The status parameter is read without regard to letter case. */
  lemma NormalizeStatusIgnoresCase(status: string)
    requires !IsBlank(status)
    ensures NormalizeStatus(Some(status)) == NormalizeStatus(Some(Upper(status)))
  {
    var u := Upper(status);
    assert !IsBlank(u) by {
      var i :| 0 <= i < |status| && !IsJavaWhitespace(status[i]);
      assert !IsJavaWhitespace(u[i]);
    }
    assert Upper(u) == u;
  }

  // ---------------------------------------------------------------------------
  // The service over the product table

  class ProductService {
    /** The product table, keyed by id. */
    var products: Store
    /** The id the next created product receives. */
    var nextId: int

    ghost predicate Valid()
      reads this
    {
      WellKeyed(products) &&
      forall k :: k in products ==> k < nextId && RowInvariant(products[k])
    }

    constructor ()
      ensures Valid() && products == map[]
    {
      products := map[];
      nextId := 1;
    }

    /** create: stores a new active product under an unused id, carrying the request's
        description and quantity; nothing else changes. */
    method Create(description: string, quantity: int) returns (created: Product)
      requires Valid()
      requires ValidCreateRequest(description, quantity)
      modifies this
      ensures Valid()
      ensures created.id !in old(products)
      ensures created == Product(created.id, description, quantity, false, None)
      ensures products == old(products)[created.id := created]
    {
      created := Product(nextId, description, quantity, false, None);
      products := products[nextId := created];
      nextId := nextId + 1;
    }

    /** get: the product stored under `id`, or NOT_FOUND. */
    function Get(id: int): (r: Result<Product, Failure>)
      reads this
      ensures r.Ok? <==> id in products
      ensures r.Ok? ==> r.value == products[id]
      ensures r.Err? ==> r.error == ProductNotFound
    {
      if id in products then Ok(products[id]) else Err(ProductNotFound)
    }

    /** update: replaces the description and quantity of the product under `id`. */
    method Update(id: int, description: string, quantity: int) returns (r: Result<Product, Failure>)
      requires Valid()
      requires quantity >= 0
      modifies this
      ensures Valid() && nextId == old(nextId)
      ensures r.Err? <==> id !in old(products)
      ensures r.Err? ==> r.error == ProductNotFound && products == old(products)
      ensures r.Ok? ==> r.value == old(products)[id].(description := description, quantity := quantity)
      ensures r.Ok? ==> products == old(products)[id := r.value]
    {
      if id !in products {
        return Err(ProductNotFound);
      }
      var p := products[id].(description := description, quantity := quantity);
      products := products[id := p];
      r := Ok(p);
    }

    /** list: the search result for `q` and the normalised status, or BAD_REQUEST when
        the status is none of ACTIVE, DELETED and ALL. */
    function List(q: Option<string>, status: Option<string>): (r: Result<seq<Product>, Failure>)
      reads this
      requires WellKeyed(products)
      ensures r.Err? <==> !IsKnownStatus(NormalizeStatus(status))
      ensures r.Err? ==> r.error == InvalidStatus
      ensures r.Ok? ==> forall p :: p in r.value <==> p in products.Values && Matches(q, NormalizeStatus(status), p)
      ensures r.Ok? ==> forall i, j :: 0 <= i < j < |r.value| ==> r.value[i].id > r.value[j].id
    {
      var st := NormalizeStatus(status);
      if !IsKnownStatus(st) then Err(InvalidStatus) else Ok(Search(products, q, st))
    }

    /** softDelete: marks the product deleted at `now` unless it already is. */
    method SoftDelete(id: int, now: Instant) returns (r: Result<(), Failure>)
      requires Valid()
      modifies this
      ensures Valid() && nextId == old(nextId)
      ensures r.Err? <==> id !in old(products)
      ensures r.Err? ==> r.error == ProductNotFound && products == old(products)
      ensures r.Ok? ==> products == old(products)[id := SoftDeleted(old(products)[id], now)]
    {
      if id !in products {
        return Err(ProductNotFound);
      }
      var p := products[id];
      if !p.deleted {
        products := products[id := p.(deleted := true, deletedAt := Some(now))];
      }
      r := Ok(());
    }

    /** restore: makes a deleted product active again and clears its deletion time. */
    method Restore(id: int) returns (r: Result<(), Failure>)
      requires Valid()
      modifies this
      ensures Valid() && nextId == old(nextId)
      ensures r.Err? <==> id !in old(products)
      ensures r.Err? ==> r.error == ProductNotFound && products == old(products)
      ensures r.Ok? ==> products == old(products)[id := Restored(old(products)[id])]
    {
      if id !in products {
        return Err(ProductNotFound);
      }
      var p := products[id];
      if p.deleted {
        products := products[id := p.(deleted := false, deletedAt := None)];
      }
      r := Ok(());
    }

    /** stockOut: takes `quantity` units out of an active product with enough stock;
        a failed call changes nothing. */
    method StockOut(id: int, quantity: int) returns (r: Result<Product, Failure>)
      requires Valid()
      requires ValidStockMove(quantity)
      modifies this
      ensures Valid() && nextId == old(nextId)
      ensures id !in old(products) ==> r == Err(ProductNotFound)
      ensures id in old(products) ==> r == StockedOut(old(products)[id], quantity)
      ensures r.Ok? ==> products == old(products)[id := r.value]
      ensures r.Err? ==> products == old(products)
    {
      if id !in products {
        return Err(ProductNotFound);
      }
      var p := products[id];
      if p.deleted {
        return Err(ProductIsDeleted);
      }
      var newQty := p.quantity - quantity;
      if newQty < 0 {
        return Err(InsufficientStock);
      }
      var updated := p.(quantity := newQty);
      products := products[id := updated];
      r := Ok(updated);
    }

    /** stockIn: adds `quantity` units to an active product; a failed call changes
        nothing. */
    method StockIn(id: int, quantity: int) returns (r: Result<Product, Failure>)
      requires Valid()
      requires ValidStockMove(quantity)
      modifies this
      ensures Valid() && nextId == old(nextId)
      ensures id !in old(products) ==> r == Err(ProductNotFound)
      ensures id in old(products) ==> r == StockedIn(old(products)[id], quantity)
      ensures r.Ok? ==> products == old(products)[id := r.value]
      ensures r.Err? ==> products == old(products)
    {
      if id !in products {
        return Err(ProductNotFound);
      }
      var p := products[id];
      if p.deleted {
        return Err(ProductIsDeleted);
      }
      var updated := p.(quantity := p.quantity + quantity);
      products := products[id := updated];
      r := Ok(updated);
    }
  }
}
