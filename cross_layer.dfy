/**
 * How the page and the service meet: the row the page receives for a stored product,
 * and what the page's own checks do and do not guarantee about the service's answer.
 */
module CrossLayer {
  import opened Wrappers
  import opened Text
  import opened ProductRepository
  import opened Server
  import opened SortOrder
  import opened InventoryView

  /** The row the page receives for a stored product (the response record, without its
      timestamps). */
  function AsItem(p: Product): (r: Item)
    ensures r.id == p.id && r.description == p.description && r.quantity == p.quantity && r.deleted == p.deleted
  {
    Item(p.id, p.description, p.quantity, p.deleted)
  }

  /** The rows of a list response, in the order the service sent them. */
  function AsItems(ps: seq<Product>): (r: seq<Item>)
    ensures |r| == |ps| && forall i :: 0 <= i < |ps| ==> r[i] == AsItem(ps[i])
  {
    seq(|ps|, i requires 0 <= i < |ps| => AsItem(ps[i]))
  }

  /** A stock-out the page lets through, checked against a row whose quantity is still the
      stored one, is a valid stock move that the service never refuses for lack of stock;
      on an active product it succeeds. */
  lemma ConfirmedStockOutIsNeverInsufficient(p: Product, draft: string)
    requires CheckStockOut(draft, AsItem(p).quantity).Ok?
    ensures var n := CheckStockOut(draft, AsItem(p).quantity).value;
      ValidStockMove(n) && StockedOut(p, n) != Err(InsufficientStock) &&
      (!p.deleted ==> StockedOut(p, n) == Ok(p.(quantity := p.quantity - n)))
  {
  }

  /** The page refuses a quantity of zero that the service would accept: "banana" with
      quantity 0 is a valid create request, yet the page stops it with its quantity message. */
  lemma ZeroQuantityRefusedOnlyByPage()
    ensures ValidCreateRequest("banana", 0)
    ensures CheckCreate("banana", "0") == Err(QuantityMustBePositive)
  {
    assert "banana"[0] > ' ';
    TrimOfUnpadded("banana");
    CreateRejectsZero("banana");
  }

  /** Every quantity the page lets through meets the service's lower bound. */
  lemma CreateCheckMeetsQuantityBound(desc: string, qty: string)
    requires CheckCreate(desc, qty).Ok?
    ensures CheckCreate(desc, qty).value.quantity >= 0
  {
  }

  /** The page's blank test is not the service's: a description made of one control
      character that is not JavaScript whitespace (such as U+0001) is sent by the page,
      but the service finds it blank and refuses it. */
  lemma ControlCharacterPassesOnlyThePage(c: char, n: nat)
    requires c < ' ' && !IsJsWhitespace(c) && n >= 1
    ensures CheckCreate([c], Decimal(n)) == Ok(CreateProduct([c], n))
    ensures !ValidCreateRequest([c], n)
  {
    TrimOfUnpadded([c]);
    CreateAcceptsPositiveNumerals([c], n);
  }

  /** The rows of any list response carry distinct ids. */
  lemma ListedRowsHaveDistinctIds(store: Store, q: Option<string>, status: string)
    requires WellKeyed(store)
    ensures DistinctIds(AsItems(Search(store, q, status)))
  {
    var r := Search(store, q, status);
    forall i, j | 0 <= i < j < |r| ensures AsItems(r)[i].id != AsItems(r)[j].id {
      assert r[i].id > r[j].id;
    }
  }

  /** On the rows of a list response, flipping the sort direction shows them in exactly
      the opposite order, whatever the key. */
  lemma FlippingListedRowsReversesView(store: Store, q: Option<string>, status: string, key: SortKey, dir: SortDir)
    requires WellKeyed(store)
    ensures var rows := Array(AsItems(Search(store, q, status)));
      SortedItems(rows, key, FlippedDir(dir)) == Reverse(SortedItems(rows, key, dir))
  {
    ListedRowsHaveDistinctIds(store, q, status);
    FlippingReversesView(Array(AsItems(Search(store, q, status))), key, dir);
  }
}
