/**
 * The products page (`Products`): its state fields, the client-side checks that stop a
 * request before it is sent, the inline stock-out session, and the reload that replaces
 * the listing after every successful change. Each async handler is one atomic step; the
 * replies it awaits are parameters, and it returns the requests it sent, in order.
 */
module InventoryView {
  import opened Wrappers
  import opened Text
  import opened Api
  import opened SortOrder

  /** A call the page makes to the product service. */
  datatype Request =
    | ListProducts(q: string, status: string)
    | CreateProduct(description: string, quantity: int)
    | DeleteProduct(id: int)
    | RestoreProduct(id: int)
    | StockOutProduct(id: int, quantity: int)

  const DescriptionRequired := "Descrição é obrigatória."
  const QuantityMustBePositive := "Quantidade deve ser maior que 0."
  const StockOutMustBePositive := "Quantidade de saída deve ser maior que 0."
  const StockOutExceedsStock := "Quantidade de saída maior que o estoque atual."

  /** All the fields of the page, as one value. */
  datatype PageState = PageState(
    q: string, status: string, items: Listing, msg: string, loading: bool,
    desc: string, qty: string, sortBy: SortKey, sortDir: SortDir,
    stockOutId: Option<int>, stockOutQty: string)

  /** The initial field values. */
  const Initial := PageState("", "ACTIVE", Array([]), "", false, "", "", ById, Asc, None, "")

  // ---------------------------------------------------------------------------
  // Checks made before a request is sent

  /** The create form's check: a description that is not blank once trimmed, then a
      quantity that reads as a number above zero. On success, what is sent. */
  function CheckCreate(desc: string, qty: string): (r: Result<Request, string>)
    ensures r.Ok? <==> Trim(desc) != [] && ToNumber(qty).Some? && ToNumber(qty).value > 0
    ensures Trim(desc) == [] ==> r == Err(DescriptionRequired)
    ensures Trim(desc) != [] && !(ToNumber(qty).Some? && ToNumber(qty).value > 0) ==> r == Err(QuantityMustBePositive)
    ensures r.Ok? ==> r.value.CreateProduct? && r.value.description == Trim(desc) && r.value.description != [] &&
                      r.value.quantity >= 1 && ToNumber(qty) == Some(r.value.quantity)
  {
    var cleanDesc := Trim(desc);
    var nQty := ToNumber(qty);
    if cleanDesc == [] then Err(DescriptionRequired)
    else if nQty.None? || nQty.value <= 0 then Err(QuantityMustBePositive)
    else Ok(CreateProduct(cleanDesc, nQty.value))
  }

  /** The stock-out draft's check against the quantity shown in the row: a number above
      zero and no larger than that quantity. On success, the amount to send. */
  function CheckStockOut(draft: string, stock: int): (r: Result<int, string>)
    ensures r.Ok? <==> ToNumber(draft).Some? && 0 < ToNumber(draft).value <= stock
    ensures r.Ok? ==> ToNumber(draft) == Some(r.value)
    ensures !(ToNumber(draft).Some? && ToNumber(draft).value > 0) ==> r == Err(StockOutMustBePositive)
    ensures ToNumber(draft).Some? && ToNumber(draft).value > 0 && ToNumber(draft).value > stock ==> r == Err(StockOutExceedsStock)
  {
    var n := ToNumber(draft);
    if n.None? || n.value <= 0 then Err(StockOutMustBePositive)
    else if n.value > stock then Err(StockOutExceedsStock)
    else Ok(n.value)
  }

  /** A described product whose quantity is typed as a positive numeral passes the create
      check, and the request carries that very number. */
  lemma CreateAcceptsPositiveNumerals(desc: string, n: nat)
    requires Trim(desc) != [] && n >= 1
    ensures CheckCreate(desc, Decimal(n)) == Ok(CreateProduct(Trim(desc), n))
  {
    ToNumberOfDecimal(n);
  }

  /** A quantity typed as zero never passes the create check, whatever the description. */
  lemma CreateRejectsZero(desc: string)
    ensures CheckCreate(desc, "0").Err?
  {
    ToNumberOfDecimal(0);
    assert Decimal(0) == "0";
  }

  /** A quantity typed as a negative numeral never passes the create check. */
  lemma CreateRejectsNegative(desc: string, n: nat)
    ensures CheckCreate(desc, "-" + Decimal(n)).Err?
  {
    ToNumberOfNegativeDecimal(n);
  }

/** A quantity typed with a letter in it, such as "abc" or "5kg", is refused with the
      quantity message once the description is filled in. */
  lemma CreateRejectsLetters(desc: string, qty: string, k: int)
    requires Trim(desc) != [] && 0 <= k < |qty| && IsLetter(qty[k])
    ensures CheckCreate(desc, qty) == Err(QuantityMustBePositive)
  {
    LetterIsNotANumber(qty, k);
  }

    /** A draft naming an amount between one and the stock shown passes; one naming more
      than the stock is refused with the stock message. */
  lemma StockOutCheckOfNumerals(n: nat, stock: int)
    requires n >= 1
    ensures n <= stock ==> CheckStockOut(Decimal(n), stock) == Ok(n)
    ensures n > stock ==> CheckStockOut(Decimal(n), stock) == Err(StockOutExceedsStock)
  {
    ToNumberOfDecimal(n);
  }

  // ---------------------------------------------------------------------------
  // Pure parts of the state machine

  /** `toggleSortDir`'s updater. */
  function FlippedDir(d: SortDir): (r: SortDir)
    ensures r != d
  {
    if d == Asc then Desc else Asc
  }

  lemma ReverseReverse(s: seq<Item>)
    ensures Reverse(Reverse(s)) == s
  {
  }

  /** With distinct ids, flipping the direction shows the same rows in exactly the
      opposite order. */
  lemma FlippingReversesView(items: Listing, key: SortKey, dir: SortDir)
    requires items.Array? && DistinctIds(items.elements)
    ensures SortedItems(items, key, FlippedDir(dir)) == Reverse(SortedItems(items, key, dir))
  {
    SortDescIsReverseOfAsc(items.elements, key);
    if dir == Desc {
      ReverseReverse(Sort(items.elements, key, Asc));
    }
  }

  /** The state after `load` settles: on success `items` is replaced wholesale by the data
      (no rows when the body is null) and `msg` is empty; on failure `items` is kept and
      `msg` holds the error; `loading` is false either way and nothing else moves. */
  function Reloaded(st: PageState, reply: Reply<Option<Listing>>): (r: PageState)
    ensures !r.loading
    ensures reply.Done? ==> r.msg == "" && r.items == (if reply.body.Some? then reply.body.value else Array([]))
    ensures reply.Failed? ==> r.msg == reply.message && r.items == st.items
    ensures r.(items := st.items, msg := st.msg, loading := st.loading) == st
  {
    match reply
    case Done(data) => st.(items := if data.Some? then data.value else Array([]), msg := "", loading := false)
    case Failed(message) => st.(msg := message, loading := false)
  }

  /** The render guard for the inline stock-out editor of row `p`. */
  predicate IsEditingRow(p: Item, stockOutId: Option<int>) {
    stockOutId == Some(p.id) && !p.deleted
  }

  /** With distinct ids, at most one row shows the stock-out editor. */
  lemma AtMostOneRowEditing(rows: seq<Item>, stockOutId: Option<int>)
    requires DistinctIds(rows)
    ensures forall i, j ::
              (0 <= i < |rows| && 0 <= j < |rows| &&
               IsEditingRow(rows[i], stockOutId) && IsEditingRow(rows[j], stockOutId)) ==> i == j
  {
  }

  // ---------------------------------------------------------------------------
  // The page

  class ProductsPage {
    var q: string
    var status: string
    var items: Listing
    var msg: string
    var loading: bool
    var desc: string
    var qty: string
    var sortBy: SortKey
    var sortDir: SortDir
    var stockOutId: Option<int>
    var stockOutQty: string

    function State(): PageState
      reads this
    {
      PageState(q, status, items, msg, loading, desc, qty, sortBy, sortDir, stockOutId, stockOutQty)
    }

    /** The stock-out session is either closed with no draft, or open on one product id:
        the draft input exists only inside an open session. */
    ghost predicate Valid()
      reads this
    {
      stockOutId == None ==> stockOutQty == ""
    }

    /** The rows as displayed. */
    function View(): (r: seq<Item>)
      reads this
      ensures items.NotArray? ==> r == []
      ensures items.Array? ==> multiset(r) == multiset(items.elements) && Sorted(r, sortBy, sortDir)
    {
      SortedItems(items, sortBy, sortDir)
    }

    /** The page as first rendered; the mount effect then runs `Load`. */
    constructor()
      ensures State() == Initial && Valid()
    {
      q, status, items, msg, loading := "", "ACTIVE", Array([]), "", false;
      desc, qty, sortBy, sortDir := "", "", ById, Asc;
      stockOutId, stockOutQty := None, "";
    }

    /** `load`: one list request with the current filter, then `Reloaded`. */
    method Load(reply: Reply<Option<Listing>>) returns (sent: seq<Request>)
      requires Valid()
      modifies this
      ensures Valid()
      ensures sent == [ListProducts(old(q), old(status))]
      ensures State() == Reloaded(old(State()), reply)
    {
      msg := "";
      loading := true;
      sent := [ListProducts(q, status)];
      match reply {
        case Done(data) =>
          items := if data.Some? then data.value else Array([]);
        case Failed(message) =>
          msg := message;
      }
      loading := false;
    }

    /** `create`: a failed check only sets its message; otherwise the product is posted,
        and on success the form is cleared and the list reloaded. */
    method Create(postReply: Reply<()>, listReply: Reply<Option<Listing>>) returns (sent: seq<Request>)
      requires Valid()
      modifies this
      ensures Valid()
      ensures var c := CheckCreate(old(desc), old(qty));
        c.Err? ==> sent == [] && State() == old(State()).(msg := c.error)
      ensures var c := CheckCreate(old(desc), old(qty));
        c.Ok? && postReply.Failed? ==>
          sent == [c.value] &&
          State() == old(State()).(msg := postReply.message, loading := false)
      ensures var c := CheckCreate(old(desc), old(qty));
        c.Ok? && postReply.Done? ==>
          sent == [c.value, ListProducts(old(q), old(status))] &&
          State() == Reloaded(old(State()).(desc := "", qty := ""), listReply)
    {
      msg := "";
      var check := CheckCreate(desc, qty);
      if check.Err? {
        msg := check.error;
        return [];
      }
      sent := PostCreate(check.value, postReply, listReply);
    }

    /** The part of `create` past its checks: `request` is posted; on success the form is
        cleared and the list reloaded. */
    method PostCreate(request: Request, postReply: Reply<()>, listReply: Reply<Option<Listing>>) returns (sent: seq<Request>)
      requires Valid()
      modifies this
      ensures Valid()
      ensures postReply.Failed? ==>
        sent == [request] && State() == old(State()).(msg := postReply.message, loading := false)
      ensures postReply.Done? ==>
        sent == [request, ListProducts(old(q), old(status))] &&
        State() == Reloaded(old(State()).(desc := "", qty := ""), listReply)
    {
      loading := true;
      sent := [request];
      if postReply.Failed? {
        msg := postReply.message;
      } else {
        desc := "";
        qty := "";
        var reload := Load(listReply);
        sent := sent + reload;
      }
      loading := false;
    }

    /** `softDelete`: a failed delete propagates, so only `loading` is reset; a successful
        one closes the stock-out session exactly when it is on this product, then reloads. */
    method SoftDelete(id: int, deleteReply: Reply<()>, listReply: Reply<Option<Listing>>) returns (sent: seq<Request>)
      requires Valid()
      modifies this
      ensures Valid()
      ensures deleteReply.Failed? ==>
        sent == [DeleteProduct(id)] && State() == old(State()).(loading := false)
      ensures deleteReply.Done? && old(stockOutId) == Some(id) ==>
        sent == [DeleteProduct(id), ListProducts(old(q), old(status))] &&
        State() == Reloaded(old(State()).(stockOutId := None, stockOutQty := ""), listReply)
      ensures deleteReply.Done? && old(stockOutId) != Some(id) ==>
        sent == [DeleteProduct(id), ListProducts(old(q), old(status))] &&
        State() == Reloaded(old(State()), listReply)
    {
      loading := true;
      sent := [DeleteProduct(id)];
      if deleteReply.Done? {
        if stockOutId == Some(id) {
          stockOutId := None;
          stockOutQty := "";
        }
        var reload := Load(listReply);
        sent := sent + reload;
      }
      loading := false;
    }

    /** `restore`: a failed restore propagates, so only `loading` is reset; a successful
        one reloads. */
    method Restore(id: int, restoreReply: Reply<()>, listReply: Reply<Option<Listing>>) returns (sent: seq<Request>)
      requires Valid()
      modifies this
      ensures Valid()
      ensures restoreReply.Failed? ==>
        sent == [RestoreProduct(id)] && State() == old(State()).(loading := false)
      ensures restoreReply.Done? ==>
        sent == [RestoreProduct(id), ListProducts(old(q), old(status))] &&
        State() == Reloaded(old(State()), listReply)
    {
      loading := true;
      sent := [RestoreProduct(id)];
      if restoreReply.Done? {
        var reload := Load(listReply);
        sent := sent + reload;
      }
      loading := false;
    }

    /** `openStockOut`: the session moves to product `id` with an empty draft, replacing
        any session open on another row. */
    method OpenStockOut(id: int)
      modifies this
      ensures Valid()
      ensures State() == old(State()).(msg := "", stockOutId := Some(id), stockOutQty := "")
    {
      msg := "";
      stockOutId := Some(id);
      stockOutQty := "";
    }

    /** `cancelStockOut`: the session is closed and its draft dropped. */
    method CancelStockOut()
      modifies this
      ensures Valid()
      ensures State() == old(State()).(stockOutId := None, stockOutQty := "")
    {
      stockOutId := None;
      stockOutQty := "";
    }

    /** `confirmStockOut`: a failed check against the row's quantity only sets its
        message; otherwise the amount is posted, and on success the session is closed
        and the list reloaded. */
    method ConfirmStockOut(product: Item, postReply: Reply<()>, listReply: Reply<Option<Listing>>) returns (sent: seq<Request>)
      requires Valid()
      modifies this
      ensures Valid()
      ensures var c := CheckStockOut(old(stockOutQty), product.quantity);
        c.Err? ==> sent == [] && State() == old(State()).(msg := c.error)
      ensures var c := CheckStockOut(old(stockOutQty), product.quantity);
        c.Ok? && postReply.Failed? ==>
          sent == [StockOutProduct(product.id, c.value)] &&
          State() == old(State()).(msg := postReply.message, loading := false)
      ensures var c := CheckStockOut(old(stockOutQty), product.quantity);
        c.Ok? && postReply.Done? ==>
          sent == [StockOutProduct(product.id, c.value), ListProducts(old(q), old(status))] &&
          State() == Reloaded(old(State()).(stockOutId := None, stockOutQty := ""), listReply)
    {
      msg := "";
      var check := CheckStockOut(stockOutQty, product.quantity);
      if check.Err? {
        msg := check.error;
        return [];
      }
      sent := PostStockOut(product.id, check.value, postReply, listReply);
    }

    /** The part of `confirmStockOut` past its checks: the amount is posted; on success
        the session is closed and the list reloaded. */
    method PostStockOut(id: int, amount: int, postReply: Reply<()>, listReply: Reply<Option<Listing>>) returns (sent: seq<Request>)
      requires Valid()
      modifies this
      ensures Valid()
      ensures postReply.Failed? ==>
        sent == [StockOutProduct(id, amount)] && State() == old(State()).(msg := postReply.message, loading := false)
      ensures postReply.Done? ==>
        sent == [StockOutProduct(id, amount), ListProducts(old(q), old(status))] &&
        State() == Reloaded(old(State()).(stockOutId := None, stockOutQty := ""), listReply)
    {
      loading := true;
      sent := [StockOutProduct(id, amount)];
      if postReply.Failed? {
        msg := postReply.message;
      } else {
        CancelStockOut();
        var reload := Load(listReply);
        sent := sent + reload;
      }
      loading := false;
    }

    /** `toggleSortDir`. */
    method ToggleSortDir()
      requires Valid()
      modifies this
      ensures Valid()
      ensures State() == old(State()).(sortDir := FlippedDir(old(sortDir)))
    {
      sortDir := FlippedDir(sortDir);
    }

    /** Typing in the search box; no request follows until `Load`. */
    method SetQuery(text: string)
      requires Valid()
      modifies this
      ensures Valid()
      ensures State() == old(State()).(q := text)
    {
      q := text;
    }

    /** Choosing a status; the effect on `status` reloads only when the value changed. */
    method SetStatus(value: string, listReply: Reply<Option<Listing>>) returns (sent: seq<Request>)
      requires Valid()
      modifies this
      ensures Valid()
      ensures value == old(status) ==> sent == [] && State() == old(State())
      ensures value != old(status) ==>
        sent == [ListProducts(old(q), value)] && State() == Reloaded(old(State()).(status := value), listReply)
    {
      if value == status {
        return [];
      }
      status := value;
      sent := Load(listReply);
    }

    method SetSortBy(key: SortKey)
      requires Valid()
      modifies this
      ensures Valid()
      ensures State() == old(State()).(sortBy := key)
    {
      sortBy := key;
    }

    method SetDescription(text: string)
      requires Valid()
      modifies this
      ensures Valid()
      ensures State() == old(State()).(desc := text)
    {
      desc := text;
    }

    method SetQuantity(text: string)
      requires Valid()
      modifies this
      ensures Valid()
      ensures State() == old(State()).(qty := text)
    {
      qty := text;
    }

    /** Typing in the draft input, which is rendered only on the editing row. */
    method SetStockOutQty(text: string)
      requires stockOutId.Some?
      requires Valid()
      modifies this
      ensures Valid()
      ensures State() == old(State()).(stockOutQty := text)
    {
      stockOutQty := text;
    }
  }
}
