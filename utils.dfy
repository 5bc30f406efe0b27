/**
 * The cart helper of apps/utils.py. Each "add" or "delete" request moves
 * one unit between a product's stock and the customer's cart line; lines
 * that drop to zero or below are deleted.
 */
module Utils {
  import opened Models

  /** `add_or_delete` takes its increment branch: the action is "add" and the product is in stock. */
  predicate Increments(db: Db, pk: ProductId, action: string)
    requires pk in db.stock
  {
    action == "add" && db.stock[pk] > 0
  }

  /**
   * The effect of `add_or_delete(pk, action)` on the product and order
   * tables. A missing product raises `DoesNotExist` before anything is
   * written. Otherwise the line is fetched or created at its default
   * quantity, one unit moves between stock and line, and a line left at
   * zero or below is deleted.
   */
  function CartStep(db: Db, pk: ProductId, action: string): (r: Result<Db>)
    ensures r.Err? <==> pk !in db.stock
    ensures r.Ok? ==> r.value.stock.Keys == db.stock.Keys
    // increment: stock falls by one, the line (created at the default if need be) rises by one
    ensures r.Ok? && Increments(db, pk, action) ==>
      && r.value.stock[pk] == db.stock[pk] - 1
      && (pk in r.value.lines <==> LineQuantity(db.lines, pk) >= 0)
      && (pk in r.value.lines ==> r.value.lines[pk] == LineQuantity(db.lines, pk) + 1)
    // the first "add" of a product in stock creates its line at the default 0 and raises it to 1
    ensures r.Ok? && pk !in db.lines && Increments(db, pk, action) ==> pk in r.value.lines && r.value.lines[pk] == 1
    // every other request, "add" on an out-of-stock product included: stock rises by one, the line falls by one
    ensures r.Ok? && !Increments(db, pk, action) ==>
      && r.value.stock[pk] == db.stock[pk] + 1
      && (pk in r.value.lines <==> LineQuantity(db.lines, pk) > 1)
      && (pk in r.value.lines ==> r.value.lines[pk] == db.lines[pk] - 1)
    // a request for a product with no line that decrements leaves no line but one more unit in stock
    ensures r.Ok? && pk !in db.lines && !Increments(db, pk, action) ==>
      r.value.stock[pk] == db.stock[pk] + 1 && pk !in r.value.lines
    // no line of the product is left at zero or below
    ensures r.Ok? && pk in r.value.lines ==> r.value.lines[pk] > 0
    // a line that held at least one unit keeps stock plus line constant
    ensures r.Ok? && pk in db.lines && db.lines[pk] >= 1 ==>
      r.value.stock[pk] + LineQuantity(r.value.lines, pk) == db.stock[pk] + db.lines[pk]
    // stock that was not negative stays not negative
    ensures r.Ok? && db.stock[pk] >= 0 ==> r.value.stock[pk] >= 0
    // nothing but the product's own stock and line changes
    ensures r.Ok? ==> forall q :: q in db.stock && q != pk ==> r.value.stock[q] == db.stock[q]
    ensures r.Ok? ==> forall q :: q != pk ==> (q in r.value.lines <==> q in db.lines)
    ensures r.Ok? ==> forall q :: q in db.lines && q != pk ==> r.value.lines[q] == db.lines[q]
  {
    if pk !in db.stock then Err(DoesNotExist)
    else
      var line := LineQuantity(db.lines, pk);
      var (line', stock') :=
        if Increments(db, pk, action) then (line + 1, db.stock[pk] - 1)
        else (line - 1, db.stock[pk] + 1);
      var lines' := db.lines[pk := line'];
      Ok(Db(db.stock[pk := stock'], if line' <= 0 then lines' - {pk} else lines'))
  }

  /** A step keeps lines pointing at products, lines positive and stock non-negative. */
  lemma CartStepPreservesConsistent(db: Db, pk: ProductId, action: string)
    requires Consistent(db)
    ensures CartStep(db, pk, action).Ok? ==> Consistent(CartStep(db, pk, action).value)
  {
  }

  /**
   * Over the whole shop, a step moves one unit between the shelves and the
   * cart, so their sum is unchanged, except that decrementing a line that
   * did not exist adds a unit to the shelves out of nothing. The cart's
   * total quantity rises by one on an increment and falls by one when an
   * existing line is decremented.
   */
  lemma CartStepTotals(db: Db, pk: ProductId, action: string)
    requires pk in db.stock && (pk in db.lines ==> db.lines[pk] > 0)
    ensures var after := CartStep(db, pk, action).value;
      && TotalQuantity(after.stock) + TotalQuantity(after.lines)
         == TotalQuantity(db.stock) + TotalQuantity(db.lines)
            + (if pk !in db.lines && !Increments(db, pk, action) then 1 else 0)
      && TotalQuantity(after.lines)
         == TotalQuantity(db.lines)
            + (if Increments(db, pk, action) then 1 else if pk in db.lines then -1 else 0)
  {
    var after := CartStep(db, pk, action).value;
    var line := LineQuantity(db.lines, pk);
    var line' := if Increments(db, pk, action) then line + 1 else line - 1;
    TotalQuantityUpdate(db.stock, pk, after.stock[pk]);
    assert after.stock == db.stock[pk := after.stock[pk]];
    var lines' := db.lines[pk := line'];
    TotalQuantityUpdate(db.lines, pk, line');
    if line' <= 0 {
      TotalQuantityDelete(lines', pk);
      assert after.lines == lines' - {pk};
    } else {
      assert after.lines == lines';
    }
  }

  /**
   * A new product starts at the default stock of zero, so "add" cannot put
   * it in the cart: the request takes the decrement branch, leaves no line
   * and raises the stock to one.
   */
  lemma AddOnNewProduct(db: Db, pk: ProductId)
    requires pk in db.stock && db.stock[pk] == DefaultStock && pk !in db.lines
    ensures CartStep(db, pk, "add").Ok?
    ensures CartStep(db, pk, "add").value.stock[pk] == 1
    ensures pk !in CartStep(db, pk, "add").value.lines
  {
  }

  /**
   * A product's first "add" while it is in stock: `get_or_create` makes
   * the line at the field default 0, and the increment leaves it at 1.
   */
  lemma FirstAddCreatesLine(db: Db, pk: ProductId)
    requires pk in db.stock && db.stock[pk] > 0 && pk !in db.lines
    ensures CartStep(db, pk, "add").Ok?
    ensures CartStep(db, pk, "add").value.lines == db.lines[pk := DefaultLineQuantity + 1]
    ensures CartStep(db, pk, "add").value.stock[pk] == db.stock[pk] - 1
  {
  }

  /** `if pk and action`: both given, and neither is 0 or the empty string. */
  predicate RequestsChange(pk: Option<ProductId>, action: Option<string>) {
    pk.Some? && pk.value != 0 && action.Some? && action.value != ""
  }

  /** What `get_cart_info` hands back, leaving out the floating-point total price. */
  datatype CartInfo = CartInfo(totalQuantity: int, lines: map<ProductId, int>)

  class CartForAuthenticatedUser {
    const db: Store

    /** `__init__`: runs `add_or_delete` only when both `pk` and `action` are given. */
    constructor (db: Store, pk: Option<ProductId>, action: Option<string>)
      modifies db
      ensures this.db == db
      ensures !RequestsChange(pk, action) ==> db.State() == old(db.State())
      ensures RequestsChange(pk, action) ==>
        db.State() == CartStep(old(db.State()), pk.value, action.value).GetOr(old(db.State()))
      ensures db.favorites == old(db.favorites)
    {
      this.db := db;
      new;
      if RequestsChange(pk, action) {
        var _ := AddOrDelete(pk.value, action.value);
      }
    }

    /** `get_cart_info`: the order's lines and their total quantity. */
    function GetCartInfo(): (info: CartInfo)
      reads db
      ensures info.lines == db.lines
      ensures info.totalQuantity == TotalQuantity(db.lines)
      ensures db.lines == map[] ==> info.totalQuantity == 0
      ensures (forall p :: p in db.lines ==> db.lines[p] > 0) ==> info.totalQuantity >= |db.lines|
    {
      TotalQuantityBounds(db.lines);
      CartInfo(TotalQuantity(db.lines), db.lines)
    }

    /** `add_or_delete`: one step of the cart, in place. */
    method AddOrDelete(pk: ProductId, action: string) returns (r: Result<()>)
      modifies db
      ensures r.Err? <==> CartStep(old(db.State()), pk, action).Err?
      ensures db.State() == CartStep(old(db.State()), pk, action).GetOr(old(db.State()))
      ensures db.favorites == old(db.favorites)
    {
      if pk !in db.stock {
        return Err(DoesNotExist);
      }
      // get_or_create: a missing line starts at the field default
      var lineQuantity := LineQuantity(db.lines, pk);
      var productQuantity := db.stock[pk];
      if action == "add" && productQuantity > 0 {
        lineQuantity := lineQuantity + 1;
        productQuantity := productQuantity - 1;
      } else {
        lineQuantity := lineQuantity - 1;
        productQuantity := productQuantity + 1;
      }
      db.stock := db.stock[pk := productQuantity];
      db.lines := db.lines[pk := lineQuantity];
      if lineQuantity <= 0 {
        db.lines := db.lines - {pk};
      }
      r := Ok(());
    }

    /** `clear`: deletes every line of the order; stock is left as it is. */
    method Clear()
      modifies db
      ensures db.lines == map[]
      ensures db.stock == old(db.stock) && db.favorites == old(db.favorites)
    {
      while db.lines != map[]
        invariant db.stock == old(db.stock) && db.favorites == old(db.favorites)
        decreases |db.lines|
      {
        var p :| p in db.lines;
        db.lines := db.lines - {p};
      }
    }
  }

  /** `get_cart_data`: builds the helper without a request to change anything and reads the cart. */
  method GetCartData(db: Store) returns (info: CartInfo)
    modifies db
    ensures db.State() == old(db.State()) && db.favorites == old(db.favorites)
    ensures info.lines == db.lines && info.totalQuantity == TotalQuantity(db.lines)
  {
    var cart := new CartForAuthenticatedUser(db, None, None);
    info := cart.GetCartInfo();
  }
}
