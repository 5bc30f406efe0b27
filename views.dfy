/**
 * The state-changing parts of the views in apps/views.py: emptying the
 * cart back into stock, toggling a favourite, the login gate in front of
 * the cart helper, and the related-product picker of the product pages.
 * Requests are reduced to who is logged in and the route's arguments;
 * responses to where the browser is sent.
 */
module Views {
  import opened Models
  import opened Utils

  /** Where a view sends the browser; `ServerError` is an uncaught `DoesNotExist`. */
  datatype Response = ToReferer | ToLogin | ToMyCart | ServerError

  /** Stock after every line's quantity has gone back to its product. */
  function Restocked(stock: map<ProductId, int>, lines: map<ProductId, int>): map<ProductId, int> {
    map p | p in stock :: stock[p] + LineQuantity(lines, p)
  }

  /** Returning one more line to stock changes one product's entry. */
  lemma RestockedOneMore(stock: map<ProductId, int>, lines: map<ProductId, int>, p: ProductId)
    requires p in lines && p in stock
    ensures var before := Restocked(stock, lines - {p});
      Restocked(stock, lines) == before[p := before[p] + lines[p]]
  {
    var before := Restocked(stock, lines - {p});
    var after := Restocked(stock, lines);
    var expected := before[p := before[p] + lines[p]];
    assert after.Keys == expected.Keys;
    forall q | q in after ensures after[q] == expected[q] {
      if q != p {
        assert LineQuantity(lines, q) == LineQuantity(lines - {p}, q);
      }
    }
  }

  /** Returning one more line adds exactly its quantity to the stock total. */
  lemma RestockedOneMoreTotal(stock: map<ProductId, int>, lines: map<ProductId, int>, p: ProductId)
    requires p in lines && p in stock
    ensures TotalQuantity(Restocked(stock, lines)) == TotalQuantity(Restocked(stock, lines - {p})) + lines[p]
  {
    var before := Restocked(stock, lines - {p});
    RestockedOneMore(stock, lines, p);
    TotalQuantityUpdate(before, p, before[p] + lines[p]);
  }

  /** Returning the lines to stock conserves the units held by shelves and cart together. */
  lemma {:induction false} RestockedConserves(stock: map<ProductId, int>, lines: map<ProductId, int>)
    requires lines.Keys <= stock.Keys
    ensures TotalQuantity(Restocked(stock, lines)) == TotalQuantity(stock) + TotalQuantity(lines)
    decreases |lines|
  {
    if lines != map[] {
      var p :| p in lines;
      var rest := lines - {p};
      assert |rest| == |lines| - 1;
      RestockedConserves(stock, rest);
      RestockedOneMoreTotal(stock, lines, p);
      TotalQuantityRemove(lines, p);
    } else {
      RestockedNothing(stock);
    }
  }

  lemma RestockedNothing(stock: map<ProductId, int>)
    ensures Restocked(stock, map[]) == stock
  {
  }

  /**
   * `clear_cart`: deletes each line of the customer's order and adds its
   * quantity back to the product's stock.
   */
  method ClearCart(db: Store) returns (resp: Response)
    requires db.lines.Keys <= db.stock.Keys
    modifies db
    ensures resp == ToMyCart
    ensures db.lines == map[]
    ensures db.stock == Restocked(old(db.stock), old(db.lines))
    ensures TotalQuantity(db.stock) == TotalQuantity(old(db.stock)) + TotalQuantity(old(db.lines))
    ensures db.favorites == old(db.favorites)
  {
    var cart := new CartForAuthenticatedUser(db, None, None);
    var orderProducts := db.lines.Keys;
    while orderProducts != {}
      invariant orderProducts == db.lines.Keys
      invariant forall p :: p in db.lines ==> p in old(db.lines) && db.lines[p] == old(db.lines)[p]
      invariant db.stock.Keys == old(db.stock).Keys
      invariant forall p :: p in db.stock ==>
        db.stock[p] == old(db.stock)[p] + LineQuantity(old(db.lines), p) - LineQuantity(db.lines, p)
      invariant db.favorites == old(db.favorites)
      decreases orderProducts
    {
      var product :| product in orderProducts;
      var quantity := db.lines[product];
      db.lines := db.lines - {product};
      db.stock := db.stock[product := db.stock[product] + quantity];
      orderProducts := orderProducts - {product};
    }
    assert db.stock == Restocked(old(db.stock), old(db.lines));
    RestockedConserves(old(db.stock), old(db.lines));
    resp := ToMyCart;
  }

  /** The favourites table after `user` toggles `product`. */
  function ToggleFavorite(favorites: set<Favorite>, user: UserId, product: ProductId): (r: set<Favorite>)
    ensures Favorite(user, product) in r <==> Favorite(user, product) !in favorites
    ensures forall f :: f != Favorite(user, product) ==> (f in r <==> f in favorites)
  {
    var f := Favorite(user, product);
    if f in favorites then favorites - {f} else favorites + {f}
  }

  /** Toggling twice restores the table. */
  lemma ToggleTwice(favorites: set<Favorite>, user: UserId, product: ProductId)
    ensures ToggleFavorite(ToggleFavorite(favorites, user, product), user, product) == favorites
  {
  }

  /** A toggle never touches another user's favourites. */
  lemma ToggleKeepsOtherUsers(favorites: set<Favorite>, user: UserId, product: ProductId, other: UserId)
    requires other != user
    ensures (set f | f in ToggleFavorite(favorites, user, product) && f.user == other)
         == (set f | f in favorites && f.user == other)
  {
  }

  /**
   * `save_favorite_product`: a logged-in user's request adds the product
   * to their favourites when it is not there and removes it when it is;
   * anyone else is sent to the login page and nothing changes.
   */
  method SaveFavoriteProduct(db: Store, user: Option<UserId>, product: ProductId) returns (resp: Response)
    modifies db
    ensures user.None? ==> resp == ToLogin && db.favorites == old(db.favorites)
    ensures user.Some? && product !in db.stock ==> resp == ServerError && db.favorites == old(db.favorites)
    ensures user.Some? && product in db.stock ==>
      resp == ToReferer && db.favorites == ToggleFavorite(old(db.favorites), user.value, product)
    ensures db.State() == old(db.State())
  {
    if user.None? {
      return ToLogin;
    }
    if product !in db.stock {
      return ServerError;
    }
    var f := Favorite(user.value, product);
    if f !in db.favorites {
      db.favorites := db.favorites + {f};
    } else {
      db.favorites := db.favorites - {f};
    }
    resp := ToReferer;
  }

  /**
   * `to_cart_view`: a logged-in user's request goes to the cart helper;
   * anyone else is sent to the login page and nothing changes.
   */
  method ToCartView(db: Store, user: Option<UserId>, pk: ProductId, action: string) returns (resp: Response)
    modifies db
    ensures user.None? ==> resp == ToLogin && db.State() == old(db.State())
    ensures user.Some? ==>
      db.State() == (if RequestsChange(Some(pk), Some(action))
                     then CartStep(old(db.State()), pk, action).GetOr(old(db.State()))
                     else old(db.State()))
    ensures user.Some? ==>
      resp == (if RequestsChange(Some(pk), Some(action)) && pk !in old(db.stock) then ServerError else ToReferer)
    ensures db.favorites == old(db.favorites)
  {
    if user.None? {
      return ToLogin;
    }
    // DoesNotExist escapes the helper's constructor and becomes the response
    resp := if RequestsChange(Some(pk), Some(action)) && pk !in db.stock then ServerError else ToReferer;
    var userCart := new CartForAuthenticatedUser(db, Some(pk), Some(action));
  }

  /** Every draw is an index into `products`. */
  predicate InRange(products: seq<Product>, draws: seq<nat>) {
    forall k :: 0 <= k < |draws| ==> draws[k] < |products|
  }

  /**
   * The products the picker keeps for a sequence of drawn indices: a drawn
   * product is appended unless a product with its key is already kept or
   * it is the current product (model instances compare by primary key).
   */
  function Kept(products: seq<Product>, draws: seq<nat>, current: Product): seq<Product>
    requires InRange(products, draws)
    decreases |draws|
  {
    if draws == [] then []
    else
      var data := Kept(products, draws[..|draws| - 1], current);
      var p := products[draws[|draws| - 1]];
      if (forall q | q in data :: q.id != p.id) && current.id != p.id then data + [p] else data
  }

  /**
   * What the picker keeps: at most one product per draw, no key twice, never
   * the current product, only drawn products, and every drawn product other
   * than the current one.
   */
  lemma {:induction false} KeptProperties(products: seq<Product>, draws: seq<nat>, current: Product)
    requires InRange(products, draws)
    requires forall k :: 0 <= k < |products| ==> products[k].category == current.category
    ensures var data := Kept(products, draws, current);
      && |data| <= |draws|
      && (forall i, j :: 0 <= i < j < |data| ==> data[i].id != data[j].id)
      && (forall p :: p in data ==> p.id != current.id && exists k :: 0 <= k < |draws| && products[draws[k]] == p)
      && (forall k :: 0 <= k < |draws| && products[draws[k]].id != current.id ==> products[draws[k]] in data)
    decreases |draws|
  {
    if draws != [] {
      var prefix := draws[..|draws| - 1];
      KeptProperties(products, prefix, current);
      var data := Kept(products, prefix, current);
      var p := products[draws[|draws| - 1]];
      var result := Kept(products, draws, current);
      forall q | q in result ensures q.id != current.id && exists k :: 0 <= k < |draws| && products[draws[k]] == q {
        if q in data {
          var k :| 0 <= k < |prefix| && products[prefix[k]] == q;
          assert products[draws[k]] == q;
        } else {
          assert products[draws[|draws| - 1]] == q;
        }
      }
      forall k | 0 <= k < |draws| && products[draws[k]].id != current.id ensures products[draws[k]] in result {
        if k < |prefix| {
          assert draws[k] == prefix[k];
        } else if !(forall q | q in data :: q.id != p.id) {
          var q :| q in data && q.id == p.id;
          var j :| 0 <= j < |prefix| && products[prefix[j]] == q;
          assert q.category == p.category;
        }
      }
    }
  }

  /**
   * The related-product picker of `ProductDetail.get_context_data` and
   * `product_by_color`: three draws of a random index into the products of
   * the current product's category, keeping a draw that is neither already
   * kept nor the current product. The random index is left arbitrary and
   * returned in `draws`.
   */
  method PickRelated(catalog: seq<Product>, product: Product) returns (data: seq<Product>, draws: seq<nat>)
    requires product in catalog
    ensures var products := ProductsInCategory(catalog, product.category);
      && |draws| == 3 && InRange(products, draws)
      && data == Kept(products, draws, product)
    ensures |data| <= 3
    ensures forall i, j :: 0 <= i < j < |data| ==> data[i].id != data[j].id
    ensures forall p :: p in data ==> p in catalog && p.category == product.category && p.id != product.id
    ensures forall k :: 0 <= k < 3 && ProductsInCategory(catalog, product.category)[draws[k]].id != product.id ==>
      ProductsInCategory(catalog, product.category)[draws[k]] in data
  {
    var products := ProductsInCategory(catalog, product.category);
    // the current product is in its own category, so randint(0, len(products) - 1) has a value to draw
    assert product in products;
    data, draws := [], [];
    for i := 0 to 3
      invariant |draws| == i && InRange(products, draws)
      invariant data == Kept(products, draws, product)
    {
      var randomIndex :| 0 <= randomIndex < |products|;
      var p := products[randomIndex];
      ghost var before := draws;
      draws := draws + [randomIndex];
      assert draws[..|draws| - 1] == before;
      if (forall q | q in data :: q.id != p.id) && product.id != p.id {
        data := data + [p];
      }
    }
    assert forall k :: 0 <= k < |products| ==> products[k].category == product.category by {
      forall k | 0 <= k < |products| ensures products[k].category == product.category {
        assert products[k] in products;
      }
    }
    KeptProperties(products, draws, product);
    forall p | p in data ensures p in catalog {
      var k :| 0 <= k < |draws| && products[draws[k]] == p;
      assert products[draws[k]] in products;
    }
  }
}
