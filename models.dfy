/**
 * The database records the shop logic works on (apps/models.py), with the
 * ORM rows turned into in-memory maps: a product's stock is `stock[id]`,
 * the requesting customer's open order is a map from product to the line
 * quantity, and the favourites table is a set of (user, product) pairs.
 */
module Models {

  type ProductId = nat
  type UserId = nat
  type CategoryId = nat

  /** `Product.quantity` is declared with `default=0`: a new product is out of stock. */
  const DefaultStock: int := 0

  /** `OrderProduct.quantity` is declared with `default=0`: a new cart line holds nothing. */
  const DefaultLineQuantity: int := 0

  /** The fields of a product row that the shop logic looks at. */
  datatype Product = Product(id: ProductId, category: CategoryId)

  /** A row of the favourites table. */
  datatype Favorite = Favorite(user: UserId, product: ProductId)

  /** Failures the ORM raises that the modelled code does not catch. */
  datatype OrmError = DoesNotExist

  datatype Result<T> = Ok(value: T) | Err(error: OrmError) {
    /** The value on success, `default` when the operation raised. */
    function GetOr(default: T): T {
      if Ok? then value else default
    }
  }

  datatype Option<T> = None | Some(value: T)

  /** Stock per product and the line quantities of the customer's order. */
  datatype Db = Db(stock: map<ProductId, int>, lines: map<ProductId, int>)

  /** Every line refers to an existing product, lines are positive, stock is not negative. */
  ghost predicate Consistent(db: Db) {
    && db.lines.Keys <= db.stock.Keys
    && (forall p :: p in db.lines ==> db.lines[p] > 0)
    && (forall p :: p in db.stock ==> db.stock[p] >= 0)
  }

  /**
   * The quantity of `pk`'s line as `get_or_create` sees it: the stored one,
   * or the field default for a line that has to be created.
   */
  function LineQuantity(lines: map<ProductId, int>, pk: ProductId): int {
    if pk in lines then lines[pk] else DefaultLineQuantity
  }

  lemma {:induction false} Minimum(s: set<ProductId>) returns (k: ProductId)
    requires s != {}
    ensures k in s && forall j :: j in s ==> k <= j
    decreases |s|
  {
    var x :| x in s;
    var rest := s - {x};
    if rest == {} {
      k := x;
      forall j | j in s ensures k <= j {
        assert j !in rest;
      }
    } else {
      var m := Minimum(rest);
      k := if x < m then x else m;
      forall j | j in s ensures k <= j {
        if j != x { assert j in rest; }
      }
    }
  }

  lemma MinimumExists(s: set<ProductId>)
    requires s != {}
    ensures exists k :: k in s && forall j :: j in s ==> k <= j
  {
    var k := Minimum(s);
  }

  /** The smallest key in use; summing in key order makes the summation deterministic. */
  function MinKey(s: set<ProductId>): (k: ProductId)
    requires s != {}
    ensures k in s && forall j :: j in s ==> k <= j
  {
    MinimumExists(s);
    var k :| k in s && forall j :: j in s ==> k <= j; k
  }

  /**
   * `Order.get_cart_total_quantity`: the sum of the quantities of the
   * order's lines. The same sum over the stock map gives the units on the
   * shelves.
   */
  function TotalQuantity(m: map<ProductId, int>): (t: int)
    ensures m == map[] ==> t == 0
    decreases |m|
  {
    if m == map[] then 0
    else
      var k := MinKey(m.Keys);
      assert |m - {k}| == |m| - 1;
      m[k] + TotalQuantity(m - {k})
  }

  /** The sum can be split at any key, not just the one the definition peels off. */
  lemma {:induction false} TotalQuantityRemove(m: map<ProductId, int>, p: ProductId)
    requires p in m
    ensures TotalQuantity(m) == m[p] + TotalQuantity(m - {p})
    decreases |m|
  {
    var k := MinKey(m.Keys);
    if k != p {
      var rest := m - {k};
      var without := m - {p};
      assert |rest| == |m| - 1;
      assert TotalQuantity(m) == m[k] + TotalQuantity(rest);
      TotalQuantityRemove(rest, p);
      assert k in without.Keys;
      var k' := MinKey(without.Keys);
      assert k' == k;
      assert without - {k} == rest - {p};
      assert TotalQuantity(without) == without[k] + TotalQuantity(without - {k});
    }
  }

  /** Sums of non-negative entries are non-negative; positive entries add up to at least their number. */
  lemma {:induction false} TotalQuantityBounds(m: map<ProductId, int>)
    ensures (forall p :: p in m ==> m[p] >= 0) ==> TotalQuantity(m) >= 0
    ensures (forall p :: p in m ==> m[p] > 0) ==> TotalQuantity(m) >= |m|
    decreases |m|
  {
    if m != map[] {
      var k := MinKey(m.Keys);
      assert |m - {k}| == |m| - 1;
      TotalQuantityBounds(m - {k});
    }
  }

  /** Changing one entry by `d` changes the sum by exactly `d`. */
  lemma TotalQuantityUpdate(m: map<ProductId, int>, p: ProductId, v: int)
    ensures TotalQuantity(m[p := v]) == TotalQuantity(m) - LineQuantity(m, p) + v
  {
    var m' := m[p := v];
    TotalQuantityRemove(m', p);
    assert m' - {p} == m - {p};
    if p in m {
      TotalQuantityRemove(m, p);
    } else {
      assert m - {p} == m;
    }
  }

  /** Deleting an entry takes its value out of the sum. */
  lemma TotalQuantityDelete(m: map<ProductId, int>, p: ProductId)
    ensures TotalQuantity(m - {p}) == TotalQuantity(m) - LineQuantity(m, p)
  {
    if p in m {
      TotalQuantityRemove(m, p);
    } else {
      assert m - {p} == m;
    }
  }

  /**
   * `Product.objects.filter(category=c)`: the catalogue's products of
   * category `c`, in query order.
   */
  function ProductsInCategory(catalog: seq<Product>, c: CategoryId): (r: seq<Product>)
    ensures forall x :: x in r ==> x in catalog && x.category == c
    ensures forall x :: x in catalog && x.category == c ==> x in r
    ensures |r| <= |catalog|
  {
    if catalog == [] then []
    else
      var rest := ProductsInCategory(catalog[1..], c);
      if catalog[0].category == c then [catalog[0]] + rest else rest
  }

  /**
   * The database tables the shop logic changes: stock per product, the
   * lines of the requesting customer's open order, the favourites table.
   */
  class Store {
    var stock: map<ProductId, int>
    var lines: map<ProductId, int>
    var favorites: set<Favorite>

    /** The product and order tables as a value. */
    function State(): Db
      reads this
    {
      Db(stock, lines)
    }

    constructor (stock: map<ProductId, int>, lines: map<ProductId, int>, favorites: set<Favorite>)
      ensures this.stock == stock && this.lines == lines && this.favorites == favorites
    {
      this.stock := stock;
      this.lines := lines;
      this.favorites := favorites;
    }
  }
}
