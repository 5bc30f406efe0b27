# Storefront cart, favourites and price formatting in Dafny

A model of the shop logic of a small Django storefront (apps/utils.py,
apps/views.py, apps/models.py, apps/templatetags/digital_tags.py), with the
database rows turned into in-memory state:

- `Models.Store` is the part of the database the logic changes. `stock` maps a
  product to `Product.quantity`. `lines` maps a product to the quantity of its
  `OrderProduct` line in the open order of the one customer being modelled.
  `favorites` is the `FavoriteProducts` table as a set of (user, product) pairs.
- `Utils.CartStep` is the effect of `CartForAuthenticatedUser.add_or_delete`
  as a function of the state. The class `Utils.CartForAuthenticatedUser`
  holds the in-place methods, and each of them is proved equal to that
  function or says what its new state is.
- `Views` holds `clear_cart`, `save_favorite_product`, the login gate of
  `to_cart_view`, and the related-product picker. The picker is one loop that
  `ProductDetail.get_context_data` (apps/views.py:131-137) and
  `product_by_color` (apps/views.py:148-154) both contain.
- `DigitalTags` holds `get_normal_price`, which is `f'{int(price):_}'` with
  underscores turned into spaces, and `get_products`, a list reversal.

The cart step has a quirk, and the model states it exactly. Every request
other than "add" on a product in stock takes the decrement branch. That
includes "add" on an out-of-stock product. The branch first creates the line
at the field default 0 if it is missing, then lowers it to -1 and deletes it.
The product's stock still rises by one. `Utils.CartStepTotals` proves that
this case is the only one in which shelves plus cart do not keep the same
number of units.

Products, users and categories are identified by natural numbers, as the
database's primary keys are. Python's `if pk and action` is modelled with
its truthiness: a primary key of 0 or an empty action counts as absent.

## Model

| member | source | states |
|---|---|---|
| Models.TotalQuantity | apps/models.py:171-175 | `get_cart_total_quantity`: an order with no lines has total quantity 0 |
| Models.TotalQuantityRemove | apps/models.py:174 | the total is the quantity of any one line plus the total of the rest, whichever line is taken out |
| Models.TotalQuantityBounds | apps/models.py:174 | the total of non-negative lines is non-negative, and positive lines add up to at least their number |
| Models.ProductsInCategory | apps/views.py:131 | `Product.objects.filter(category=c)` returns exactly the catalogue's products of category `c` |
| Utils.CartStep | apps/utils.py:32-51 | a missing product raises and changes nothing. "add" with stock > 0 lowers stock by 1 and raises the line, created at 0 if need be, by 1. Every other request, "add" at stock 0 included, raises stock by 1 and lowers the line by 1. With no line beforehand, that leaves no line and one more unit in stock. No line of the product is left at 0 or below. A line of at least 1 keeps stock plus line constant. Non-negative stock stays non-negative. All other stocks and lines are unchanged |
| Utils.CartStepPreservesConsistent | apps/utils.py:35-51 | a step keeps every line pointing at an existing product, every line positive and every stock non-negative |
| Utils.CartStepTotals | apps/utils.py:37-51 | shelves plus cart keep the same number of units, except that a decrement with no line adds one unit. The cart total rises by 1 on an increment and falls by 1 when an existing line is decremented |
| Utils.FirstAddCreatesLine | apps/models.py:184 | the first "add" of a product in stock creates its line at the default 0 and leaves it at 1, with one unit fewer in stock |
| Utils.AddOnNewProduct | apps/models.py:38 | a new product has stock 0, so "add" leaves it out of the cart and raises its stock to 1 |
| Utils.CartForAuthenticatedUser.constructor | apps/utils.py:5-10 | without both a non-zero `pk` and a non-empty `action` nothing changes; with them the state becomes `CartStep`'s |
| Utils.CartForAuthenticatedUser.GetCartInfo | apps/utils.py:14-28 | reports the order's lines and, as their total quantity, exactly the sum `TotalQuantity` of the line quantities: 0 for no lines, at least the number of lines when all are positive |
| Utils.CartForAuthenticatedUser.AddOrDelete | apps/utils.py:32-51 | the in-place update leaves exactly `CartStep`'s state, or changes nothing and reports `DoesNotExist` for a missing product |
| Utils.CartForAuthenticatedUser.Clear | apps/utils.py:55-61 | deletes every line of the order and leaves every stock and the favourites as they were |
| Utils.GetCartData | apps/utils.py:65-68 | reads the cart without changing any state |
| Views.RestockedConserves | apps/views.py:233-238 | returning every line to its product conserves the sum of stock and cart quantities |
| Views.ClearCart | apps/views.py:229-240 | afterwards the order has no lines, each product's stock has risen by exactly its deleted line's quantity, and total stock has grown by the cart's former total |
| Views.ToggleFavorite | apps/views.py:172-178 | the pair is in the result exactly when it was not in the table; every other pair is kept or left out as before |
| Views.ToggleTwice | apps/views.py:172-178 | toggling the same product twice restores the favourites table |
| Views.ToggleKeepsOtherUsers | apps/views.py:170-174 | other users' favourites are unchanged by a toggle |
| Views.SaveFavoriteProduct | apps/views.py:166-185 | an anonymous request goes to login and changes nothing; a missing product changes nothing; otherwise the table becomes `ToggleFavorite`'s; stock and cart never change |
| Views.ToCartView | apps/views.py:203-210 | an anonymous request goes to login and changes nothing; a logged-in request has exactly the cart helper's effect |
| Views.KeptProperties | apps/views.py:132-136 | the kept products number at most one per draw, carry no key twice, never include the current product, are all drawn products, and include every drawn product other than the current one |
| Views.PickRelated | apps/views.py:131-137 | makes three draws, each an index in range because the current product is in its own category, and keeps exactly `Kept` of those draws: at most 3 products, none twice, never the current product, all from its category, and every drawn product other than the current one |
| DigitalTags.Reverse | apps/templatetags/digital_tags.py:12 | `[::-1]` keeps the length and puts element i of the input at position n-1-i |
| DigitalTags.GetProducts | apps/templatetags/digital_tags.py:11-13 | the category's products in reverse query order, exactly the catalogue's products of that category |
| DigitalTags.DecimalDigitsRoundTrip | apps/templatetags/digital_tags.py:33 | the decimal digits the price is built from denote the number |
| DigitalTags.NormalPrice | apps/templatetags/digital_tags.py:32-33 | the result is non-empty and starts with a minus sign exactly when the number is negative |
| DigitalTags.NormalPriceShape | apps/templatetags/digital_tags.py:33 | replacing the underscores of the PEP 515 format by spaces gives the sign followed by the digits grouped with spaces |
| DigitalTags.NormalPriceDigits | apps/templatetags/digital_tags.py:33 | deleting the spaces gives Python's plain `str` of the number |
| DigitalTags.NormalPriceGrouped | apps/templatetags/digital_tags.py:33 | after the sign: digits and single spaces; each group after the first has 3 digits and the first has 1 to 3 |
| DigitalTags.NormalPriceSmall | apps/templatetags/digital_tags.py:33 | a number with absolute value below 1000 is rendered as its plain decimal representation |

## Left out

- HTTP requests and responses, flash messages, templates, `LoginRequiredMixin` and the referer lookup are framework plumbing. A request is reduced to the logged-in user (`None` for anonymous) and the route's arguments, and a response to where the browser is sent.
- The Stripe checkout session (`create_checkout_session`) is a call into a foreign SDK.
- Login, logout, registration and the form classes of apps/forms.py are thin wrappers over the framework's auth forms.
- URL routing (apps/urls.py) is declarative glue. The route name `product_detail` is declared twice there (lines 7 and 11).
- `get_cart_total_price`, `OrderProduct.get_total_price` and `int(total_price)` work on the floating-point `Product.price`. `CartInfo` therefore carries no total price.
- `get_normal_price` is modelled on an integer, after `int(price)`; truncating a float is not modelled.
- Lookups by `model_product` (`product_by_color`'s `get`, `get_colors`) use a field that is commented out of the model. Only the related-product loop of `product_by_color` is modelled.
- Catalogue listings (`ProductList`, `CategoryView`, `get_categories`, `get_favorite_products`, `FavoriteProductView`), image URL helpers and `my_cart_view` / `checkout_view` are read-only queries and glue.
- `get_or_create` of the customer and the order rows is not modelled: one customer whose order already exists is modelled.
- Products are addressed by primary key. `Product.objects.get(slug=...)` in `save_favorite_product` and `ProductDetail` is modelled as a lookup of that key. `success_payment` is glue around `Clear`.
- Concurrent cart requests can race, because no transaction is used. The model is sequential.
- Line quantities are modelled as integers. `OrderProduct.quantity` is declared `null=True`, and a NULL quantity makes `add_or_delete`, `get_cart_total_quantity` and `clear_cart` raise. NULL is not represented.
- Views.ClearCart: requires every line to refer to an existing product. A line whose product was deleted (the foreign key is `SET_NULL`) makes the source raise halfway through the loop. Running `clear_cart` for an anonymous user has no login gate in the source and fails in `get_or_create`. Neither case is modelled.
- Views.ToCartView: the `DoesNotExist` that escapes the helper's constructor is modelled as the `ServerError` response. The view computes it before it constructs the helper.
- Views.SaveFavoriteProduct: `MultipleObjectsReturned` from duplicate favourite rows cannot arise, because the table is a set.
- Utils.CartForAuthenticatedUser.AddOrDelete: the line is saved at 0 or below and then deleted. That intermediate row is not modelled; only the state after the request is.
- Views.PickRelated: `randint` is an arbitrary choice of an index in range, returned as `draws`. The contract holds for every sequence of draws and says nothing about their distribution.
