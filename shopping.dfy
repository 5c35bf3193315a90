/**
 * The online shop's cart, cart items, products, order-item check and product
 * search.  Prices are integer cents.
 */
module AmazonOnlineShoppingSystem {
  import opened Text
  import opened Lists

  const MinInt32: int := -0x8000_0000
  const MaxInt32: int := 0x7FFF_FFFF

  /** Java `int` arithmetic: the result is brought back into 32 bits by wrapping around. */
  function WrapInt32(x: int): (r: int)
    ensures MinInt32 <= r <= MaxInt32
    ensures MinInt32 <= x <= MaxInt32 ==> r == x
    ensures (r - x) % 0x1_0000_0000 == 0
  {
    (x - MinInt32) % 0x1_0000_0000 + MinInt32
  }

  // ---------------------------------------------------------------------------
  // Products and cart items

  class Product {
    const productId: string
    const name: string
    const description: string
    var price: int
    var availableItemCount: int

    constructor (productId: string, name: string, description: string, price: int)
      ensures this.productId == productId && this.name == name && this.description == description
      ensures this.price == price && availableItemCount == 0
    {
      this.productId, this.name, this.description := productId, name, description;
      this.price := price;
      availableItemCount := 0;
    }

    /** Pre-increments the available count and returns the new value. */
    method UpdateAvailableCount() returns (count: int)
      modifies this
      ensures availableItemCount == count == WrapInt32(old(availableItemCount) + 1)
      ensures price == old(price)
    {
      availableItemCount := WrapInt32(availableItemCount + 1);
      return availableItemCount;
    }

    method UpdatePrice(newPrice: int) returns (ok: bool)
      modifies this
      ensures ok && price == newPrice && availableItemCount == old(availableItemCount)
    {
      price := newPrice;
      return true;
    }
  }

  /** Below the largest `int`, a pre-increment adds exactly one; at it, the count wraps to the smallest. */
  lemma IncrementWraps(count: int)
    requires MinInt32 <= count <= MaxInt32
    ensures count < MaxInt32 ==> WrapInt32(count + 1) == count + 1
    ensures count == MaxInt32 ==> WrapInt32(count + 1) == MinInt32
  {
  }

  class CartItem {
    const product: Product?
    var quantity: int

    /** The price argument is not stored: the price always comes from the product. */
    constructor (product: Product?, quantity: int, price: int)
      ensures this.product == product && this.quantity == quantity
    {
      this.product := product;
      this.quantity := quantity;
    }

    /** The product's current unit price times the quantity. */
    function GetPrice(): int
      requires product != null
      reads this, product
    {
      product.price * quantity
    }

    method UpdateQuantity(quantity: int) returns (ok: bool)
      modifies this
      ensures ok && this.quantity == quantity
    {
      this.quantity := quantity;
      return true;
    }
  }

  predicate AllPriced(s: seq<CartItem>) {
    forall i :: 0 <= i < |s| ==> s[i].product != null
  }

  /** The sum of the current prices of the items. */
  function Total(s: seq<CartItem>): int
    requires AllPriced(s)
    reads set x | x in s, set x | x in s :: x.product
  {
    if s == [] then 0 else s[0].GetPrice() + Total(s[1..])
  }

  lemma {:induction false} TotalAppend(a: seq<CartItem>, b: seq<CartItem>)
    requires AllPriced(a) && AllPriced(b)
    ensures AllPriced(a + b) && Total(a + b) == Total(a) + Total(b)
  {
    if a != [] {
      assert (a + b)[1..] == a[1..] + b;
      TotalAppend(a[1..], b);
    } else {
      assert a + b == b;
    }
  }

  /** Removing an item that is in the list takes exactly its price off the sum. */
  lemma {:induction false} TotalRemoveFirst(s: seq<CartItem>, x: CartItem)
    requires AllPriced(s) && x in s
    ensures AllPriced(RemoveFirst(s, x))
    ensures Total(RemoveFirst(s, x)) == Total(s) - x.GetPrice()
  {
    if s[0] != x {
      TotalRemoveFirst(s[1..], x);
      assert RemoveFirst(s, x) == [s[0]] + RemoveFirst(s[1..], x);
      assert RemoveFirst(s, x)[1..] == RemoveFirst(s[1..], x);
    }
  }

  // ---------------------------------------------------------------------------
  // The cart

  class ShoppingCart {
    var totalPrice: int
    var items: seq<CartItem>

    /** Every item has a product, so its price can be taken. */
    predicate Valid()
      reads this
    {
      AllPriced(items)
    }

    /**
     * How far the running total is from the sum of the items' current prices.
     * It is zero until an item's quantity or a product's price changes after
     * the item was added.
     */
    function Drift(): int
      requires Valid()
      reads this, set x | x in items, set x | x in items :: x.product
    {
      totalPrice - Total(items)
    }

    constructor ()
      ensures Valid() && totalPrice == 0 && items == [] && Drift() == 0
    {
      totalPrice := 0;
      items := [];
    }

    method AddItem(item: CartItem) returns (ok: bool)
      requires Valid() && item.product != null
      modifies this
      ensures Valid() && ok
      ensures items == old(items) + [item]
      ensures totalPrice == old(totalPrice) + item.GetPrice()
      ensures Drift() == old(Drift())
    {
      TotalAppend(items, [item]);
      items := items + [item];
      totalPrice := totalPrice + item.GetPrice();
      return true;
    }

    /** Removes the first occurrence of `item`, if any, and takes its price off the total. */
    method RemoveItem(item: CartItem) returns (ok: bool)
      requires Valid()
      modifies this
      ensures Valid()
      ensures ok <==> item in old(items)
      ensures ok ==> items == RemoveFirst(old(items), item) && totalPrice == old(totalPrice) - item.GetPrice()
      ensures !ok ==> items == old(items) && totalPrice == old(totalPrice)
      ensures Drift() == old(Drift())
    {
      if item !in items {
        return false;
      }
      TotalRemoveFirst(items, item);
      items := RemoveFirst(items, item);
      totalPrice := totalPrice - item.GetPrice();
      return true;
    }

    /** A cart can be checked out only when it holds an item. */
    function Verify(): (ok: bool)
      reads this
      ensures ok <==> exists x :: x in items
    {
      if items == [] then false
      else
        assert items[0] in items;
        true
    }
  }

  /** An order accepts an item that exists, has a product and a positive quantity. */
  function VerifyItem(item: CartItem?): (ok: bool)
    reads item
    ensures ok ==> item != null && item.product != null && item.quantity > 0
    ensures item != null && item.product != null && item.quantity > 0 ==> ok
  {
    if item == null then false else item.quantity > 0 && item.product != null
  }

  // ---------------------------------------------------------------------------
  // Search

  class Search {
    var products: map<string, seq<Product>>

    constructor ()
      ensures products == map[]
    {
      products := map[];
    }

    /** Stores the given map; being a value, later changes to the caller's map are not seen. */
    method SetProducts(products: map<string, seq<Product>>)
      modifies this
      ensures this.products == products
    {
      this.products := products;
    }

    /** Looks the lower-cased name up; an unknown name finds nothing. */
    function SearchProductsByName(name: string): seq<Product>
      reads this
    {
      Lookup(products, ToLower(name))
    }

    function SearchProductsByCategory(category: string): seq<Product>
      reads this
    {
      Lookup(products, ToLower(category))
    }

    /** A product with the given id in any of the lists, or null when there is none. */
    method GetProductDetails(productId: string) returns (found: Product?)
      ensures found == null <==>
                forall k, i :: k in products && 0 <= i < |products[k]| ==> products[k][i].productId != productId
      ensures found != null ==> found.productId == productId && exists k :: k in products && found in products[k]
    {
      var keys := products.Keys;
      while keys != {}
        invariant keys <= products.Keys
        invariant forall k, i :: k in products && k !in keys && 0 <= i < |products[k]| ==> products[k][i].productId != productId
        decreases |keys|
      {
        var k :| k in keys;
        var list := products[k];
        for i := 0 to |list|
          invariant forall j :: 0 <= j < i ==> list[j].productId != productId
        {
          if list[i].productId == productId {
            return list[i];
          }
        }
        keys := keys - {k};
      }
      return null;
    }
  }

  /** Name searches ignore letter case. */
  lemma SearchIgnoresCase(search: Search, a: string, b: string)
    requires EqualsIgnoreCase(a, b)
    ensures search.SearchProductsByName(a) == search.SearchProductsByName(b)
    ensures search.SearchProductsByCategory(a) == search.SearchProductsByCategory(b)
  {
    EqualsIgnoreCaseIsLowerEquality(a, b);
  }

  /**
   * Searching by category is the same lookup as searching by name; a key
   * that was never stored finds the empty list, and a stored one its list.
   */
  lemma SearchMeaning(search: Search, query: string)
    ensures search.SearchProductsByCategory(query) == search.SearchProductsByName(query)
    ensures ToLower(query) !in search.products ==> search.SearchProductsByName(query) == []
    ensures ToLower(query) in search.products ==> search.SearchProductsByName(query) == search.products[ToLower(query)]
  {
  }
}
