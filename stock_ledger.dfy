/** The stock ledger of `OrderService`: taking order quantities out of product stock (at checkout
    and on approval) and putting them back (on cancellation), as functions of the catalogue. */
module StockLedger {
  import opened Common
  import opened Domain

  type Catalog = map<ProductId, Product>

  /** One stock movement: a product and a quantity (a cart row or an order line). */
  datatype Line = Line(productId: ProductId, quantity: int)

  function CartLines(cart: seq<CartItem>): (ls: seq<Line>)
    ensures |ls| == |cart|
    ensures forall i :: 0 <= i < |cart| ==> ls[i] == Line(cart[i].productId, cart[i].quantity)
  {
    seq(|cart|, i requires 0 <= i < |cart| => Line(cart[i].productId, cart[i].quantity))
  }

  function ItemLines(items: seq<OrderItem>): (ls: seq<Line>)
    ensures |ls| == |items|
    ensures forall i :: 0 <= i < |items| ==> ls[i] == Line(items[i].productId, items[i].quantity)
  {
    seq(|items|, i requires 0 <= i < |items| => Line(items[i].productId, items[i].quantity))
  }

  /** Every line names a product of the catalogue (a foreign key the database enforces). */
  predicate Covers(c: Catalog, lines: seq<Line>)
  {
    forall i :: 0 <= i < |lines| ==> lines[i].productId in c
  }

  /** No product appears on two lines. */
  predicate DistinctProducts(lines: seq<Line>)
  {
    forall i, j :: 0 <= i < j < |lines| ==> lines[i].productId != lines[j].productId
  }

  function Stock(c: Catalog, p: ProductId): int
    requires p in c
  {
    c[p].stockQuantity
  }

  /** `product.setStockQuantity(product.getStockQuantity() + delta)` for one product. */
  function Adjust(c: Catalog, p: ProductId, delta: int): (d: Catalog)
    requires p in c
    ensures SameCatalog(c, d)
    ensures Stock(d, p) == Stock(c, p) + delta
    ensures forall q :: q in c && q != p ==> d[q] == c[q]
  {
    c[p := c[p].(stockQuantity := c[p].stockQuantity + delta)]
  }

  /** Writing the adjusted quantity into the product's row is the adjustment. */
  lemma AdjustSetsStock(c: Catalog, p: ProductId, delta: int, v: int)
    requires p in c && v == Stock(c, p) + delta
    ensures c[p := c[p].(stockQuantity := v)] == Adjust(c, p, delta)
  {
  }

  /** The total quantity the lines name for product `p`. */
  function Requested(lines: seq<Line>, p: ProductId): int
  {
    if lines == [] then 0
    else
      var last := lines[|lines| - 1];
      Requested(lines[..|lines| - 1], p) + (if last.productId == p then last.quantity else 0)
  }

  /** The catalogue after each line's quantity is taken out of stock, in order and unchecked. */
  function Decremented(c: Catalog, lines: seq<Line>): (d: Catalog)
    requires Covers(c, lines)
    ensures SameCatalog(c, d)
  {
    if lines == [] then c
    else
      var last := lines[|lines| - 1];
      var d := Decremented(c, lines[..|lines| - 1]);
      SameCatalogTransitive(c, d, Adjust(d, last.productId, -last.quantity));
      Adjust(d, last.productId, -last.quantity)
  }

  /** The catalogue after each line's quantity is put back into stock, in order. */
  function Restocked(c: Catalog, lines: seq<Line>): (d: Catalog)
    requires Covers(c, lines)
    ensures SameCatalog(c, d)
  {
    if lines == [] then c
    else
      var last := lines[|lines| - 1];
      var d := Restocked(c, lines[..|lines| - 1]);
      SameCatalogTransitive(c, d, Adjust(d, last.productId, last.quantity));
      Adjust(d, last.productId, last.quantity)
  }

  lemma CoversSameCatalog(c: Catalog, d: Catalog, lines: seq<Line>)
    requires Covers(c, lines) && SameCatalog(c, d)
    ensures Covers(d, lines)
  {
  }

  lemma CoversPrefix(c: Catalog, lines: seq<Line>, k: nat)
    requires Covers(c, lines) && k <= |lines|
    ensures Covers(c, lines[..k])
  {
  }

  /** Conservation: the unchecked decrement lowers each product's stock by exactly what the lines request. */
  lemma {:induction false} DecrementedStock(c: Catalog, lines: seq<Line>, p: ProductId)
    requires Covers(c, lines) && p in c
    ensures Stock(Decremented(c, lines), p) == Stock(c, p) - Requested(lines, p)
  {
    if lines != [] {
      DecrementedStock(c, lines[..|lines| - 1], p);
    }
  }

  /** Conservation for restocking: each product's stock rises by exactly what the lines name. */
  lemma {:induction false} RestockedStock(c: Catalog, lines: seq<Line>, p: ProductId)
    requires Covers(c, lines) && p in c
    ensures Stock(Restocked(c, lines), p) == Stock(c, p) + Requested(lines, p)
  {
    if lines != [] {
      RestockedStock(c, lines[..|lines| - 1], p);
    }
  }

  /** Two catalogues with the same products and the same stock everywhere are equal. */
  lemma CatalogExtensionality(c: Catalog, d: Catalog)
    requires SameCatalog(c, d)
    requires forall p :: p in c ==> Stock(c, p) == Stock(d, p)
    ensures c == d
  {
    forall p | p in c ensures c[p] == d[p] {
      assert d[p] == c[p].(stockQuantity := d[p].stockQuantity);
    }
  }

  /** Putting back the same lines restores the catalogue exactly. */
  lemma RestockUndoesDecrement(c: Catalog, lines: seq<Line>)
    requires Covers(c, lines)
    ensures Covers(Decremented(c, lines), lines)
    ensures Restocked(Decremented(c, lines), lines) == c
  {
    var d := Decremented(c, lines);
    CoversSameCatalog(c, d, lines);
    var e := Restocked(d, lines);
    SameCatalogTransitive(c, d, e);
    forall p | p in c ensures Stock(c, p) == Stock(e, p) {
      DecrementedStock(c, lines, p);
      RestockedStock(d, lines, p);
    }
    CatalogExtensionality(c, e);
  }

  lemma {:induction false} RequestedAbsent(lines: seq<Line>, p: ProductId)
    requires forall i :: 0 <= i < |lines| ==> lines[i].productId != p
    ensures Requested(lines, p) == 0
  {
    if lines != [] {
      RequestedAbsent(lines[..|lines| - 1], p);
    }
  }

  /** With distinct products, each product's requested total is its one line's quantity. */
  lemma {:induction false} RequestedDistinct(lines: seq<Line>, k: nat)
    requires DistinctProducts(lines) && k < |lines|
    ensures Requested(lines, lines[k].productId) == lines[k].quantity
  {
    var n := |lines| - 1;
    var p := lines[k].productId;
    if k == n {
      RequestedAbsent(lines[..n], p);
    } else {
      RequestedDistinct(lines[..n], k);
    }
  }

  /** Why `validateStock` rejected a cart: the product's name, its stock, and the quantity asked. */
  datatype Shortage = Shortage(productName: string, available: int, requested: int)

  predicate CartInCatalog(c: Catalog, cart: seq<CartItem>)
  {
    forall i :: 0 <= i < |cart| ==> cart[i].productId in c
  }

  /** Row `k` of the cart asks for more than its product's stock. */
  predicate Short(c: Catalog, cart: seq<CartItem>, k: int)
    requires CartInCatalog(c, cart) && 0 <= k < |cart|
  {
    Stock(c, cart[k].productId) < cart[k].quantity
  }

  /** `validateStock`: every cart row is checked against the stock as it is before the order;
      the first row that asks for more than its product's stock is reported. */
  function ValidateStock(c: Catalog, cart: seq<CartItem>): (r: Option<Shortage>)
    requires CartInCatalog(c, cart)
    ensures r.None? <==> forall k :: 0 <= k < |cart| ==> !Short(c, cart, k)
    ensures r.Some? ==> exists k :: (0 <= k < |cart| && Short(c, cart, k)
      && (forall j :: 0 <= j < k ==> !Short(c, cart, j))
      && r.value == Shortage(c[cart[k].productId].productName, Stock(c, cart[k].productId), cart[k].quantity))
  {
    if cart == [] then None
    else if Stock(c, cart[0].productId) < cart[0].quantity then
      assert Short(c, cart, 0);
      Some(Shortage(c[cart[0].productId].productName, Stock(c, cart[0].productId), cart[0].quantity))
    else
      var r := ValidateStock(c, cart[1..]);
      assert forall k :: 1 <= k < |cart| ==> (Short(c, cart, k) <==> Short(c, cart[1..], k - 1));
      if r.Some? then
        var k' :| 0 <= k' < |cart| - 1 && Short(c, cart[1..], k')
          && (forall j :: 0 <= j < k' ==> !Short(c, cart[1..], j))
          && r.value == Shortage(c[cart[1..][k'].productId].productName, Stock(c, cart[1..][k'].productId), cart[1..][k'].quantity);
        assert Short(c, cart, k' + 1);
        r
      else r
  }

  /** Each line, taken in order, finds enough stock left by the lines before it. */
  predicate Admits(c: Catalog, lines: seq<Line>)
    requires Covers(c, lines)
  {
    if lines == [] then true
    else
      var n := |lines| - 1;
      Admits(c, lines[..n]) && Stock(Decremented(c, lines[..n]), lines[n].productId) >= lines[n].quantity
  }

  /** `decrementStock`: each line's quantity is taken out of the stock the earlier lines left;
      the first line that would leave a negative stock fails the whole batch, naming its product.
      On success every product the lines touch is left with a non-negative stock. */
  function CheckedDecrement(c: Catalog, lines: seq<Line>): (r: Result<Catalog, ProductId>)
    requires Covers(c, lines)
    ensures r.Ok? <==> Admits(c, lines)
    ensures r.Ok? ==> r.value == Decremented(c, lines)
    ensures r.Ok? ==> forall k :: 0 <= k < |lines| ==> Stock(r.value, lines[k].productId) >= 0
    ensures r.Err? ==> exists k :: 0 <= k < |lines| && r.error == lines[k].productId
  {
    if lines == [] then Ok(c)
    else
      var n := |lines| - 1;
      var last := lines[n];
      match CheckedDecrement(c, lines[..n])
      case Err(p) => Err(p)
      case Ok(d) =>
        if Stock(d, last.productId) - last.quantity < 0 then Err(last.productId)
        else Ok(Adjust(d, last.productId, -last.quantity))
  }

  /** With distinct products, `decrementStock` succeeds exactly when each product's stock covers its line. */
  lemma {:induction false} AdmitsDistinct(c: Catalog, lines: seq<Line>)
    requires Covers(c, lines) && DistinctProducts(lines)
    ensures Admits(c, lines) <==>
      forall k :: 0 <= k < |lines| ==> Stock(c, lines[k].productId) >= lines[k].quantity
  {
    if lines != [] {
      var n := |lines| - 1;
      AdmitsDistinct(c, lines[..n]);
      DecrementedStock(c, lines[..n], lines[n].productId);
      RequestedAbsent(lines[..n], lines[n].productId);
    }
  }

  /** The batch fails at the first line that finds too little stock, and names that line's product. */
  lemma {:induction false} CheckedDecrementFirstFailure(c: Catalog, lines: seq<Line>, i: nat)
    requires Covers(c, lines) && i < |lines|
    requires Admits(c, lines[..i])
    requires Stock(Decremented(c, lines[..i]), lines[i].productId) < lines[i].quantity
    ensures CheckedDecrement(c, lines) == Err(lines[i].productId)
    ensures !Admits(c, lines)
  {
    var n := |lines| - 1;
    if n == i {
      assert lines[..n] == lines[..i];
    } else {
      assert lines[..n][..i] == lines[..i];
      CheckedDecrementFirstFailure(c, lines[..n], i);
    }
  }

  /** One more line of a batch: the catalogue after `i + 1` lines is the one after `i` lines
      with line `i` taken out. */
  lemma DecrementedAppend(c: Catalog, lines: seq<Line>, i: nat)
    requires Covers(c, lines) && i < |lines|
    ensures Covers(c, lines[..i]) && Covers(c, lines[..i + 1])
    ensures lines[i].productId in Decremented(c, lines[..i])
    ensures Decremented(c, lines[..i + 1]) == Adjust(Decremented(c, lines[..i]), lines[i].productId, -lines[i].quantity)
  {
    assert lines[..i + 1][..i] == lines[..i];
  }

  lemma RestockedAppend(c: Catalog, lines: seq<Line>, i: nat)
    requires Covers(c, lines) && i < |lines|
    ensures Covers(c, lines[..i]) && Covers(c, lines[..i + 1])
    ensures lines[i].productId in Restocked(c, lines[..i])
    ensures Restocked(c, lines[..i + 1]) == Adjust(Restocked(c, lines[..i]), lines[i].productId, lines[i].quantity)
  {
    assert lines[..i + 1][..i] == lines[..i];
  }
}
