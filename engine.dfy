/**
 * The shop's single in-memory store: the product list, the order ledger and
 * the order id counter, with one method per handler. Each method is one
 * atomic step (the handler's lock is held for the whole of it).
 */
module Engine {
  import opened Records

  class Store {
    var products: seq<Product>
    var orders: seq<Order>
    var orderIdCounter: int

    /** The store's invariant: every product validated, stock never negative, ids increasing. */
    ghost predicate Valid()
      reads this
    {
      ProductsValid(products) && OrdersValid(orders, orderIdCounter)
    }

    /** The process starts with an empty catalog, an empty ledger and the counter at 1. */
    constructor ()
      ensures Valid()
      ensures products == [] && orders == [] && orderIdCounter == 1
    {
      products := [];
      orders := [];
      orderIdCounter := 1;
    }

    /** The scan for a product by id, as the handlers' loops and lookups do it. */
    method FindProduct(id: int) returns (i: int)
      ensures i == ProductIndex(products, id)
    {
      i := 0;
      while i < |products| && products[i].id != id
        invariant 0 <= i <= |products|
        invariant forall j :: 0 <= j < i ==> products[j].id != id
      {
        i := i + 1;
      }
      if i == |products| {
        i := -1;
      }
    }

    /** The scan for an order by id. */
    method FindOrder(orderId: int) returns (k: int)
      ensures k == OrderIndex(orders, orderId)
    {
      k := 0;
      while k < |orders| && orders[k].orderId != orderId
        invariant 0 <= k <= |orders|
        invariant forall j :: 0 <= j < k ==> orders[j].orderId != orderId
      {
        k := k + 1;
      }
      if k == |orders| {
        k := -1;
      }
    }

    /**
     * Adds a product. An empty name, a price of at most 0 or a negative stock is
     * refused and nothing changes; otherwise one product is appended whose id is
     * one more than the largest id in the catalog (1 in an empty one).
     */
    method AddProduct(name: string, description: string, price: int, images: seq<string>, stock: int)
      returns (r: Outcome)
      requires Valid()
      modifies this
      ensures Valid()
      ensures r == Invalid <==> name == [] || price <= 0 || stock < 0
      ensures r == Invalid || r == Success
      ensures r == Invalid ==> products == old(products)
      ensures r == Success ==>
        products == old(products) + [Product(MaxId(old(products)) + 1, name, description, price, images, stock)]
      ensures r == Success ==> forall j :: 0 <= j < |old(products)| ==> old(products)[j].id < MaxId(old(products)) + 1
      ensures orders == old(orders) && orderIdCounter == old(orderIdCounter)
    {
      if name == [] || price <= 0 || stock < 0 {
        return Invalid;
      }
      var newId := MaxId(products) + 1;
      products := products + [Product(newId, name, description, price, images, stock)];
      return Success;
    }

    /**
     * Replaces every field but the id of the product with this id, in place.
     * The same validation as AddProduct comes first; an unknown id is NotFound.
     */
    method EditProduct(id: int, name: string, description: string, price: int, images: seq<string>, stock: int)
      returns (r: Outcome)
      requires Valid()
      modifies this
      ensures Valid()
      ensures r == Invalid <==> name == [] || price <= 0 || stock < 0
      ensures r == NotFound <==> r != Invalid && !HasProduct(old(products), id)
      ensures r == Invalid || r == NotFound || r == Success
      ensures r != Success ==> products == old(products)
      ensures r == Success ==> |products| == |old(products)|
      ensures r == Success ==>
        forall j :: 0 <= j < |products| ==>
          products[j] == if old(products)[j].id == id
                         then Product(id, name, description, price, images, stock)
                         else old(products)[j]
      ensures orders == old(orders) && orderIdCounter == old(orderIdCounter)
    {
      if name == [] || price <= 0 || stock < 0 {
        return Invalid;
      }
      var i := FindProduct(id);
      if i < 0 {
        return NotFound;
      }
      var edited := Product(products[i].id, name, description, price, images, stock);
      ReplaceValid(products, i, edited);
      products := products[i := edited];
      return Success;
    }

    /**
     * Deletes the product with this id, keeping the others in order; an unknown
     * id is NotFound. Orders that refer to the product are left as they are.
     */
    method DeleteProduct(id: int) returns (r: Outcome)
      requires Valid()
      modifies this
      ensures Valid()
      ensures r == NotFound <==> !HasProduct(old(products), id)
      ensures r == NotFound || r == Success
      ensures r == NotFound ==> products == old(products)
      ensures r == Success ==> products == WithoutId(old(products), id) && |products| == |old(products)| - 1
      ensures orders == old(orders) && orderIdCounter == old(orderIdCounter)
    {
      var i := FindProduct(id);
      if i < 0 {
        return NotFound;
      }
      RemoveAtIsWithoutId(products, i);
      DropAtValid(products, i);
      products := products[..i] + products[i + 1..];
      return Success;
    }

    /**
     * Places an order. An empty user id or a missing (zero) product id is Invalid,
     * checked before the lookup; then an unknown product is NotFound and one
     * without stock is OutOfStock. On success one pending order is appended,
     * numbered by the counter and carrying copies of the product's name and
     * price, and the counter moves on by one. Stock is not reserved.
     */
    method CreateOrder(productId: int, userId: string, date: string) returns (r: Outcome)
      requires Valid()
      modifies this
      ensures Valid()
      ensures products == old(products)
      ensures r == Invalid <==> userId == [] || productId == 0
      ensures r == NotFound <==> r != Invalid && !HasProduct(products, productId)
      ensures r == OutOfStock <==>
        r != Invalid && HasProduct(products, productId) && products[ProductIndex(products, productId)].stock <= 0
      ensures r == Invalid || r == NotFound || r == OutOfStock || r == Success
      ensures r != Success ==> orders == old(orders) && orderIdCounter == old(orderIdCounter)
      ensures r == Success ==>
        var p := products[ProductIndex(products, productId)];
        orders == old(orders) + [Order(old(orderIdCounter), p.id, p.name, p.price, userId, date, Pending, None)] &&
        orderIdCounter == old(orderIdCounter) + 1
    {
      if userId == [] || productId == 0 {
        return Invalid;
      }
      var i := FindProduct(productId);
      if i < 0 {
        return NotFound;
      }
      var p := products[i];
      if p.stock <= 0 {
        return OutOfStock;
      }
      orders := orders + [Order(orderIdCounter, p.id, p.name, p.price, userId, date, Pending, None)];
      orderIdCounter := orderIdCounter + 1;
      return Success;
    }

    /**
     * Resolves an order. A status other than "aprovado" or "reprovado" is
     * Invalid, checked before any lookup; an unknown order is NotFound; an order
     * that is no longer pending is AlreadyProcessed and nothing changes.
     * Otherwise the new status is written FIRST. A rejection then succeeds. An
     * approval then looks the product up: a deleted product is NotFound and a
     * product without stock is InsufficientStock, both leaving the order approved
     * and the stock untouched; otherwise that one product loses one unit.
     */
    method UpdateOrder(orderId: int, status: string) returns (r: Outcome)
      requires Valid()
      modifies this
      ensures Valid()
      ensures orderIdCounter == old(orderIdCounter) && |orders| == |old(orders)|
      ensures r == Invalid <==> ParseDecision(status).None?
      ensures r == Invalid ==> unchanged(this)
      ensures ParseDecision(status).Some? && !HasOrder(old(orders), orderId) ==> r == NotFound && unchanged(this)
      ensures ParseDecision(status).Some? && HasOrder(old(orders), orderId) ==>
        old(orders)[OrderIndex(old(orders), orderId)].status != Pending ==> r == AlreadyProcessed && unchanged(this)
      // past these checks the decision is recorded, whatever the approval step reports
      ensures ParseDecision(status).Some? && HasOrder(old(orders), orderId) ==>
        orders[OrderIndex(old(orders), orderId)].status != Pending
      ensures ParseDecision(status).Some? && HasOrder(old(orders), orderId) ==>
        var k := OrderIndex(old(orders), orderId);
        old(orders)[k].status == Pending ==>
          orders == WithStatus(old(orders), k, ParseDecision(status).value)
      ensures ParseDecision(status) == Some(Rejected) && HasOrder(old(orders), orderId) ==>
        old(orders)[OrderIndex(old(orders), orderId)].status == Pending ==> r == Success && products == old(products)
      ensures ParseDecision(status) == Some(Approved) && HasOrder(old(orders), orderId) ==>
        var o := old(orders)[OrderIndex(old(orders), orderId)];
        var j := ProductIndex(old(products), o.productId);
        o.status == Pending ==>
          if j < 0 then
            r == NotFound && products == old(products)
          else if old(products)[j].stock <= 0 then
            r == InsufficientStock && products == old(products)
          else
            r == Success && products == TakeUnit(old(products), j)
    {
      var decision := ParseDecision(status);
      if decision.None? {
        r := Invalid;
      } else {
        var k := FindOrder(orderId);
        if k < 0 {
          r := NotFound;
        } else if orders[k].status != Pending {
          r := AlreadyProcessed;
        } else {
          SetStatusValid(orders, orderIdCounter, k, decision.value);
          orders := WithStatus(orders, k, decision.value);
          r := Success;
          if decision.value == Approved {
            var j := FindProduct(orders[k].productId);
            if j < 0 {
              r := NotFound;
            } else if products[j].stock <= 0 {
              r := InsufficientStock;
            } else {
              TakeUnitValid(products, j);
              products := TakeUnit(products, j);
            }
          }
        }
      }
    }

    /** A user's listing: their approved orders, in ledger (and so in id) order. */
    method ApprovedOrders(userId: string) returns (r: seq<Order>)
      requires Valid()
      ensures r == ApprovedFor(orders, userId)
      ensures OrderIdsIncreasing(r)
    {
      ApprovedForIncreasing(orders, userId);
      r := ApprovedFor(orders, userId);
    }

    /**
     * The admin's pending listing. Every pending order in the ledger is annotated,
     * in the stored record itself, with its product's current stock (0 once the
     * product is gone); the listing is those annotated orders in ledger order.
     */
    method PendingOrders() returns (r: seq<Order>)
      requires Valid()
      modifies this
      ensures Valid()
      ensures r == PendingView(old(orders), products)
      ensures OrderIdsIncreasing(r)
      ensures orders == AnnotateLedger(old(orders), products)
      ensures products == old(products) && orderIdCounter == old(orderIdCounter)
    {
      ghost var os := orders;
      PendingViewIncreasing(os, products);
      r := [];
      var k := 0;
      while k < |orders|
        invariant 0 <= k <= |orders| == |os|
        invariant orders == AnnotateFirst(os, k, products)
        invariant r == PendingView(os[..k], products)
        invariant products == old(products) && orderIdCounter == old(orderIdCounter)
      {
        PendingViewStep(os, k, products);
        AnnotateStep(os, k, products);
        if orders[k].status == Pending {
          r := r + [Annotate(orders[k], products)];
          orders := AnnotateAt(orders, k, products);
        }
        k := k + 1;
      }
      assert os[..k] == os;
      AnnotateLedgerValid(os, products, orderIdCounter);
    }
  }
}
