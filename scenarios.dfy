/**
 * Short runs of the store, proved from the method contracts alone. They pin
 * down three consequences of how the handlers are written: product ids come
 * back after the highest one is deleted, an approval records the decision
 * before it checks the product, and approval (not creation) is where a last
 * unit of stock is contended for.
 */
module Scenarios {
  import opened Records
  import opened Engine

  /** A fresh store with one product, "Ring", under id 1 and with the given stock. */
  method RingStore(stock: int) returns (s: Store)
    requires stock > 0
    ensures fresh(s) && s.Valid()
    ensures s.products == [Product(1, "Ring", "", 10, [], stock)]
    ensures s.orders == [] && s.orderIdCounter == 1
  {
    s := new Store();
    var r := s.AddProduct("Ring", "", 10, [], stock);
  }

  /** A fresh store with products 1 and 2 and one pending order, number 1, for product 2. */
  method StoreWithOrder() returns (s: Store)
    ensures fresh(s) && s.Valid()
    ensures s.products == [Product(1, "Ring", "", 10, [], 5), Product(2, "Bracelet", "", 20, [], 5)]
    ensures s.orders == [Order(1, 2, "Bracelet", 20, "u1", "t0", Pending, None)] && s.orderIdCounter == 2
  {
    s := RingStore(5);
    var r := s.AddProduct("Bracelet", "", 20, [], 5);
    assert s.products[1].id == 2;
    r := s.CreateOrder(2, "u1", "t0");
  }

  /**
   * A pending order for product 2 outlives the product; the next product added
   * gets id 2 again, and approving the old order consumes the new product's
   * stock while the order still shows the old product's name.
   */
  method StaleOrderHitsNewProduct() returns (reused: int, approval: Outcome, stockLeft: int, orderedName: string)
    ensures reused == 2 && approval == Success && stockLeft == 2 && orderedName == "Bracelet"
  {
    var s := StoreWithOrder();
    ghost var before := s.products;
    assert WithoutId(before, 2) == [before[0]] by {
      assert before[..1] == [before[0]] && before[..1][..0] == [];
    }
    var r := s.DeleteProduct(2);
    r := s.AddProduct("Necklace", "", 30, [], 3);
    assert s.products[1] == Product(2, "Necklace", "", 30, [], 3);
    reused := s.products[1].id;
    approval := s.UpdateOrder(1, "aprovado");
    stockLeft := s.products[1].stock;
    orderedName := s.orders[0].productName;
  }

  /**
   * The product of a pending order is deleted, then the order is approved: the
   * approval fails with NotFound, yet the order is recorded as approved, no
   * stock moved, and the order has left the pending listing for good.
   */
  method ApprovalAfterDelete() returns (approval: Outcome, status: Status, retry: Outcome, pendingLeft: nat)
    ensures approval == NotFound && status == Approved && retry == AlreadyProcessed && pendingLeft == 0
  {
    var s := RingStore(1);
    assert s.products[0].id == 1;
    var r := s.CreateOrder(1, "u1", "t0");
    assert s.orders == [Order(1, 1, "Ring", 10, "u1", "t0", Pending, None)];
    r := s.DeleteProduct(1);
    assert s.products == [];
    approval := s.UpdateOrder(1, "aprovado");
    status := s.orders[0].status;
    retry := s.UpdateOrder(1, "reprovado");
    var listing := s.PendingOrders();
    pendingLeft := |listing|;
  }

  /**
   * Two orders are placed while one unit is left (placing an order reserves
   * nothing). The first approval takes the unit; the second fails with
   * InsufficientStock but is still recorded as approved; a third order can no
   * longer be placed.
   */
  method LastUnit() returns (first: Outcome, second: Outcome, secondStatus: Status, third: Outcome, stockLeft: int)
    ensures first == Success && second == InsufficientStock && secondStatus == Approved
    ensures third == OutOfStock && stockLeft == 0
  {
    var s := RingStore(1);
    assert s.products[0].id == 1;
    var r := s.CreateOrder(1, "u1", "t0");
    r := s.CreateOrder(1, "u2", "t1");
    assert s.orders[0].orderId == 1 && s.orders[1].orderId == 2;
    first := s.UpdateOrder(1, "aprovado");
    assert s.products == [Product(1, "Ring", "", 10, [], 0)];
    second := s.UpdateOrder(2, "aprovado");
    secondStatus := s.orders[1].status;
    third := s.CreateOrder(1, "u3", "t2");
    stockLeft := s.products[0].stock;
  }
}
