/**
 * The records of the shop's in-memory store and the pure
 * computations over them: the id lookups, the fresh product id, the
 * removal of a product by id and the two order listings.
 */
module Records {

  datatype Option<T> = None | Some(value: T)

  /** An order's status; on the wire these are 'pendente', 'aprovado' and 'reprovado'. */
  datatype Status = Pending | Approved | Rejected

  /** A catalog entry. `price` is only compared with 0 and copied, so an integer suffices. */
  datatype Product = Product(
    id: int,
    name: string,
    description: string,
    price: int,
    images: seq<string>,
    stock: int)

  /**
   * A purchase request. `productName` and `productPrice` are copies taken
   * when the order is placed; `date` is the opaque creation timestamp;
   * `productStock` is the annotation the pending listing writes into the
   * stored record (None until the order is first listed while pending).
   */
  datatype Order = Order(
    orderId: int,
    productId: int,
    productName: string,
    productPrice: int,
    userId: string,
    date: string,
    status: Status,
    productStock: Option<int>)

  /** What a handler reports, with the transport's status codes stripped off. */
  datatype Outcome = Success | Invalid | NotFound | OutOfStock | AlreadyProcessed | InsufficientStock

  /** The decision an admin may send; any other string is refused. */
  function ParseDecision(s: string): (r: Option<Status>)
    ensures r.Some? <==> s in ["aprovado", "reprovado"]
    ensures r == Some(Approved) <==> s == "aprovado"
    ensures r == Some(Rejected) <==> s == "reprovado"
  {
    if s == "aprovado" then Some(Approved)
    else if s == "reprovado" then Some(Rejected)
    else None
  }

  predicate HasProduct(ps: seq<Product>, id: int)
  {
    exists i :: 0 <= i < |ps| && ps[i].id == id
  }

  predicate HasOrder(os: seq<Order>, orderId: int)
  {
    exists k :: 0 <= k < |os| && os[k].orderId == orderId
  }

  /** Product ids grow strictly along the list, so in particular they are pairwise distinct. */
  predicate ProductIdsIncreasing(ps: seq<Product>)
  {
    forall i, j :: 0 <= i < j < |ps| ==> ps[i].id < ps[j].id
  }

  predicate OrderIdsIncreasing(os: seq<Order>)
  {
    forall i, j :: 0 <= i < j < |os| ==> os[i].orderId < os[j].orderId
  }

  /** What add and edit validate, plus the stock bound approval keeps, plus increasing ids. */
  predicate ProductsValid(ps: seq<Product>)
  {
    (forall i :: 0 <= i < |ps| ==>
      ps[i].id >= 1 && ps[i].name != [] && ps[i].price > 0 && ps[i].stock >= 0) &&
    ProductIdsIncreasing(ps)
  }

  /** Every stored order id was handed out by the counter, in increasing order. */
  predicate OrdersValid(os: seq<Order>, counter: int)
  {
    counter >= 1 &&
    (forall k :: 0 <= k < |os| ==>
      1 <= os[k].orderId < counter && os[k].productId >= 1 && os[k].userId != [] &&
      os[k].productName != [] && os[k].productPrice > 0) &&
    OrderIdsIncreasing(os)
  }

  /** The id a new product gets is one more than this: the largest id, 0 for an empty catalog. */
  function MaxId(ps: seq<Product>): (m: int)
    ensures ps == [] ==> m == 0
    ensures forall i :: 0 <= i < |ps| ==> ps[i].id <= m
    ensures ps != [] ==> exists i :: 0 <= i < |ps| && ps[i].id == m
  {
    if ps == [] then 0
    else if |ps| == 1 then ps[0].id
    else
      var m' := MaxId(ps[..|ps| - 1]);
      if ps[|ps| - 1].id > m' then ps[|ps| - 1].id else m'
  }

  /** Index of the first product with this id, or -1 when there is none. */
  function ProductIndex(ps: seq<Product>, id: int): (i: int)
    ensures -1 <= i < |ps|
    ensures i >= 0 ==> ps[i].id == id && forall j :: 0 <= j < i ==> ps[j].id != id
    ensures i < 0 <==> !HasProduct(ps, id)
  {
    if ps == [] then -1
    else if ps[0].id == id then 0
    else
      var k := ProductIndex(ps[1..], id);
      assert forall j :: 0 < j < |ps| ==> ps[j] == ps[1..][j - 1];
      if k < 0 then -1 else k + 1
  }

  /** Index of the first order with this id, or -1 when there is none. */
  function OrderIndex(os: seq<Order>, orderId: int): (k: int)
    ensures -1 <= k < |os|
    ensures k >= 0 ==> os[k].orderId == orderId && forall j :: 0 <= j < k ==> os[j].orderId != orderId
    ensures k < 0 <==> !HasOrder(os, orderId)
  {
    if os == [] then -1
    else if os[0].orderId == orderId then 0
    else
      var k := OrderIndex(os[1..], orderId);
      assert forall j :: 0 < j < |os| ==> os[j] == os[1..][j - 1];
      if k < 0 then -1 else k + 1
  }

  /** The catalog without the products carrying this id, in the same order. */
  function WithoutId(ps: seq<Product>, id: int): (r: seq<Product>)
    ensures |r| <= |ps|
    ensures !HasProduct(r, id)
  {
    if ps == [] then []
    else
      var rest := WithoutId(ps[..|ps| - 1], id);
      if ps[|ps| - 1].id == id then rest else rest + [ps[|ps| - 1]]
  }

  /** What WithoutId keeps: exactly the products whose id differs. */
  lemma {:induction false} WithoutIdMembers(ps: seq<Product>, id: int)
    ensures forall p :: p in WithoutId(ps, id) <==> p in ps && p.id != id
  {
    if ps != [] {
      WithoutIdMembers(ps[..|ps| - 1], id);
      assert ps == ps[..|ps| - 1] + [ps[|ps| - 1]];
    }
  }

  /** The stock shown next to a pending order: the product's current stock, 0 once it is gone. */
  function StockOf(ps: seq<Product>, id: int): (n: int)
    ensures !HasProduct(ps, id) ==> n == 0
    ensures HasProduct(ps, id) ==> exists i :: 0 <= i < |ps| && ps[i].id == id && n == ps[i].stock
    ensures ProductsValid(ps) ==> n >= 0
  {
    var i := ProductIndex(ps, id);
    if i < 0 then 0 else ps[i].stock
  }

  function Annotate(o: Order, ps: seq<Product>): Order
  {
    o.(productStock := Some(StockOf(ps, o.productId)))
  }

  /** The admin's listing: the pending orders, in ledger order, each annotated with its product's stock. */
  function PendingView(os: seq<Order>, ps: seq<Product>): (r: seq<Order>)
    ensures |r| <= |os|
    ensures forall j :: 0 <= j < |r| ==> r[j].status == Pending && r[j].productStock.Some?
  {
    if os == [] then []
    else
      var rest := PendingView(os[..|os| - 1], ps);
      var last := os[|os| - 1];
      if last.status == Pending then rest + [Annotate(last, ps)] else rest
  }

  /** The ledger with the pending records among its first n annotated. */
  function AnnotateFirst(os: seq<Order>, n: int, ps: seq<Product>): (r: seq<Order>)
    ensures |r| == |os|
  {
    seq(|os|, j requires 0 <= j < |os| => if j < n && os[j].status == Pending then Annotate(os[j], ps) else os[j])
  }

  /** The ledger after the pending listing: every pending record annotated in place. */
  function AnnotateLedger(os: seq<Order>, ps: seq<Product>): seq<Order>
  {
    AnnotateFirst(os, |os|, ps)
  }

  /** The ledger with the order at position k annotated in place. */
  function AnnotateAt(os: seq<Order>, k: int, ps: seq<Product>): seq<Order>
    requires 0 <= k < |os|
  {
    os[k := Annotate(os[k], ps)]
  }

  /** One more record of the ledger visited by the listing's loop. */
  lemma AnnotateStep(os: seq<Order>, n: int, ps: seq<Product>)
    requires 0 <= n < |os|
    ensures AnnotateFirst(os, n, ps)[n] == os[n]
    ensures AnnotateFirst(os, n + 1, ps) ==
      if os[n].status == Pending then AnnotateAt(AnnotateFirst(os, n, ps), n, ps) else AnnotateFirst(os, n, ps)
  {
  }

  /** The annotated ledger satisfies the same ledger invariant as the one it came from. */
  lemma AnnotateLedgerValid(os: seq<Order>, ps: seq<Product>, counter: int)
    requires OrdersValid(os, counter)
    ensures OrdersValid(AnnotateLedger(os, ps), counter)
  {
  }

  /**
   * What the pending listing holds: only pending orders, each the annotated copy
   * of a pending order of the ledger, and the annotated copy of every one of them.
   */
  lemma {:induction false} PendingViewMembers(os: seq<Order>, ps: seq<Product>)
    ensures forall o :: o in PendingView(os, ps) ==>
      o.status == Pending && exists k :: 0 <= k < |os| && os[k].status == Pending && o == Annotate(os[k], ps)
    ensures forall k :: 0 <= k < |os| && os[k].status == Pending ==> Annotate(os[k], ps) in PendingView(os, ps)
  {
    if os != [] {
      var init := os[..|os| - 1];
      PendingViewMembers(init, ps);
      assert forall k :: 0 <= k < |init| ==> init[k] == os[k];
    }
  }

  /** A user's listing: that user's approved orders, in ledger order. */
  function ApprovedFor(os: seq<Order>, userId: string): (r: seq<Order>)
    ensures |r| <= |os|
    ensures forall o :: o in r <==> o in os && o.userId == userId && o.status == Approved
  {
    if os == [] then []
    else
      var init := os[..|os| - 1];
      var last := os[|os| - 1];
      var rest := ApprovedFor(init, userId);
      assert os == init + [last];
      if last.userId == userId && last.status == Approved then rest + [last] else rest
  }

  /** Extending the ledger prefix by one order extends the pending listing by at most that order. */
  lemma PendingViewStep(os: seq<Order>, k: int, ps: seq<Product>)
    requires 0 <= k < |os|
    ensures PendingView(os[..k + 1], ps) ==
      PendingView(os[..k], ps) + if os[k].status == Pending then [Annotate(os[k], ps)] else []
  {
    assert os[..k + 1][..k] == os[..k];
  }

  /** Removing no product leaves the catalog as it was. */
  lemma {:induction false} WithoutAbsentId(ps: seq<Product>, id: int)
    requires !HasProduct(ps, id)
    ensures WithoutId(ps, id) == ps
  {
    if ps != [] {
      var init := ps[..|ps| - 1];
      assert !HasProduct(init, id) by {
        forall i | 0 <= i < |init| ensures init[i].id != id {
          assert init[i] == ps[i];
        }
      }
      WithoutAbsentId(init, id);
      assert ps == init + [ps[|ps| - 1]];
    }
  }

  /** Dropping the last product keeps the ids increasing, and the last id no longer occurs. */
  lemma DropLastIncreasing(ps: seq<Product>)
    requires ProductIdsIncreasing(ps) && ps != []
    ensures ProductIdsIncreasing(ps[..|ps| - 1])
    ensures !HasProduct(ps[..|ps| - 1], ps[|ps| - 1].id)
  {
  }

  /**
   * With distinct ids, deleting the product at position i (what the handler's
   * pop does) is the same as filtering out its id: exactly that product goes,
   * and the others keep their relative order.
   */
  lemma {:induction false} RemoveAtIsWithoutId(ps: seq<Product>, i: int)
    requires ProductIdsIncreasing(ps)
    requires 0 <= i < |ps|
    ensures ps[..i] + ps[i + 1..] == WithoutId(ps, ps[i].id)
  {
    var n := |ps| - 1;
    var init := ps[..n];
    var id := ps[i].id;
    DropLastIncreasing(ps);
    if i == n {
      WithoutAbsentId(init, id);
      assert ps[..i] + ps[i + 1..] == init;
    } else {
      assert init[i] == ps[i] && ps[n].id != id;
      RemoveAtIsWithoutId(init, i);
      assert init[..i] == ps[..i];
      assert init[i + 1..] + [ps[n]] == ps[i + 1..];
      assert WithoutId(ps, id) == WithoutId(init, id) + [ps[n]];
    }
  }

  /** Removing the product at position i keeps the catalog valid. */
  lemma DropAtValid(ps: seq<Product>, i: int)
    requires ProductsValid(ps) && 0 <= i < |ps|
    ensures ProductsValid(ps[..i] + ps[i + 1..])
  {
  }

  /** The ledger with the status of the order at position k overwritten. */
  function WithStatus(os: seq<Order>, k: int, d: Status): seq<Order>
    requires 0 <= k < |os|
  {
    os[k := os[k].(status := d)]
  }

  /** The catalog with one unit taken from the product at position j. */
  function TakeUnit(ps: seq<Product>, j: int): seq<Product>
    requires 0 <= j < |ps|
  {
    ps[j := ps[j].(stock := ps[j].stock - 1)]
  }

  /** Writing an order's status keeps the ledger valid. */
  lemma SetStatusValid(os: seq<Order>, counter: int, k: int, d: Status)
    requires OrdersValid(os, counter) && 0 <= k < |os|
    ensures OrdersValid(WithStatus(os, k, d), counter)
  {
  }

  /** Replacing a product by a validated one with the same id keeps the catalog valid. */
  lemma ReplaceValid(ps: seq<Product>, i: int, p: Product)
    requires ProductsValid(ps) && 0 <= i < |ps| && p.id == ps[i].id
    requires p.name != [] && p.price > 0 && p.stock >= 0
    ensures ProductsValid(ps[i := p])
  {
  }

  /** Taking one unit from a product that has stock keeps the catalog valid. */
  lemma TakeUnitValid(ps: seq<Product>, j: int)
    requires ProductsValid(ps) && 0 <= j < |ps| && ps[j].stock > 0
    ensures ProductsValid(TakeUnit(ps, j))
  {
  }

  /** The pending listing keeps the ledger's order: its ids still grow. */
  lemma {:induction false} PendingViewIncreasing(os: seq<Order>, ps: seq<Product>)
    requires OrderIdsIncreasing(os)
    ensures OrderIdsIncreasing(PendingView(os, ps))
  {
    if os != [] {
      var init := os[..|os| - 1];
      var last := os[|os| - 1];
      assert OrderIdsIncreasing(init) by {
        forall a, b | 0 <= a < b < |init| ensures init[a].orderId < init[b].orderId {
          assert init[a] == os[a] && init[b] == os[b];
        }
      }
      PendingViewIncreasing(init, ps);
      PendingViewMembers(init, ps);
      var rest := PendingView(init, ps);
      if last.status == Pending {
        var r := rest + [Annotate(last, ps)];
        forall a, b | 0 <= a < b < |r| ensures r[a].orderId < r[b].orderId {
          if b == |rest| {
            assert r[a] in rest;
            var k :| 0 <= k < |init| && init[k].status == Pending && r[a] == Annotate(init[k], ps);
            assert init[k] == os[k];
          } else {
            assert r[a] == rest[a] && r[b] == rest[b];
          }
        }
      }
    }
  }

  /** The user listing keeps the ledger's order: its ids still grow. */
  lemma {:induction false} ApprovedForIncreasing(os: seq<Order>, userId: string)
    requires OrderIdsIncreasing(os)
    ensures OrderIdsIncreasing(ApprovedFor(os, userId))
  {
    if os != [] {
      var init := os[..|os| - 1];
      var last := os[|os| - 1];
      assert OrderIdsIncreasing(init) by {
        forall a, b | 0 <= a < b < |init| ensures init[a].orderId < init[b].orderId {
          assert init[a] == os[a] && init[b] == os[b];
        }
      }
      ApprovedForIncreasing(init, userId);
      var rest := ApprovedFor(init, userId);
      if last.userId == userId && last.status == Approved {
        var r := rest + [last];
        forall a, b | 0 <= a < b < |r| ensures r[a].orderId < r[b].orderId {
          if b == |rest| {
            assert r[a] in init;
            var k :| 0 <= k < |init| && init[k] == r[a];
            assert init[k] == os[k];
          } else {
            assert r[a] == rest[a] && r[b] == rest[b];
          }
        }
      }
    }
  }
}
