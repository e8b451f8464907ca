/**
 * shop-svc: the cart in Redis, its snapshot into parallel arrays, and checkout, which publishes
 * the snapshot and then clears the cart.
 *
 * One user's operations do not overlap: each is a read-modify-write with no lock.
 */
module Cart {
  import opened Prelude

  datatype Item = Item(productId: string, qty: int)

  // What is stored under a cart key. Text that does not parse reads as an empty cart.
  datatype Stored = Lines(items: seq<Item>) | Garbage

  datatype Snapshot = Snapshot(correlationId: string, userId: string, cartId: string,
                               productIds: seq<string>, quantities: seq<int>)

  datatype ShopError = BadQuantity | ProductNotFound | CartEmpty | PublishFailed | ClearFailed

  // How the publisher's send ends: the broker has the event, it does not, or it has but the caller sees an error.
  datatype Send = Accepted | Refused | Ambiguous

  /* ---------- carts as values ---------- */

  function IndexOf(items: seq<Item>, p: string): nat {
    if items == [] || items[0].productId == p then 0 else 1 + IndexOf(items[1..], p)
  }

  function Added(items: seq<Item>, p: string, q: int): seq<Item> {
    if items == [] then [Item(p, q)]
    else if items[0].productId == p then [Item(p, items[0].qty + q)] + items[1..]
    else [items[0]] + Added(items[1..], p, q)
  }

  function Units(items: seq<Item>, p: string): int {
    if items == [] then 0
    else (if items[0].productId == p then items[0].qty else 0) + Units(items[1..], p)
  }

  // Units of a product in a snapshot's parallel arrays.
  function ArrayUnits(ids: seq<string>, qtys: seq<int>, p: string): int
    requires |ids| == |qtys|
  {
    if ids == [] then 0
    else (if ids[0] == p then qtys[0] else 0) + ArrayUnits(ids[1..], qtys[1..], p)
  }

  function Ids(items: seq<Item>): seq<string> {
    seq(|items|, i requires 0 <= i < |items| => items[i].productId)
  }

  function Qtys(items: seq<Item>): seq<int> {
    seq(|items|, i requires 0 <= i < |items| => items[i].qty)
  }

  function Snap(items: seq<Item>, corr: string, user: string, cartId: string): Snapshot {
    Snapshot(corr, user, cartId, Ids(items), Qtys(items))
  }

  // Position i of the arrays is line i of the cart.
  ghost predicate HoldsLines(e: Snapshot, items: seq<Item>) {
    && |e.productIds| == |items| && |e.quantities| == |items|
    && forall i | 0 <= i < |items| :: e.productIds[i] == items[i].productId && e.quantities[i] == items[i].qty
  }

  ghost predicate Positive(items: seq<Item>) {
    forall i | 0 <= i < |items| :: items[i].qty >= 1
  }

  ghost predicate OneLineEach(items: seq<Item>) {
    forall i, j | 0 <= i < j < |items| :: items[i].productId != items[j].productId
  }

  lemma {:induction false} IndexOfFinds(items: seq<Item>, p: string)
    ensures var k := IndexOf(items, p);
      && k <= |items| && (k < |items| ==> items[k].productId == p)
      && (forall i | 0 <= i < k :: items[i].productId != p)
  {
    if items != [] && items[0].productId != p {
      IndexOfFinds(items[1..], p);
    }
  }

  // Adding in place at the first matching line, or at the end.
  lemma {:induction false} AddedAt(items: seq<Item>, p: string, q: int)
    ensures var k := IndexOf(items, p);
      && k <= |items|
      && Added(items, p, q) == if k < |items| then items[k := Item(p, items[k].qty + q)] else items + [Item(p, q)]
  {
    if items != [] && items[0].productId != p {
      AddedAt(items[1..], p, q);
    }
  }

  /** Adding q units of p adds exactly q units of p and nothing else. */
  lemma {:induction false} AddedUnits(items: seq<Item>, p: string, q: int, r: string)
    ensures Units(Added(items, p, q), r) == Units(items, r) + (if r == p then q else 0)
  {
    if items != [] && items[0].productId != p {
      AddedUnits(items[1..], p, q, r);
    }
  }

  lemma AddedKeepsShape(items: seq<Item>, p: string, q: int)
    requires Positive(items) && OneLineEach(items) && q >= 1
    ensures Positive(Added(items, p, q)) && OneLineEach(Added(items, p, q))
  {
    AddedAt(items, p, q);
    IndexOfFinds(items, p);
  }

  /** The snapshot holds, product by product, the units of the cart. */
  lemma {:induction false} SnapUnits(items: seq<Item>, p: string)
    ensures ArrayUnits(Ids(items), Qtys(items), p) == Units(items, p)
  {
    if items != [] {
      assert Ids(items)[1..] == Ids(items[1..]) && Qtys(items)[1..] == Qtys(items[1..]);
      SnapUnits(items[1..], p);
    }
  }

  lemma {:induction false} UnitsNotNegative(items: seq<Item>, p: string)
    requires Positive(items)
    ensures Units(items, p) >= 0
  {
    if items != [] {
      UnitsNotNegative(items[1..], p);
    }
  }

  /* ---------- the service ---------- */

  datatype Op =
    | Add(user: string, product: string, qty: int)
    | Checkout(user: string, correlationId: string, cartId: string, send: Send, cleared: bool)

  datatype Shop = Shop(carts: map<string, seq<Item>>, published: seq<Snapshot>)

  function CartOf(s: Shop, u: string): seq<Item> {
    if u in s.carts then s.carts[u] else []
  }

  // One request. `cleared` is false when the process dies, or Redis fails, between publish and clear.
  function Apply(s: Shop, products: set<string>, op: Op): Shop {
    match op
    case Add(u, p, q) =>
      if q < 1 || p !in products then s else s.(carts := s.carts[u := Added(CartOf(s, u), p, q)])
    case Checkout(u, corr, cartId, send, cleared) =>
      var items := CartOf(s, u);
      if items == [] || send.Refused? then s
      else
        var published := s.published + [Snap(items, corr, u, cartId)];
        if send.Accepted? && cleared then Shop(s.carts - {u}, published) else s.(published := published)
  }

  class ShopService {
    const products: set<string>
    var redis: map<string, Stored>
    var published: seq<Snapshot>

    constructor (products: set<string>)
      ensures redis == map[] && published == [] && this.products == products
    {
      this.products, redis, published := products, map[], [];
    }

    static function CartKey(userId: string): string {
      "cart:" + userId
    }

    static lemma KeysDiffer(u: string, v: string)
      ensures CartKey(u) == CartKey(v) ==> u == v
    {
      assert CartKey(u)[5..] == u && CartKey(v)[5..] == v;
    }

    function ItemsOf(userId: string): seq<Item>
      reads this
    {
      if CartKey(userId) in redis && redis[CartKey(userId)].Lines? then redis[CartKey(userId)].items else []
    }

    // The carts and publications as a value, for the users that have a cart.
    ghost predicate Shows(s: Shop)
      reads this
    {
      s.published == published && forall u :: ItemsOf(u) == CartOf(s, u)
    }

    method GetCart(userId: string) returns (items: seq<Item>)
      ensures items == ItemsOf(userId)
    {
      items := [];
      if CartKey(userId) in redis {
        var raw := redis[CartKey(userId)];
        if raw.Lines? {
          items := raw.items;
        }
      }
    }

    method FindIndex(items: seq<Item>, productId: string) returns (idx: int)
      ensures if IndexOf(items, productId) < |items| then idx == IndexOf(items, productId) else idx == -1
    {
      IndexOfFinds(items, productId);
      idx := 0;
      while idx < |items|
        invariant 0 <= idx <= |items|
        invariant forall i | 0 <= i < idx :: items[i].productId != productId
      {
        if items[idx].productId == productId {
          return;
        }
        idx := idx + 1;
      }
      idx := -1;
    }

    method AddToCart(userId: string, productId: string, qty: int) returns (r: Result<seq<Item>, ShopError>)
      modifies `redis
      ensures r.Err? ==> redis == old(redis)
      ensures r == if qty < 1 then Err(BadQuantity) else if productId !in products then Err(ProductNotFound)
                   else Ok(Added(old(ItemsOf(userId)), productId, qty))
      ensures r.Ok? ==> redis == old(redis)[CartKey(userId) := Lines(r.value)]
      ensures forall s | old(Shows(s)) :: Shows(Apply(s, products, Add(userId, productId, qty)))
    {
      if qty < 1 {
        return Err(BadQuantity);
      }
      if productId !in products {
        return Err(ProductNotFound);
      }
      var items := GetCart(userId);
      var idx := FindIndex(items, productId);
      AddedAt(items, productId, qty);
      if idx >= 0 {
        items := items[idx := Item(productId, items[idx].qty + qty)];
      } else {
        items := items + [Item(productId, qty)];
      }
      redis := redis[CartKey(userId) := Lines(items)];
      r := Ok(items);
      forall u ensures ItemsOf(u) == if u == userId then items else old(ItemsOf(u)) {
        KeysDiffer(u, userId);
      }
    }

    method ClearCart(userId: string)
      modifies `redis
      ensures redis == old(redis) - {CartKey(userId)}
      ensures forall u :: ItemsOf(u) == if u == userId then [] else old(ItemsOf(u))
    {
      redis := redis - {CartKey(userId)};
      forall u ensures ItemsOf(u) == if u == userId then [] else old(ItemsOf(u)) {
        KeysDiffer(u, userId);
      }
    }

    method BuildCheckoutPayload(userId: string, correlationId: string, cartId: string)
        returns (r: Result<Snapshot, ShopError>)
      ensures r == if ItemsOf(userId) == [] then Err(CartEmpty) else Ok(Snap(ItemsOf(userId), correlationId, userId, cartId))
      ensures r.Ok? ==> r.value.correlationId == correlationId && r.value.userId == userId && r.value.cartId == cartId
      ensures r.Ok? ==> HoldsLines(r.value, ItemsOf(userId))
    {
      var items := GetCart(userId);
      if items == [] {
        return Err(CartEmpty);
      }
      var productIds, quantities := [], [];
      var i := 0;
      while i < |items|
        invariant 0 <= i <= |items|
        invariant productIds == Ids(items)[..i] && quantities == Qtys(items)[..i]
      {
        productIds := productIds + [items[i].productId];
        quantities := quantities + [items[i].qty];
        i := i + 1;
      }
      assert Ids(items)[..i] == Ids(items) && Qtys(items)[..i] == Qtys(items);
      r := Ok(Snapshot(correlationId, userId, cartId, productIds, quantities));
    }

    method PublishCheckout(body: Snapshot, send: Send) returns (ok: bool)
      modifies `published
      ensures ok == send.Accepted?
      ensures published == old(published) + (if send.Refused? then [] else [body])
      ensures forall u :: ItemsOf(u) == old(ItemsOf(u))
    {
      if !send.Refused? {
        published := published + [body];
      }
      ok := send.Accepted?;
    }

    // The controller: snapshot, publish, then clear.
    method Checkout(userId: string, correlationId: string, cartId: string, send: Send, cleared: bool)
        returns (r: Result<Snapshot, ShopError>)
      modifies this
      ensures forall s | old(Shows(s)) ::
        Shows(Apply(s, products, Op.Checkout(userId, correlationId, cartId, send, cleared)))
      ensures r.Ok? <==> old(ItemsOf(userId)) != [] && send.Accepted? && cleared
      ensures r.Ok? ==> r.value == Snap(old(ItemsOf(userId)), correlationId, userId, cartId)
      ensures published == old(published)
        || (|published| == |old(published)| + 1 && published[..|old(published)|] == old(published)
            && var e := published[|old(published)|];
               e.correlationId == correlationId && e.userId == userId && e.cartId == cartId
               && HoldsLines(e, old(ItemsOf(userId))))
      ensures published != old(published) <==> old(ItemsOf(userId)) != [] && !send.Refused?
    {
      r := BuildCheckoutPayload(userId, correlationId, cartId);
      if r.Err? {
        return;
      }
      var ok := PublishCheckout(r.value, send);
      if !ok {
        return Err(PublishFailed);
      }
      if !cleared {
        return Err(ClearFailed);
      }
      ClearCart(userId);
    }
  }

  /* ---------- conservation ---------- */

  function Run(s: Shop, products: set<string>, ops: seq<Op>): Shop
    decreases |ops|
  {
    if ops == [] then s else Run(Apply(s, products, ops[0]), products, ops[1..])
  }

  function PublishedUnits(published: seq<Snapshot>, u: string, p: string): int {
    if published == [] then 0
    else (if published[0].userId == u && |published[0].productIds| == |published[0].quantities|
          then ArrayUnits(published[0].productIds, published[0].quantities, p) else 0)
         + PublishedUnits(published[1..], u, p)
  }

  // Units that requests put into u's cart.
  function AddedBy(products: set<string>, ops: seq<Op>, u: string, p: string): int {
    if ops == [] then 0
    else (if ops[0].Add? && ops[0].user == u && ops[0].product == p && ops[0].qty >= 1 && p in products then ops[0].qty else 0)
         + AddedBy(products, ops[1..], u, p)
  }

  // A checkout whose event is out and whose cart is still there.
  predicate Leaks(s: Shop, op: Op) {
    op.Checkout? && !op.send.Refused? && !(op.send.Accepted? && op.cleared) && CartOf(s, op.user) != []
  }

  // Units left in u's cart although an event with them was published.
  function LeakedBy(s: Shop, products: set<string>, ops: seq<Op>, u: string, p: string): int
    decreases |ops|
  {
    if ops == [] then 0
    else (if Leaks(s, ops[0]) && ops[0].user == u then Units(CartOf(s, u), p) else 0)
         + LeakedBy(Apply(s, products, ops[0]), products, ops[1..], u, p)
  }

  ghost predicate CartsOk(s: Shop) {
    forall u | u in s.carts :: Positive(s.carts[u]) && OneLineEach(s.carts[u])
  }

  lemma ApplyPublishes(s: Shop, products: set<string>, op: Op)
    ensures var t := Apply(s, products, op);
      || t.published == s.published
      || (op.Checkout? && |t.published| == |s.published| + 1 && t.published[..|s.published|] == s.published
          && var e := t.published[|s.published|];
             e.correlationId == op.correlationId && e.userId == op.user && e.cartId == op.cartId
             && HoldsLines(e, CartOf(s, op.user)))
  {}

  lemma {:induction false} PublishedStays(s: Shop, products: set<string>, ops: seq<Op>)
    ensures s.published <= Run(s, products, ops).published
    decreases |ops|
  {
    if ops != [] {
      ApplyPublishes(s, products, ops[0]);
      PublishedStays(Apply(s, products, ops[0]), products, ops[1..]);
    }
  }

  /** Every event a history publishes is the snapshot of one of its checkouts: that request's
      correlation id, user and cart id, and line by line the cart as it then was. */
  lemma {:induction false} EventsAreSnapshots(s: Shop, products: set<string>, ops: seq<Op>, k: nat) returns (j: nat)
    requires |s.published| <= k < |Run(s, products, ops).published|
    ensures j < |ops| && ops[j].Checkout?
    ensures var e := Run(s, products, ops).published[k];
      && e.correlationId == ops[j].correlationId && e.userId == ops[j].user && e.cartId == ops[j].cartId
      && HoldsLines(e, CartOf(Run(s, products, ops[..j]), ops[j].user))
    decreases |ops|
  {
    var t := Apply(s, products, ops[0]);
    ApplyPublishes(s, products, ops[0]);
    if k < |t.published| {
      j := 0;
      PublishedStays(t, products, ops[1..]);
      assert ops[..0] == [];
    } else {
      var i := EventsAreSnapshots(t, products, ops[1..], k);
      j := i + 1;
      assert ops[..j][1..] == ops[1..][..i] && ops[..j][0] == ops[0];
    }
  }

  /* ---------- users do not meet ---------- */

  // What u sees of the shop: the cart, and u's own checkout events.
  function SeenBy(s: Shop, u: string): (seq<Item>, seq<Snapshot>) {
    (CartOf(s, u), EventsOf(s.published, u))
  }

  function EventsOf(published: seq<Snapshot>, u: string): seq<Snapshot> {
    if published == [] then []
    else if published[0].userId == u then [published[0]] + EventsOf(published[1..], u)
    else EventsOf(published[1..], u)
  }

  function RequestsOf(ops: seq<Op>, u: string): seq<Op> {
    if ops == [] then []
    else if ops[0].user == u then [ops[0]] + RequestsOf(ops[1..], u)
    else RequestsOf(ops[1..], u)
  }

  lemma {:induction false} EventsOfAppend(a: seq<Snapshot>, x: Snapshot, u: string)
    ensures EventsOf(a + [x], u) == if x.userId == u then EventsOf(a, u) + [x] else EventsOf(a, u)
  {
    var b := a + [x];
    if a == [] {
      assert b[0] == x && b[1..] == [];
    } else {
      EventsOfAppend(a[1..], x, u);
      assert b[0] == a[0] && b[1..] == a[1..] + [x];
      if x.userId == u {
        AppendInside(a[0], EventsOf(a[1..], u), x);
      }
    }
  }

  lemma AppendInside(first: Snapshot, rest: seq<Snapshot>, x: Snapshot)
    ensures [first] + (rest + [x]) == ([first] + rest) + [x]
  {}

  lemma ApplyIsOwn(s: Shop, s': Shop, products: set<string>, op: Op, u: string)
    requires SeenBy(s, u) == SeenBy(s', u)
    ensures op.user == u ==> SeenBy(Apply(s, products, op), u) == SeenBy(Apply(s', products, op), u)
    ensures op.user != u ==> SeenBy(Apply(s, products, op), u) == SeenBy(s, u)
  {
    if op.Checkout? {
      EventsOfAppend(s.published, Snap(CartOf(s, op.user), op.correlationId, op.user, op.cartId), u);
      EventsOfAppend(s'.published, Snap(CartOf(s', op.user), op.correlationId, op.user, op.cartId), u);
    }
  }

  /** However the requests of different users are mixed, a user's cart and checkout events are those
      of the user's own requests alone. */
  lemma {:induction false} UsersDoNotMeet(s: Shop, s': Shop, products: set<string>, ops: seq<Op>, u: string)
    requires SeenBy(s, u) == SeenBy(s', u)
    ensures SeenBy(Run(s, products, ops), u) == SeenBy(Run(s', products, RequestsOf(ops, u)), u)
    decreases |ops|
  {
    if ops != [] {
      ApplyIsOwn(s, s', products, ops[0], u);
      var t := Apply(s, products, ops[0]);
      if ops[0].user == u {
        var mine := RequestsOf(ops, u);
        assert mine[0] == ops[0] && mine[1..] == RequestsOf(ops[1..], u);
        UsersDoNotMeet(t, Apply(s', products, ops[0]), products, ops[1..], u);
      } else {
        assert RequestsOf(ops, u) == RequestsOf(ops[1..], u);
        UsersDoNotMeet(t, s', products, ops[1..], u);
      }
    }
  }

  lemma ApplyKeepsCartsOk(s: Shop, products: set<string>, op: Op)
    requires CartsOk(s)
    ensures CartsOk(Apply(s, products, op))
  {
    if op.Add? && op.qty >= 1 {
      AddedKeepsShape(CartOf(s, op.user), op.product, op.qty);
    }
  }

  lemma {:induction false} PublishedAppend(a: seq<Snapshot>, x: Snapshot, u: string, p: string)
    ensures PublishedUnits(a + [x], u, p) == PublishedUnits(a, u, p) + PublishedUnits([x], u, p)
  {
    if a != [] {
      assert (a + [x])[1..] == a[1..] + [x];
      PublishedAppend(a[1..], x, u, p);
    } else {
      assert a + [x] == [x];
    }
  }

  // The books of one request balance.
  lemma ApplyBalances(s: Shop, products: set<string>, op: Op, u: string, p: string)
    ensures var t := Apply(s, products, op);
      Units(CartOf(t, u), p) + PublishedUnits(t.published, u, p)
      == Units(CartOf(s, u), p) + PublishedUnits(s.published, u, p)
         + AddedBy(products, [op], u, p) + LeakedBy(s, products, [op], u, p)
  {
    if op.Add? {
      AddedUnits(CartOf(s, op.user), op.product, op.qty, p);
    } else {
      var items := CartOf(s, op.user);
      SnapUnits(items, p);
      PublishedAppend(s.published, Snap(items, op.correlationId, op.user, op.cartId), u, p);
    }
  }

  /** For every history, user and product: units in the cart plus units in published events are
      exactly the units added plus the units that leaking checkouts left behind in the cart. */
  lemma {:induction false} Conservation(s: Shop, products: set<string>, ops: seq<Op>, u: string, p: string)
    ensures var t := Run(s, products, ops);
      Units(CartOf(t, u), p) + PublishedUnits(t.published, u, p)
      == Units(CartOf(s, u), p) + PublishedUnits(s.published, u, p)
         + AddedBy(products, ops, u, p) + LeakedBy(s, products, ops, u, p)
    decreases |ops|
  {
    if ops != [] {
      ApplyBalances(s, products, ops[0], u, p);
      Conservation(Apply(s, products, ops[0]), products, ops[1..], u, p);
    }
  }

  lemma {:induction false} LeaksAreNotNegative(s: Shop, products: set<string>, ops: seq<Op>, u: string, p: string)
    requires CartsOk(s)
    ensures LeakedBy(s, products, ops, u, p) >= 0
    decreases |ops|
  {
    if ops != [] {
      if u in s.carts {
        UnitsNotNegative(s.carts[u], p);
      }
      ApplyKeepsCartsOk(s, products, ops[0]);
      LeaksAreNotNegative(Apply(s, products, ops[0]), products, ops[1..], u, p);
    }
  }

  /** From the empty shop no unit added is ever lost: it is in the cart or in a published event.
      Nothing is counted twice exactly when no leaking checkout left units of the product behind. */
  lemma NothingIsLost(products: set<string>, ops: seq<Op>, u: string, p: string)
    ensures var t := Run(Shop(map[], []), products, ops);
      && Units(CartOf(t, u), p) + PublishedUnits(t.published, u, p) >= AddedBy(products, ops, u, p)
      && (Units(CartOf(t, u), p) + PublishedUnits(t.published, u, p) == AddedBy(products, ops, u, p)
          <==> LeakedBy(Shop(map[], []), products, ops, u, p) == 0)
  {
    Conservation(Shop(map[], []), products, ops, u, p);
    LeaksAreNotNegative(Shop(map[], []), products, ops, u, p);
  }
}
