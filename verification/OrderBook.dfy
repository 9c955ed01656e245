/**
 The price-level index of the correctness checker
 (apps/ingester/internal/correctness/orderbook.go).

 The book keeps, for each side, levels sorted by price with a first-come list
 of orders inside each level. Its meaning is much simpler: a flat list of the
 resting orders in order of arrival. `Represents` ties the two together.
 */
module OrderBooks {
  import opened Sorting

  datatype Order = Order(orderID: string, symbol: string, side: string, orderType: string,
                         quantity: int, price: real, sentAtNs: int)

  datatype BookLevel = BookLevel(price: real, orders: seq<Order>)

  /** Bids are kept high to low, asks low to high. */
  predicate Better(p: real, q: real, descending: bool) {
    if descending then p > q else p < q
  }

  /** The arrival-order filter of a flat list at one price. */
  function AtPrice(flat: seq<Order>, p: real): seq<Order> {
    if flat == [] then []
    else if flat[0].price == p then [flat[0]] + AtPrice(flat[1..], p)
    else AtPrice(flat[1..], p)
  }

  /** The levels index exactly the orders of `flat`. */
  ghost predicate Represents(levels: seq<BookLevel>, flat: seq<Order>, descending: bool) {
    && (forall i, j :: 0 <= i < j < |levels| ==> Better(levels[i].price, levels[j].price, descending))
    && (forall i :: 0 <= i < |levels| ==> levels[i].orders != [] && levels[i].orders == AtPrice(flat, levels[i].price))
    && (forall o :: o in flat ==> HasLevel(levels, o.price))
  }

  ghost predicate HasLevel(levels: seq<BookLevel>, p: real) {
    exists i :: 0 <= i < |levels| && levels[i].price == p
  }

  ghost predicate HasID(flat: seq<Order>, id: string) {
    exists o :: o in flat && o.orderID == id
  }

  /** Delete the first order with this ID. */
  function RemoveFirst(orders: seq<Order>, id: string): seq<Order> {
    if orders == [] then []
    else if orders[0].orderID == id then orders[1..]
    else [orders[0]] + RemoveFirst(orders[1..], id)
  }

  /** Delete the first order with this ID and this price. */
  function RemoveFirstAt(flat: seq<Order>, id: string, p: real): seq<Order> {
    if flat == [] then []
    else if flat[0].orderID == id && flat[0].price == p then flat[1..]
    else [flat[0]] + RemoveFirstAt(flat[1..], id, p)
  }

  /** `p` is the best price among the orders with this ID. */
  ghost predicate IsBestPriceOf(flat: seq<Order>, id: string, descending: bool, p: real) {
    && (exists o :: o in flat && o.orderID == id && o.price == p)
    && (forall o :: o in flat && o.orderID == id ==> !Better(o.price, p, descending))
  }

  function BestPriceOf(flat: seq<Order>, id: string, descending: bool): (p: real)
    requires HasID(flat, id)
    ensures IsBestPriceOf(flat, id, descending, p)
  {
    if flat[0].orderID != id then
      assert HasID(flat[1..], id);
      BestPriceOf(flat[1..], id, descending)
    else if RemoveFirst(flat[1..], id) == flat[1..] then
      RemoveFirstNone(flat[1..], id);
      flat[0].price
    else
      RemoveFirstNone(flat[1..], id);
      var q := BestPriceOf(flat[1..], id, descending);
      if Better(q, flat[0].price, descending) then q else flat[0].price
  }

  lemma RemoveFirstNone(orders: seq<Order>, id: string)
    ensures RemoveFirst(orders, id) == orders <==> !HasID(orders, id)
  {
    if orders != [] && orders[0].orderID != id {
      RemoveFirstNone(orders[1..], id);
    } else if orders != [] {
      assert orders[0] in orders;
      assert |RemoveFirst(orders, id)| < |orders|;
    }
  }

  /**
   What a cancel does to one side of the flat list: among the orders with that
   ID, the best-priced one goes, and of equally priced ones the earliest.
   */
  ghost function Cancelled(flat: seq<Order>, id: string, descending: bool): seq<Order> {
    if HasID(flat, id) then RemoveFirstAt(flat, id, BestPriceOf(flat, id, descending)) else flat
  }

  /**
   One side loses one order of the ID, if it has any: a best-priced one, and among
   equal prices the one that came first.
   */
  ghost predicate LosesOne(before: seq<Order>, after: seq<Order>, id: string, descending: bool) {
    if forall i :: 0 <= i < |before| ==> before[i].orderID != id then after == before
    else exists i :: LosesAt(before, after, id, descending, i)
  }

  ghost predicate LosesAt(before: seq<Order>, after: seq<Order>, id: string, descending: bool, i: int) {
    && 0 <= i < |before| && before[i].orderID == id && after == before[..i] + before[i + 1..]
    && forall j :: 0 <= j < |before| && before[j].orderID == id ==>
      && (if descending then before[j].price <= before[i].price else before[j].price >= before[i].price)
      && (before[j].price == before[i].price ==> i <= j)
  }

  lemma {:induction false} RemovesFirstAt(flat: seq<Order>, id: string, p: real) returns (i: nat)
    requires exists o :: o in flat && o.orderID == id && o.price == p
    ensures i < |flat| && flat[i].orderID == id && flat[i].price == p
    ensures RemoveFirstAt(flat, id, p) == flat[..i] + flat[i + 1..]
    ensures forall j :: 0 <= j < i ==> !(flat[j].orderID == id && flat[j].price == p)
  {
    assert flat == [flat[0]] + flat[1..];
    if flat[0].orderID == id && flat[0].price == p {
      i := 0;
    } else {
      var k := RemovesFirstAt(flat[1..], id, p);
      i := k + 1;
      assert flat[..i] == [flat[0]] + flat[1..][..k];
      assert flat[i + 1..] == flat[1..][k + 1..];
      forall j | 0 <= j < i ensures !(flat[j].orderID == id && flat[j].price == p) {
        if j > 0 { assert flat[j] == flat[1..][j - 1]; }
      }
    }
  }

  lemma {:induction false} CancelledLosesOne(flat: seq<Order>, id: string, descending: bool)
    ensures LosesOne(flat, Cancelled(flat, id, descending), id, descending)
  {
    if HasID(flat, id) {
      var p := BestPriceOf(flat, id, descending);
      var i := RemovesFirstAt(flat, id, p);
      forall j | 0 <= j < |flat| && flat[j].orderID == id ensures !Better(flat[j].price, p, descending) {
        assert flat[j] in flat;
      }
      assert LosesAt(flat, Cancelled(flat, id, descending), id, descending, i);
    } else {
      assert forall i :: 0 <= i < |flat| ==> flat[i] in flat;
    }
  }

  /** `queue` holds the orders of `flat` at price `p`, found at the rising positions `at`, and no other is at that price. */
  ghost predicate FirstCome(flat: seq<Order>, p: real, queue: seq<Order>, at: seq<nat>) {
    && |at| == |queue|
    && (forall k :: 0 <= k < |at| ==> at[k] < |flat| && flat[at[k]] == queue[k] && queue[k].price == p)
    && (forall j, k :: 0 <= j < k < |at| ==> at[j] < at[k])
    && (forall i: nat :: i < |flat| && flat[i].price == p ==> i in at)
  }

  /** A level queues the orders at its price in order of arrival, all of them. */
  lemma {:induction false} LevelIsFirstCome(flat: seq<Order>, p: real) returns (at: seq<nat>)
    ensures FirstCome(flat, p, AtPrice(flat, p), at)
  {
    if flat == [] {
      at := [];
    } else {
      var front, o := flat[..|flat| - 1], flat[|flat| - 1];
      assert flat == front + [o];
      at := LevelIsFirstCome(front, p);
      AtPriceAppend(front, o, p);
      FirstComeAppend(front, p, AtPrice(front, p), at, o);
      if o.price == p {
        at := at + [|front|];
      } else {
        assert AtPrice(front, p) + [] == AtPrice(front, p);
      }
    }
  }

  lemma {:induction false} FirstComeAppend(flat: seq<Order>, p: real, queue: seq<Order>, at: seq<nat>, o: Order)
    requires FirstCome(flat, p, queue, at)
    ensures if o.price == p then FirstCome(flat + [o], p, queue + [o], at + [|flat|]) else FirstCome(flat + [o], p, queue, at)
  {
    var longer := flat + [o];
    assert longer[|flat|] == o && forall i :: 0 <= i < |flat| ==> longer[i] == flat[i];
    if o.price == p {
      var more := at + [|flat|];
      assert more[|at|] == |flat|;
      forall i: nat | i < |longer| && longer[i].price == p ensures i in more {
        if i < |flat| { assert i in at; }
      }
    }
  }

  // ---------- facts about the flat list ----------

  lemma AtPriceAppend(flat: seq<Order>, o: Order, p: real)
    ensures AtPrice(flat + [o], p) == AtPrice(flat, p) + (if o.price == p then [o] else [])
  {
    if flat != [] {
      assert (flat + [o])[1..] == flat[1..] + [o];
      AtPriceAppend(flat[1..], o, p);
    }
  }

  lemma AtPriceMembers(flat: seq<Order>, p: real)
    ensures forall o :: o in AtPrice(flat, p) <==> o in flat && o.price == p
  {
    if flat != [] {
      AtPriceMembers(flat[1..], p);
      assert flat == [flat[0]] + flat[1..];
    }
  }

  lemma NoneAtPrice(flat: seq<Order>, p: real)
    requires forall o :: o in flat ==> o.price != p
    ensures AtPrice(flat, p) == []
  {
  }

  lemma AtPriceRemove(flat: seq<Order>, id: string, p: real, q: real)
    ensures AtPrice(RemoveFirstAt(flat, id, p), q) ==
            if q == p then RemoveFirst(AtPrice(flat, p), id) else AtPrice(flat, q)
  {
    if flat != [] {
      AtPriceRemove(flat[1..], id, p, q);
    }
  }

  lemma RemoveFirstAtMembers(flat: seq<Order>, id: string, p: real)
    ensures forall o :: o in RemoveFirstAt(flat, id, p) ==> o in flat
  {
    if flat != [] {
      RemoveFirstAtMembers(flat[1..], id, p);
    }
  }

  /** A side with no level has no resting order, and the first level holds the extreme price. */
  lemma FirstLevelIsBest(levels: seq<BookLevel>, flat: seq<Order>, descending: bool)
    requires Represents(levels, flat, descending)
    ensures levels == [] <==> flat == []
    ensures levels != [] ==>
      && (exists o :: o in flat && o.price == levels[0].price)
      && (forall o :: o in flat ==> !Better(o.price, levels[0].price, descending))
  {
    if flat != [] {
      assert flat[0] in flat;
      assert HasLevel(levels, flat[0].price);
    }
    if levels != [] {
      AtPriceMembers(flat, levels[0].price);
      assert levels[0].orders[0] in AtPrice(flat, levels[0].price);
      forall o | o in flat ensures !Better(o.price, levels[0].price, descending) {
        assert HasLevel(levels, o.price);
      }
    }
  }

  /** The index is determined by the flat list, so two books over the same orders are equal. */
  lemma LevelsAreUnique(a: seq<BookLevel>, b: seq<BookLevel>, flat: seq<Order>, descending: bool)
    requires Represents(a, flat, descending) && Represents(b, flat, descending)
    ensures a == b
  {
    SameLevels(a, b, flat, descending, 0);
  }

  lemma LevelHasOrder(levels: seq<BookLevel>, flat: seq<Order>, descending: bool, i: nat)
    requires Represents(levels, flat, descending) && i < |levels|
    ensures exists o :: o in flat && o.price == levels[i].price
  {
    AtPriceMembers(flat, levels[i].price);
    assert levels[i].orders[0] in AtPrice(flat, levels[i].price);
  }

  /** A level of one index has its price among the levels of the other. */
  lemma LevelInOther(a: seq<BookLevel>, b: seq<BookLevel>, flat: seq<Order>, descending: bool, i: nat) returns (j: nat)
    requires Represents(a, flat, descending) && Represents(b, flat, descending) && i < |a|
    ensures j < |b| && b[j] == a[i]
  {
    LevelHasOrder(a, flat, descending, i);
    assert HasLevel(b, a[i].price);
    j :| 0 <= j < |b| && b[j].price == a[i].price;
    assert a[i].orders == b[j].orders;
  }

  lemma SameLevels(a: seq<BookLevel>, b: seq<BookLevel>, flat: seq<Order>, descending: bool, k: nat)
    requires Represents(a, flat, descending) && Represents(b, flat, descending)
    requires k <= |a| && k <= |b| && forall i :: 0 <= i < k ==> a[i] == b[i]
    ensures a == b
    decreases |a| - k
  {
    if k < |a| {
      var j := LevelInOther(a, b, flat, descending, k);
      var i := LevelInOther(b, a, flat, descending, k);
      assert j >= k && i >= k;
      assert a[k] == b[k];
      SameLevels(a, b, flat, descending, k + 1);
    } else if k < |b| {
      var i := LevelInOther(b, a, flat, descending, k);
      assert false;
    }
  }

  lemma RemoveFirstAtUnique(flat: seq<Order>, id: string, p: real)
    requires forall i, j :: 0 <= i < j < |flat| && flat[i].orderID == id ==> flat[j].orderID != id
    requires forall o :: o in flat && o.orderID == id ==> o.price == p
    ensures RemoveFirstAt(flat, id, p) == WithoutID(flat, id)
  {
    if flat != [] {
      if flat[0].orderID == id {
        forall o | o in flat[1..] ensures o.orderID != id {
          var j :| 0 <= j < |flat[1..]| && flat[1..][j] == o;
          assert flat[j + 1].orderID != id;
        }
        WithoutIDNone(flat[1..], id);
      } else {
        RemoveFirstAtUnique(flat[1..], id, p);
      }
    }
  }

  /** Every order with this ID deleted: what a cancel means when IDs are not shared. */
  function WithoutID(flat: seq<Order>, id: string): seq<Order> {
    if flat == [] then []
    else if flat[0].orderID == id then WithoutID(flat[1..], id)
    else [flat[0]] + WithoutID(flat[1..], id)
  }

  lemma WithoutIDMembers(flat: seq<Order>, id: string)
    ensures forall o :: o in WithoutID(flat, id) <==> o in flat && o.orderID != id
  {
    if flat != [] {
      WithoutIDMembers(flat[1..], id);
      assert flat == [flat[0]] + flat[1..];
    }
  }

  lemma WithoutIDNone(flat: seq<Order>, id: string)
    requires forall o :: o in flat ==> o.orderID != id
    ensures WithoutID(flat, id) == flat
  {
    if flat != [] {
      assert flat[0] in flat;
      WithoutIDNone(flat[1..], id);
    }
  }

  ghost predicate AtMostOne(flat: seq<Order>, id: string) {
    forall i, j :: 0 <= i < j < |flat| && flat[i].orderID == id ==> flat[j].orderID != id
  }

  /**
   A cancel deletes exactly the orders carrying its ID if and only if at most
   one such order rests on the side.
   */
  lemma CancelDeletesIDIff(flat: seq<Order>, id: string, descending: bool)
    ensures Cancelled(flat, id, descending) == WithoutID(flat, id) <==> AtMostOne(flat, id)
  {
    if !HasID(flat, id) {
      forall i | 0 <= i < |flat| ensures flat[i].orderID != id { assert flat[i] in flat; }
      WithoutIDNone(flat, id);
    } else {
      var p := BestPriceOf(flat, id, descending);
      if AtMostOne(flat, id) {
        RemoveFirstAtUnique(flat, id, p);
      } else {
        LengthsDiffer(flat, id, p);
      }
    }
  }

  lemma LengthsDiffer(flat: seq<Order>, id: string, p: real)
    requires !AtMostOne(flat, id)
    ensures |WithoutID(flat, id)| + 2 <= |flat| <= |RemoveFirstAt(flat, id, p)| + 1
  {
    RemoveFirstAtLength(flat, id, p);
    var i, j :| 0 <= i < j < |flat| && flat[i].orderID == id && flat[j].orderID == id;
    WithoutIDSplit(flat[..j], flat[j..], id);
    WithoutIDSplit(flat[..i], flat[i..j], id);
    assert flat[..j] + flat[j..] == flat && flat[..i] + flat[i..j] == flat[..j];
    assert flat[j..][0].orderID == id && flat[i..j][0].orderID == id;
    WithoutIDLength(flat[..i], id);
    WithoutIDLength(flat[i..j][1..], id);
    WithoutIDLength(flat[j..][1..], id);
  }

  lemma RemoveFirstAtLength(flat: seq<Order>, id: string, p: real)
    ensures |flat| <= |RemoveFirstAt(flat, id, p)| + 1
  {
  }

  lemma WithoutIDLength(flat: seq<Order>, id: string)
    ensures |WithoutID(flat, id)| <= |flat|
  {
  }

  lemma WithoutIDSplit(a: seq<Order>, b: seq<Order>, id: string)
    ensures WithoutID(a + b, id) == WithoutID(a, id) + WithoutID(b, id)
  {
    if a == [] {
      assert a + b == b;
    } else {
      assert (a + b)[1..] == a[1..] + b;
      WithoutIDSplit(a[1..], b, id);
    }
  }

  // ---------- the operations ----------

  method InsertLevel(levels: seq<BookLevel>, o: Order, descending: bool, ghost flat: seq<Order>)
    returns (r: seq<BookLevel>)
    requires Represents(levels, flat, descending)
    ensures Represents(r, flat + [o], descending)
  {
    for i := 0 to |levels|
      invariant forall k :: 0 <= k < i ==> levels[k].price != o.price
    {
      if levels[i].price == o.price {
        r := levels[i := levels[i].(orders := levels[i].orders + [o])];
        InsertIntoLevel(levels, flat, o, descending, i, r);
        return;
      }
    }
    var extended := levels + [BookLevel(o.price, [o])];
    r := SortSlice(extended, (l: BookLevel) => if descending then -l.price else l.price);
    InsertNewLevel(levels, flat, o, descending, r);
  }

  lemma InsertIntoLevel(levels: seq<BookLevel>, flat: seq<Order>, o: Order, descending: bool,
                        i: nat, r: seq<BookLevel>)
    requires Represents(levels, flat, descending)
    requires i < |levels| && levels[i].price == o.price
    requires r == levels[i := levels[i].(orders := levels[i].orders + [o])]
    ensures Represents(r, flat + [o], descending)
  {
    forall k | 0 <= k < |r| ensures r[k].orders != [] && r[k].orders == AtPrice(flat + [o], r[k].price) {
      AtPriceAppend(flat, o, r[k].price);
    }
    forall x | x in flat + [o] ensures HasLevel(r, x.price) {
      if x in flat {
        var k :| 0 <= k < |levels| && levels[k].price == x.price;
        assert r[k].price == x.price;
      } else {
        assert r[i].price == x.price;
      }
    }
  }

  lemma InsertNewLevel(levels: seq<BookLevel>, flat: seq<Order>, o: Order, descending: bool, r: seq<BookLevel>)
    requires Represents(levels, flat, descending)
    requires forall k :: 0 <= k < |levels| ==> levels[k].price != o.price
    requires multiset(r) == multiset(levels + [BookLevel(o.price, [o])])
    requires forall i, j :: 0 <= i < j < |r| ==> !Better(r[j].price, r[i].price, descending)
    ensures Represents(r, flat + [o], descending)
  {
    var extended := levels + [BookLevel(o.price, [o])];
    forall i, j | 0 <= i < j < |extended| ensures extended[i].price != extended[j].price {
      if j < |levels| { assert Better(levels[i].price, levels[j].price, descending); }
    }
    DistinctPricesPermute(extended, r);
    forall x | x in flat ensures x.price != o.price {
      assert HasLevel(levels, x.price);
    }
    NoneAtPrice(flat, o.price);
    forall k | 0 <= k < |r| ensures r[k].orders != [] && r[k].orders == AtPrice(flat + [o], r[k].price) {
      AtPriceAppend(flat, o, r[k].price);
      assert r[k] in multiset(extended);
      assert r[k] in extended;
    }
    forall x | x in flat + [o] ensures HasLevel(r, x.price) {
      var k: nat;
      if x in flat {
        assert HasLevel(levels, x.price);
        k :| k < |levels| && levels[k].price == x.price;
      } else {
        k := |levels|;
      }
      assert extended[k].price == x.price;
      assert extended[k] in multiset(r);
      assert extended[k] in r;
    }
  }

  lemma DistinctPricesPermute(a: seq<BookLevel>, b: seq<BookLevel>)
    requires multiset(a) == multiset(b)
    requires forall i, j :: 0 <= i < j < |a| ==> a[i].price != a[j].price
    ensures forall i, j :: 0 <= i < j < |b| ==> b[i].price != b[j].price
  {
    forall i, j | 0 <= i < j < |b| ensures b[i].price != b[j].price {
      if b[i] == b[j] {
        assert b == b[..i] + [b[i]] + b[i + 1..j] + [b[j]] + b[j + 1..];
        assert multiset(b)[b[i]] >= 2;
        OnceOnly(a, b[i]);
        assert false;
      }
      assert b[i] in multiset(a) && b[j] in multiset(a);
      var x :| 0 <= x < |a| && a[x] == b[i];
      var y :| 0 <= y < |a| && a[y] == b[j];
    }
  }

  lemma OnceOnly(a: seq<BookLevel>, l: BookLevel)
    requires forall i, j :: 0 <= i < j < |a| ==> a[i].price != a[j].price
    ensures multiset(a)[l] <= 1
  {
    if l in a {
      var k :| 0 <= k < |a| && a[k] == l;
      assert a == a[..k] + [l] + a[k + 1..];
      assert l !in a[..k] && l !in a[k + 1..];
    }
  }

  method RemoveFromLevels(levels: seq<BookLevel>, orderID: string, descending: bool, ghost flat: seq<Order>)
    returns (r: seq<BookLevel>)
    requires Represents(levels, flat, descending)
    ensures Represents(r, Cancelled(flat, orderID, descending), descending)
  {
    for i := 0 to |levels|
      invariant forall k :: 0 <= k < i ==> !HasID(levels[k].orders, orderID)
    {
      var orders := levels[i].orders;
      for j := 0 to |orders|
        invariant forall k :: 0 <= k < j ==> orders[k].orderID != orderID
      {
        if orders[j].orderID == orderID {
          var rest := orders[..j] + orders[j + 1..];
          RemoveFirstIs(orders, orderID, j);
          if |rest| == 0 {
            r := levels[..i] + levels[i + 1..];
          } else {
            r := levels[i := levels[i].(orders := rest)];
          }
          RemoveKeepsIndex(levels, flat, orderID, descending, i, rest, r);
          return;
        }
      }
    }
    r := levels;
    NothingToRemove(levels, flat, orderID, descending);
  }

  lemma RemoveFirstIs(orders: seq<Order>, id: string, j: nat)
    requires j < |orders| && orders[j].orderID == id
    requires forall k :: 0 <= k < j ==> orders[k].orderID != id
    ensures RemoveFirst(orders, id) == orders[..j] + orders[j + 1..]
  {
    if j > 0 {
      RemoveFirstIs(orders[1..], id, j - 1);
    }
  }

  lemma NothingToRemove(levels: seq<BookLevel>, flat: seq<Order>, id: string, descending: bool)
    requires Represents(levels, flat, descending)
    requires forall k :: 0 <= k < |levels| ==> !HasID(levels[k].orders, id)
    ensures !HasID(flat, id)
  {
    forall o | o in flat ensures o.orderID != id {
      var k :| 0 <= k < |levels| && levels[k].price == o.price;
      AtPriceMembers(flat, o.price);
      assert o in levels[k].orders;
    }
  }

  lemma FoundPriceIsBest(levels: seq<BookLevel>, flat: seq<Order>, id: string, descending: bool, i: nat)
    requires Represents(levels, flat, descending)
    requires i < |levels| && HasID(levels[i].orders, id)
    requires forall k :: 0 <= k < i ==> !HasID(levels[k].orders, id)
    ensures HasID(flat, id) && BestPriceOf(flat, id, descending) == levels[i].price
  {
    AtPriceMembers(flat, levels[i].price);
    var p := BestPriceOf(flat, id, descending);
    var o :| o in flat && o.orderID == id && o.price == p;
    var k :| 0 <= k < |levels| && levels[k].price == p;
    AtPriceMembers(flat, p);
    assert o in levels[k].orders && HasID(levels[k].orders, id);
  }

  lemma RemoveKeepsIndex(levels: seq<BookLevel>, flat: seq<Order>, id: string, descending: bool,
                         i: nat, rest: seq<Order>, r: seq<BookLevel>)
    requires Represents(levels, flat, descending)
    requires i < |levels| && HasID(levels[i].orders, id) && rest == RemoveFirst(levels[i].orders, id)
    requires forall k :: 0 <= k < i ==> !HasID(levels[k].orders, id)
    requires r == if |rest| == 0 then levels[..i] + levels[i + 1..] else levels[i := levels[i].(orders := rest)]
    ensures Represents(r, Cancelled(flat, id, descending), descending)
  {
    FoundPriceIsBest(levels, flat, id, descending, i);
    var flat' := RemoveFirstAt(flat, id, levels[i].price);
    forall q ensures AtPrice(flat', q) == if q == levels[i].price then rest else AtPrice(flat, q) {
      AtPriceRemove(flat, id, levels[i].price, q);
    }
    RemoveFirstAtMembers(flat, id, levels[i].price);
    if |rest| == 0 {
      DropLevel(levels, flat, flat', descending, i);
    } else {
      ShrinkLevel(levels, flat, flat', descending, i, rest);
    }
  }

  lemma {:induction false} DropLevel(levels: seq<BookLevel>, flat: seq<Order>, flat': seq<Order>, descending: bool, i: nat)
    requires Represents(levels, flat, descending) && i < |levels|
    requires forall q :: AtPrice(flat', q) == if q == levels[i].price then [] else AtPrice(flat, q)
    requires forall o :: o in flat' ==> o in flat
    ensures Represents(levels[..i] + levels[i + 1..], flat', descending)
  {
    var r := levels[..i] + levels[i + 1..];
    StrictWithout(levels, descending, i);
    forall k | 0 <= k < |r| ensures r[k].orders != [] && r[k].orders == AtPrice(flat', r[k].price) {
      assert r[k] == levels[if k < i then k else k + 1];
    }
    forall o | o in flat' ensures HasLevel(r, o.price) {
      LevelSurvives(levels, flat, flat', descending, i, o);
    }
  }

  lemma {:induction false} StrictWithout(levels: seq<BookLevel>, descending: bool, i: nat)
    requires forall j, k :: 0 <= j < k < |levels| ==> Better(levels[j].price, levels[k].price, descending)
    requires i < |levels|
    ensures var r := levels[..i] + levels[i + 1..];
      && (forall j, k :: 0 <= j < k < |r| ==> Better(r[j].price, r[k].price, descending))
      && (forall k :: 0 <= k < |r| ==> r[k].price != levels[i].price)
  {
    var r := levels[..i] + levels[i + 1..];
    forall k | 0 <= k < |r| ensures r[k] == levels[if k < i then k else k + 1] { }
  }

  lemma {:induction false} LevelSurvives(levels: seq<BookLevel>, flat: seq<Order>, flat': seq<Order>, descending: bool,
                                         i: nat, o: Order)
    requires Represents(levels, flat, descending) && i < |levels| && o in flat && o in flat'
    requires AtPrice(flat', levels[i].price) == []
    ensures HasLevel(levels[..i] + levels[i + 1..], o.price)
  {
    var r := levels[..i] + levels[i + 1..];
    AtPriceMembers(flat', levels[i].price);
    assert HasLevel(levels, o.price);
    var k :| 0 <= k < |levels| && levels[k].price == o.price;
    assert k != i;
    if k < i { assert r[k] == levels[k]; } else { assert r[k - 1] == levels[k]; }
  }

  lemma {:induction false} ShrinkLevel(levels: seq<BookLevel>, flat: seq<Order>, flat': seq<Order>, descending: bool,
                                       i: nat, rest: seq<Order>)
    requires Represents(levels, flat, descending) && i < |levels| && rest != []
    requires forall q :: AtPrice(flat', q) == if q == levels[i].price then rest else AtPrice(flat, q)
    requires forall o :: o in flat' ==> o in flat
    ensures Represents(levels[i := levels[i].(orders := rest)], flat', descending)
  {
    var r := levels[i := levels[i].(orders := rest)];
    forall k | 0 <= k < |r| ensures r[k].orders != [] && r[k].orders == AtPrice(flat', r[k].price) {
      assert k != i ==> Better(levels[k].price, levels[i].price, descending) || Better(levels[i].price, levels[k].price, descending);
    }
    forall o | o in flat' ensures HasLevel(r, o.price) {
      assert HasLevel(levels, o.price);
      var k :| 0 <= k < |levels| && levels[k].price == o.price;
      assert r[k].price == o.price;
    }
  }

  class OrderBook {
    var bids: seq<BookLevel>
    var asks: seq<BookLevel>
    ghost const symbol: string // the one symbol this book serves
    ghost var restingBids: seq<Order>
    ghost var restingAsks: seq<Order>

    ghost predicate Valid()
      reads this
    {
      && Represents(bids, restingBids, true)
      && Represents(asks, restingAsks, false)
    }

    constructor (ghost symbol: string)
      ensures Valid() && this.symbol == symbol && restingBids == [] && restingAsks == []
    {
      this.symbol := symbol;
      bids, asks := [], [];
      restingBids, restingAsks := [], [];
    }

    method AddLimit(o: Order)
      requires Valid()
      modifies this
      ensures Valid()
      ensures restingBids == old(restingBids) + (if o.side == "buy" then [o] else [])
      ensures restingAsks == old(restingAsks) + (if o.side == "buy" then [] else [o])
    {
      if o.side == "buy" {
        bids := InsertLevel(bids, o, true, restingBids);
        restingBids := restingBids + [o];
      } else {
        asks := InsertLevel(asks, o, false, restingAsks);
        restingAsks := restingAsks + [o];
      }
    }

    method RemoveOrder(orderID: string)
      requires Valid()
      modifies this
      ensures Valid()
      ensures restingBids == Cancelled(old(restingBids), orderID, true)
      ensures restingAsks == Cancelled(old(restingAsks), orderID, false)
      ensures LosesOne(old(restingBids), restingBids, orderID, true)
      ensures LosesOne(old(restingAsks), restingAsks, orderID, false)
    {
      CancelledLosesOne(restingBids, orderID, true);
      CancelledLosesOne(restingAsks, orderID, false);
      bids := RemoveFromLevels(bids, orderID, true, restingBids);
      asks := RemoveFromLevels(asks, orderID, false, restingAsks);
      restingBids := Cancelled(restingBids, orderID, true);
      restingAsks := Cancelled(restingAsks, orderID, false);
    }

    /** The highest resting bid, if any. */
    method BestBid() returns (price: real, ok: bool)
      requires Valid()
      ensures ok <==> restingBids != []
      ensures !ok ==> price == 0.0
      ensures ok ==> (exists o :: o in restingBids && o.price == price)
      ensures ok ==> (forall o :: o in restingBids ==> o.price <= price)
    {
      FirstLevelIsBest(bids, restingBids, true);
      if |bids| == 0 {
        return 0.0, false;
      }
      return bids[0].price, true;
    }

    /** The lowest resting ask, if any. */
    method BestAsk() returns (price: real, ok: bool)
      requires Valid()
      ensures ok <==> restingAsks != []
      ensures !ok ==> price == 0.0
      ensures ok ==> (exists o :: o in restingAsks && o.price == price)
      ensures ok ==> (forall o :: o in restingAsks ==> price <= o.price)
    {
      FirstLevelIsBest(asks, restingAsks, false);
      if |asks| == 0 {
        return 0.0, false;
      }
      return asks[0].price, true;
    }
  }
}
