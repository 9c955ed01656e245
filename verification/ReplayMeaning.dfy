/**
 What the replay of validator.go:31-81 means, stated on the events alone.
 */
module ReplayMeaning {
  import opened OrderBooks
  import opened Validation

  // ---------- which limit orders are resting ----------

  predicate IsLimit(e: FillEvent, symbol: string, buy: bool) {
    e.symbol == symbol && e.orderType == "limit" && (e.side == "buy") == buy
  }

  predicate IsCancelOf(c: FillEvent, e: FillEvent) {
    c.orderType == "cancel" && c.symbol == e.symbol && c.orderID == e.orderID
  }

  /** No cancel of its ID on its symbol came after position i. */
  predicate Uncancelled(h: seq<FillEvent>, i: nat)
    requires i < |h|
  {
    forall j :: i < j < |h| ==> !IsCancelOf(h[j], h[i])
  }

  /** An order an independent reader of the log would call resting. */
  ghost predicate RestsAt(h: seq<FillEvent>, i: nat, symbol: string, buy: bool) {
    i < |h| && IsLimit(h[i], symbol, buy) && Uncancelled(h, i)
  }

  ghost predicate SomeRests(h: seq<FillEvent>, symbol: string, buy: bool) {
    exists i: nat :: RestsAt(h, i, symbol, buy)
  }

  ghost predicate SomeCrosses(h: seq<FillEvent>, e: FillEvent, buy: bool) {
    exists i: nat :: RestsAt(h, i, e.symbol, buy) && (if e.side == "buy" then h[i].price <= e.price else e.price <= h[i].price)
  }

  /** The event, sent after `h`, is correct, said without any book. */
  ghost predicate DeclaredHit(h: seq<FillEvent>, e: FillEvent) {
    var opposite := e.side != "buy";
    if e.orderType == "limit" then e.filled && SomeCrosses(h, e, opposite)
    else e.orderType == "market" && (e.filled <==> SomeRests(h, e.symbol, opposite))
  }

  /** The resting orders when a cancel deletes every order of its ID. */
  function Declared(h: seq<FillEvent>, symbol: string, buy: bool): seq<Order> {
    if h == [] then []
    else
      var flat := Declared(h[..|h| - 1], symbol, buy);
      var e := h[|h| - 1];
      if IsLimit(e, symbol, buy) then flat + [ToOrder(e)]
      else if e.symbol == symbol && e.orderType == "cancel" then WithoutID(flat, e.orderID)
      else flat
  }

  /** `o` is the order that the limit event placed. */
  predicate Placed(e: FillEvent, o: Order) {
    && o.orderID == e.orderID && o.symbol == e.symbol && o.side == e.side && o.orderType == e.orderType
    && o.quantity == e.quantity && o.price == e.price && o.sentAtNs == e.sentAtNs
  }

  lemma {:induction false} DeclaredMembers(h: seq<FillEvent>, symbol: string, buy: bool, o: Order)
    ensures o in Declared(h, symbol, buy) <==> exists i: nat :: RestsAt(h, i, symbol, buy) && Placed(h[i], o)
  {
    if h != [] {
      var p, e := h[..|h| - 1], h[|h| - 1];
      assert h == p + [e];
      DeclaredMembers(p, symbol, buy, o);
      WithoutIDMembers(Declared(p, symbol, buy), e.orderID);
      forall i: nat | i < |p| ensures RestsAt(h, i, symbol, buy) <==> RestsAt(p, i, symbol, buy) && !IsCancelOf(e, p[i]) {
        RestsAppend(p, e, i, symbol, buy);
      }
      RestsNew(p, e, symbol, buy);
      if i: nat :| RestsAt(h, i, symbol, buy) && Placed(h[i], o) {
        assert i == |p| || (RestsAt(p, i, symbol, buy) && Placed(p[i], o));
      }
      if i: nat :| RestsAt(p, i, symbol, buy) && Placed(p[i], o) {
        assert h[i] == p[i];
      }
    }
  }

  lemma {:induction false} RestsAppend(p: seq<FillEvent>, e: FillEvent, i: nat, symbol: string, buy: bool)
    requires i < |p|
    ensures RestsAt(p + [e], i, symbol, buy) <==> RestsAt(p, i, symbol, buy) && !IsCancelOf(e, p[i])
  {
    var h := p + [e];
    if Uncancelled(h, i) {
      assert !IsCancelOf(h[|p|], h[i]);
      forall j | i < j < |p| ensures !IsCancelOf(p[j], p[i]) { assert !IsCancelOf(h[j], h[i]); }
    }
  }

  lemma RestsNew(p: seq<FillEvent>, e: FillEvent, symbol: string, buy: bool)
    ensures RestsAt(p + [e], |p|, symbol, buy) <==> IsLimit(e, symbol, buy)
  {
  }

  /** At most one limit order with this ID rests on the side. */
  ghost predicate OneRests(h: seq<FillEvent>, symbol: string, buy: bool, id: string) {
    forall i: nat, j: nat :: i < j && RestsAt(h, i, symbol, buy) && RestsAt(h, j, symbol, buy) && h[i].orderID == id ==>
      h[j].orderID != id
  }

  /** No cancel of the log comes when two limit orders of its ID rest on one side of its symbol. */
  ghost predicate Unambiguous(h: seq<FillEvent>) {
    forall k: nat, buy: bool :: k < |h| && h[k].orderType == "cancel" ==>
      OneRests(h[..k], h[k].symbol, buy, h[k].orderID)
  }

  /** Two equal orders of the declared book are two positions of the log. */
  lemma {:induction false} OneRestsIff(h: seq<FillEvent>, symbol: string, buy: bool, id: string)
    ensures OneRests(h, symbol, buy, id) <==> AtMostOne(Declared(h, symbol, buy), id)
  {
    if h != [] {
      var p, e := h[..|h| - 1], h[|h| - 1];
      assert h == p + [e];
      OneRestsIff(p, symbol, buy, id);
      RestsNew(p, e, symbol, buy);
      forall i: nat | i < |p| ensures RestsAt(h, i, symbol, buy) <==> RestsAt(p, i, symbol, buy) && !IsCancelOf(e, p[i]) {
        RestsAppend(p, e, i, symbol, buy);
      }
      var flat := Declared(p, symbol, buy);
      if IsLimit(e, symbol, buy) {
        OneRestsAfterLimit(p, e, symbol, buy, id);
      } else if e.symbol == symbol && e.orderType == "cancel" {
        AtMostOneWithout(flat, e.orderID, id);
        OneRestsAfterCancel(p, e, symbol, buy, id);
      } else {
        assert forall i: nat :: i < |p| ==> (RestsAt(h, i, symbol, buy) <==> RestsAt(p, i, symbol, buy));
      }
    }
  }

  lemma {:induction false} OneRestsAfterLimit(p: seq<FillEvent>, e: FillEvent, symbol: string, buy: bool, id: string)
    requires IsLimit(e, symbol, buy)
    requires forall i: nat :: i < |p| ==> (RestsAt(p + [e], i, symbol, buy) <==> RestsAt(p, i, symbol, buy) && !IsCancelOf(e, p[i]))
    requires OneRests(p, symbol, buy, id) <==> AtMostOne(Declared(p, symbol, buy), id)
    ensures OneRests(p + [e], symbol, buy, id) <==> AtMostOne(Declared(p, symbol, buy) + [ToOrder(e)], id)
  {
    var h := p + [e];
    RestsNew(p, e, symbol, buy);
    DeclaredHasID(p, symbol, buy, id);
    AtMostOneSnoc(Declared(p, symbol, buy), ToOrder(e), id);
    if e.orderID == id && HasID(Declared(p, symbol, buy), id) {
      var i: nat :| RestsAt(p, i, symbol, buy) && p[i].orderID == id;
      assert RestsAt(h, i, symbol, buy) && RestsAt(h, |p|, symbol, buy);
    } else {
      assert OneRests(h, symbol, buy, id) <==> OneRests(p, symbol, buy, id) by {
        if OneRests(h, symbol, buy, id) {
          forall i: nat, j: nat | i < j && RestsAt(p, i, symbol, buy) && RestsAt(p, j, symbol, buy) && p[i].orderID == id
            ensures p[j].orderID != id
          {
            assert RestsAt(h, i, symbol, buy) && RestsAt(h, j, symbol, buy);
          }
        }
      }
    }
  }

  lemma {:induction false} OneRestsAfterCancel(p: seq<FillEvent>, e: FillEvent, symbol: string, buy: bool, id: string)
    requires e.symbol == symbol && e.orderType == "cancel"
    requires forall i: nat :: i < |p| ==> (RestsAt(p + [e], i, symbol, buy) <==> RestsAt(p, i, symbol, buy) && !IsCancelOf(e, p[i]))
    ensures OneRests(p + [e], symbol, buy, id) <==> e.orderID == id || OneRests(p, symbol, buy, id)
  {
    var h := p + [e];
    RestsNew(p, e, symbol, buy);
    forall i: nat | RestsAt(p, i, symbol, buy) && p[i].orderID == id ensures RestsAt(h, i, symbol, buy) <==> e.orderID != id { }
    if OneRests(h, symbol, buy, id) && e.orderID != id {
      forall i: nat, j: nat | i < j && RestsAt(p, i, symbol, buy) && RestsAt(p, j, symbol, buy) && p[i].orderID == id
        ensures p[j].orderID != id
      {
        assert RestsAt(h, i, symbol, buy);
      }
    }
  }

  lemma {:induction false} DeclaredHasID(h: seq<FillEvent>, symbol: string, buy: bool, id: string)
    ensures HasID(Declared(h, symbol, buy), id) <==> exists i: nat :: RestsAt(h, i, symbol, buy) && h[i].orderID == id
  {
    var flat := Declared(h, symbol, buy);
    if HasID(flat, id) {
      var o :| o in flat && o.orderID == id;
      DeclaredMembers(h, symbol, buy, o);
    }
    if i: nat :| RestsAt(h, i, symbol, buy) && h[i].orderID == id {
      DeclaredMembers(h, symbol, buy, ToOrder(h[i]));
    }
  }

  lemma {:induction false} AtMostOneWithout(flat: seq<Order>, other: string, id: string)
    ensures AtMostOne(WithoutID(flat, other), id) <==> other == id || AtMostOne(flat, id)
    ensures forall o :: o in WithoutID(flat, other) <==> o in flat && o.orderID != other
  {
    WithoutIDMembers(flat, other);
    var rest := WithoutID(flat, other);
    if other == id {
      assert forall i :: 0 <= i < |rest| ==> rest[i] in rest;
    } else if flat != [] {
      AtMostOneWithout(flat[1..], other, id);
      WithoutIDMembers(flat[1..], other);
      assert flat == [flat[0]] + flat[1..];
      if flat[0].orderID == id {
        AtMostOneCons(flat[0], flat[1..], id);
        AtMostOneCons(flat[0], WithoutID(flat[1..], other), id);
        assert HasID(flat[1..], id) <==> HasID(WithoutID(flat[1..], other), id);
      } else {
        AtMostOneCons(flat[0], flat[1..], id);
        AtMostOneCons(flat[0], WithoutID(flat[1..], other), id);
      }
    }
  }

  lemma {:induction false} AtMostOneCons(o: Order, flat: seq<Order>, id: string)
    ensures AtMostOne([o] + flat, id) <==> AtMostOne(flat, id) && !(o.orderID == id && HasID(flat, id))
  {
    AtMostOneSplit([o], flat, id);
    assert HasID([o], id) <==> o.orderID == id by { assert o in [o]; }
  }

  lemma {:induction false} AtMostOneSnoc(flat: seq<Order>, o: Order, id: string)
    ensures AtMostOne(flat + [o], id) <==> AtMostOne(flat, id) && !(o.orderID == id && HasID(flat, id))
  {
    AtMostOneSplit(flat, [o], id);
    assert HasID([o], id) <==> o.orderID == id by { assert o in [o]; }
  }

  lemma {:induction false} AtMostOneSplit(a: seq<Order>, b: seq<Order>, id: string)
    ensures AtMostOne(a + b, id) <==> AtMostOne(a, id) && AtMostOne(b, id) && !(HasID(a, id) && HasID(b, id))
  {
    var c := a + b;
    assert forall i :: 0 <= i < |a| ==> c[i] == a[i];
    assert forall i :: 0 <= i < |b| ==> c[|a| + i] == b[i];
    if i, j :| 0 <= i < j < |c| && c[i].orderID == id && c[j].orderID == id {
      assert i < |a| ==> a[i] == c[i] && a[i] in a;
      assert j >= |a| ==> b[j - |a|] == c[j] && b[j - |a|] in b;
      assert j < |a| ==> a[j] == c[j];
      assert i >= |a| ==> b[i - |a|] == c[i];
    }
    if HasID(a, id) && HasID(b, id) {
      var x :| x in a && x.orderID == id;
      var y :| y in b && y.orderID == id;
      var i :| 0 <= i < |a| && a[i] == x;
      var j :| 0 <= j < |b| && b[j] == y;
      assert c[i].orderID == id && c[|a| + j].orderID == id;
    }
    if i, j :| 0 <= i < j < |b| && b[i].orderID == id && b[j].orderID == id {
      assert c[|a| + i].orderID == id && c[|a| + j].orderID == id;
    }
  }

  ghost predicate BooksAsDeclared(h: seq<FillEvent>) {
    forall k: nat, symbol: string, buy: bool :: k <= |h| ==>
      Resting(h[..k], symbol, buy) == Declared(h[..k], symbol, buy)
  }

  /**
   The replayed books hold exactly the uncancelled orders throughout if and only
   if no cancel of the log comes when two orders of its ID rest on one side.
   */
  lemma BooksAsDeclaredIff(h: seq<FillEvent>)
    ensures BooksAsDeclared(h) <==> Unambiguous(h)
  {
    if BooksAsDeclared(h) {
      forall k: nat, buy: bool | k < |h| && h[k].orderType == "cancel"
        ensures OneRests(h[..k], h[k].symbol, buy, h[k].orderID)
      {
        var e := h[k];
        assert h[..k + 1] == h[..k] + [e];
        RestingAppend(h[..k], e, e.symbol, buy);
        assert Resting(h[..k + 1], e.symbol, buy) == Declared(h[..k + 1], e.symbol, buy);
        CancelDeletesIDIff(Resting(h[..k], e.symbol, buy), e.orderID, buy);
        OneRestsIff(h[..k], e.symbol, buy, e.orderID);
      }
    }
    if Unambiguous(h) {
      forall k: nat, symbol: string, buy: bool | k <= |h|
        ensures Resting(h[..k], symbol, buy) == Declared(h[..k], symbol, buy)
      {
        AgreeAt(h, k, symbol, buy);
      }
    }
  }

  lemma {:induction false} AgreeAt(h: seq<FillEvent>, k: nat, symbol: string, buy: bool)
    requires Unambiguous(h) && k <= |h|
    ensures Resting(h[..k], symbol, buy) == Declared(h[..k], symbol, buy)
  {
    if k > 0 {
      AgreeAt(h, k - 1, symbol, buy);
      assert h[..k][..k - 1] == h[..k - 1];
      var e := h[k - 1];
      if e.symbol == symbol && e.orderType == "cancel" {
        OneRestsIff(h[..k - 1], symbol, buy, e.orderID);
        CancelDeletesIDIff(Resting(h[..k - 1], symbol, buy), e.orderID, buy);
      }
    }
  }

  /** Limit orders of one symbol never share an ID. */
  ghost predicate DistinctLimitIDs(h: seq<FillEvent>) {
    forall i, j :: 0 <= i < j < |h| && h[i].orderType == h[j].orderType == "limit" && h[i].symbol == h[j].symbol ==>
      h[i].orderID != h[j].orderID
  }

  lemma DistinctIsUnambiguous(h: seq<FillEvent>)
    requires DistinctLimitIDs(h)
    ensures Unambiguous(h)
  {
    forall k: nat, buy: bool | k < |h| && h[k].orderType == "cancel"
      ensures OneRests(h[..k], h[k].symbol, buy, h[k].orderID)
    {
      var p := h[..k];
      forall i: nat, j: nat | i < j && RestsAt(p, i, h[k].symbol, buy) && RestsAt(p, j, h[k].symbol, buy)
        ensures p[i].orderID != p[j].orderID
      {
        assert p[i] == h[i] && p[j] == h[j];
      }
    }
  }

  // ---------- when the books are not as declared ----------

  lemma {:induction false} RemoveKeepsOthers(flat: seq<Order>, id: string, p: real, o: Order)
    requires o in flat && o.orderID != id
    ensures o in RemoveFirstAt(flat, id, p)
  {
    assert flat == [flat[0]] + flat[1..];
    if flat[0] != o && !(flat[0].orderID == id && flat[0].price == p) {
      RemoveKeepsOthers(flat[1..], id, p, o);
    }
  }

  /** A cancel that leaves orders behind never takes others away: the books hold at least the uncancelled orders. */
  lemma {:induction false} DeclaredInBook(h: seq<FillEvent>, symbol: string, buy: bool, o: Order)
    requires o in Declared(h, symbol, buy)
    ensures o in Resting(h, symbol, buy)
  {
    var p, e := h[..|h| - 1], h[|h| - 1];
    WithoutIDMembers(Declared(p, symbol, buy), e.orderID);
    if o in Declared(p, symbol, buy) {
      DeclaredInBook(p, symbol, buy, o);
      var flat := Resting(p, symbol, buy);
      if e.symbol == symbol && e.orderType == "cancel" && HasID(flat, e.orderID) {
        RemoveKeepsOthers(flat, e.orderID, BestPriceOf(flat, e.orderID, buy), o);
      }
    }
  }

  lemma DeclaredSide(h: seq<FillEvent>, e: FillEvent, buy: bool)
    ensures Declared(h, e.symbol, buy) != [] <==> SomeRests(h, e.symbol, buy)
    ensures CrossesSome(e, Declared(h, e.symbol, buy)) <==> SomeCrosses(h, e, buy)
  {
    var flat := Declared(h, e.symbol, buy);
    forall o ensures o in flat <==> exists i: nat :: RestsAt(h, i, e.symbol, buy) && Placed(h[i], o) {
      DeclaredMembers(h, e.symbol, buy, o);
    }
    if flat != [] {
      assert flat[0] in flat;
    }
    if i: nat :| RestsAt(h, i, e.symbol, buy) {
      assert ToOrder(h[i]) in flat;
    }
    if i: nat :| RestsAt(h, i, e.symbol, buy) && Crosses(e, h[i].price) {
      assert ToOrder(h[i]) in flat;
    }
  }

  /**
   Whatever IDs are shared, the replay errs on one side only: it accepts every
   filled order the log accepts, and every unfilled market order it accepts the
   log accepts too.
   */
  lemma ReplayErrsOneWay(h: seq<FillEvent>, e: FillEvent)
    ensures e.filled && DeclaredHit(h, e) ==> Hit(h, e)
    ensures !e.filled && Hit(h, e) ==> DeclaredHit(h, e)
  {
    var buy := e.side != "buy";
    DeclaredSide(h, e, buy);
    var flat := Declared(h, e.symbol, buy);
    forall o | o in flat ensures o in Resting(h, e.symbol, buy) {
      DeclaredInBook(h, e.symbol, buy, o);
    }
    if flat != [] {
      assert flat[0] in flat;
    }
  }

  ghost predicate IsTopPrice(flat: seq<Order>, descending: bool, p: real) {
    && (exists o :: o in flat && o.price == p)
    && (forall o :: o in flat ==> !Better(o.price, p, descending))
  }

  ghost predicate SameTop(f: seq<Order>, g: seq<Order>, descending: bool) {
    && (f == [] <==> g == [])
    && (forall p: real :: IsTopPrice(f, descending, p) <==> IsTopPrice(g, descending, p))
  }

  lemma {:induction false} TopExists(flat: seq<Order>, descending: bool) returns (p: real)
    requires flat != []
    ensures IsTopPrice(flat, descending, p)
  {
    assert flat[0] in flat && flat == [flat[0]] + flat[1..];
    p := flat[0].price;
    if |flat| > 1 {
      var q := TopExists(flat[1..], descending);
      var o :| o in flat[1..] && o.price == q;
      assert o in flat;
      if Better(q, p, descending) { p := q; }
    }
  }

  /** An event is judged against a side. */
  predicate JudgedAgainst(e: FillEvent, symbol: string, buy: bool) {
    e.symbol == symbol && (e.side != "buy") == buy
  }

  lemma {:induction false} CrossesTop(e: FillEvent, flat: seq<Order>, p: real)
    requires IsTopPrice(flat, e.side != "buy", p)
    ensures CrossesSome(e, flat) <==> Crosses(e, p)
  {
  }

  /**
   At any moment the replay and the log judge every next event against a side
   alike if and only if both see no order there, or the same best price.
   */
  lemma VerdictsAgreeIff(h: seq<FillEvent>, symbol: string, buy: bool)
    ensures (forall e :: JudgedAgainst(e, symbol, buy) ==> (Hit(h, e) <==> DeclaredHit(h, e))) <==>
            SameTop(Resting(h, symbol, buy), Declared(h, symbol, buy), buy)
  {
    var f, g := Resting(h, symbol, buy), Declared(h, symbol, buy);
    if SameTop(f, g, buy) {
      forall e | JudgedAgainst(e, symbol, buy) ensures Hit(h, e) <==> DeclaredHit(h, e) {
        DeclaredSide(h, e, buy);
        if f != [] {
          var p := TopExists(f, buy);
          CrossesTop(e, f, p);
          CrossesTop(e, g, p);
        }
      }
    } else {
      var e := TellsApart(f, g, symbol, buy);
      DeclaredSide(h, e, buy);
      assert JudgedAgainst(e, symbol, buy) && !(Hit(h, e) <==> DeclaredHit(h, e));
    }
  }

  lemma {:induction false} TellsApart(f: seq<Order>, g: seq<Order>, symbol: string, buy: bool) returns (e: FillEvent)
    requires !SameTop(f, g, buy)
    ensures JudgedAgainst(e, symbol, buy) && e.filled
    ensures if e.orderType == "limit" then CrossesSome(e, f) != CrossesSome(e, g)
            else e.orderType == "market" && (f == []) != (g == [])
  {
    var side := if buy then "sell" else "buy";
    if (f == []) != (g == []) {
      e := FillEvent("", symbol, side, "market", 1, 0.0, 0, true);
    } else {
      var some: real :| IsTopPrice(f, buy, some) != IsTopPrice(g, buy, some);
      var p := TopExists(f, buy);
      var q := TopExists(g, buy);
      assert p != q by { TopUnique(f, buy, p, some); TopUnique(g, buy, q, some); }
      e := FillEvent("", symbol, side, "limit", 1, if Better(p, q, buy) then p else q, 0, true);
      CrossesTop(e, f, p);
      CrossesTop(e, g, q);
    }
  }

  lemma TopUnique(flat: seq<Order>, descending: bool, p: real, q: real)
    requires IsTopPrice(flat, descending, p)
    ensures IsTopPrice(flat, descending, q) <==> p == q
  {
  }

  // ---------- the meaning of the counts ----------

  lemma HitIsDeclared(h: seq<FillEvent>, e: FillEvent, later: seq<FillEvent>)
    requires Unambiguous(h + ([e] + later))
    ensures Hit(h, e) <==> DeclaredHit(h, e)
  {
    var all := h + ([e] + later);
    assert all[..|h|] == h;
    var buy := e.side != "buy";
    AgreeAt(all, |h|, e.symbol, buy);
    DeclaredSide(h, e, buy);
  }

  /** The event at position `k` of a batch replayed after `h` is right by the log before it. */
  ghost predicate RightAt(h: seq<FillEvent>, es: seq<FillEvent>, k: nat) {
    k < |es| && DeclaredHit(h + es[..k], es[k])
  }

  /** Market events count, and filled limit events; nothing else does. */
  predicate CountedAt(es: seq<FillEvent>, k: nat) {
    k < |es| && (es[k].orderType == "market" || (es[k].orderType == "limit" && es[k].filled))
  }

  ghost function RightPositions(h: seq<FillEvent>, es: seq<FillEvent>): set<nat> {
    set k: nat | k < |es| && RightAt(h, es, k)
  }

  function CountedPositions(es: seq<FillEvent>): set<nat> {
    set k: nat | k < |es| && CountedAt(es, k)
  }

  /**
   The replay counts exactly the events that are correct by their own log: a
   filled limit order needs an earlier uncancelled opposite order at a crossing
   price, a market order must be filled exactly when any opposite order rests.
   */
  lemma {:induction false} CountsMeanDeclared(h: seq<FillEvent>, es: seq<FillEvent>)
    requires Unambiguous(h + es)
    ensures Correct(h, es) == |RightPositions(h, es)|
    ensures Total(es) == |CountedPositions(es)|
  {
    if es == [] {
      assert RightPositions(h, es) == {} && CountedPositions(es) == {};
    } else {
      var p, e := es[..|es| - 1], es[|es| - 1];
      assert es == p + [e] && h + es == (h + p) + ([e] + []) && h + es == (h + p) + [e];
      UnambiguousFront(h + p, e);
      CountsMeanDeclared(h, p);
      HitIsDeclared(h + p, e, []);
      RightStep(h, p, e);
      CountedStep(p, e);
      CorrectAppend(h, p, e);
    }
  }

  lemma {:induction false} UnambiguousFront(p: seq<FillEvent>, e: FillEvent)
    requires Unambiguous(p + [e])
    ensures Unambiguous(p)
  {
    forall k: nat, buy: bool | k < |p| && p[k].orderType == "cancel" ensures OneRests(p[..k], p[k].symbol, buy, p[k].orderID) {
      assert (p + [e])[k] == p[k] && (p + [e])[..k] == p[..k];
    }
  }

  lemma {:induction false} RightStep(h: seq<FillEvent>, p: seq<FillEvent>, e: FillEvent)
    ensures |RightPositions(h, p + [e])| == |RightPositions(h, p)| + (if DeclaredHit(h + p, e) then 1 else 0)
  {
    var es := p + [e];
    assert es[..|p|] == p;
    forall k: nat | k < |p| ensures RightAt(h, es, k) <==> RightAt(h, p, k) {
      assert es[..k] == p[..k];
    }
    assert |p| !in RightPositions(h, p);
    assert RightPositions(h, es) == (if DeclaredHit(h + p, e) then RightPositions(h, p) + {|p|} else RightPositions(h, p));
  }

  lemma {:induction false} CountedStep(p: seq<FillEvent>, e: FillEvent)
    ensures |CountedPositions(p + [e])| == |CountedPositions(p)| + (if Counts(e) then 1 else 0)
  {
    var es := p + [e];
    assert |p| !in CountedPositions(p);
    assert CountedPositions(es) == (if Counts(e) then CountedPositions(p) + {|p|} else CountedPositions(p));
  }

  /** `ratio` is the share of the counted positions that are right; of none, all are. */
  ghost predicate IsShare(ratio: real, right: set<nat>, counted: set<nat>) {
    right <= counted && if counted == {} then ratio == 1.0 else ratio * |counted| as real == |right| as real
  }

  /** What `Validate` returns, on the log alone. */
  lemma {:induction false} RatioIsShare(h: seq<FillEvent>, es: seq<FillEvent>)
    requires Unambiguous(h + es)
    ensures IsShare(Ratio(Correct(h, es), Total(es)), RightPositions(h, es), CountedPositions(es))
  {
    CountsMeanDeclared(h, es);
    RightAreCounted(h, es);
    SizesGiveShare(RightPositions(h, es), CountedPositions(es));
  }

  lemma {:induction false} RightAreCounted(h: seq<FillEvent>, es: seq<FillEvent>)
    ensures RightPositions(h, es) <= CountedPositions(es)
  {
  }

  lemma {:induction false} SizesGiveShare(right: set<nat>, counted: set<nat>)
    requires right <= counted
    ensures IsShare(Ratio(|right|, |counted|), right, counted)
  {
    if counted != {} {
      assert |counted| != 0;
      Quotient(|right| as real, |counted| as real);
    }
  }

  lemma Quotient(c: real, t: real)
    requires t != 0.0
    ensures c / t * t == c
  {
  }

  /** The verdict on a sorted batch is its share of right events, if no cancel is ambiguous. */
  ghost predicate IsFair(es: seq<FillEvent>, ratio: real) {
    Unambiguous(es) ==> IsShare(ratio, RightPositions([], es), CountedPositions(es))
  }

  lemma {:induction false} FreshRatioIsFair(es: seq<FillEvent>)
    ensures IsFair(es, Ratio(Correct([], es), Total(es)))
  {
    assert [] + es == es;
    if Unambiguous(es) {
      RatioIsShare([], es);
    }
  }

  /** A new validator on one batch, as the window uses it. */
  method ValidateFresh(events: array<FillEvent>) returns (ratio: real)
    modifies events
    ensures multiset(events[..]) == multiset(old(events[..])) && SortedBySent(events[..])
    ensures ratio == Ratio(Correct([], events[..]), Total(events[..]))
    ensures IsFair(events[..], ratio)
  {
    var v := new Validator();
    ratio := v.Validate(events);
    assert [] + events[..] == events[..];
    FreshRatioIsFair(events[..]);
  }

  const SHARED_SELL := FillEvent("a", "AAPL", "sell", "limit", 1, 10.0, 1, false)
  const SHARED_CANCEL := FillEvent("a", "AAPL", "sell", "cancel", 1, 0.0, 3, false)
  const SHARED_BUY := FillEvent("b", "AAPL", "buy", "market", 1, 0.0, 4, true)

  lemma SharedIDLeavesOne()
    ensures Resting([SHARED_SELL, SHARED_SELL], "AAPL", false) == [ToOrder(SHARED_SELL), ToOrder(SHARED_SELL)]
    ensures Resting([SHARED_SELL, SHARED_SELL, SHARED_CANCEL], "AAPL", false) != []
  {
    var none: seq<FillEvent> := [];
    var o := ToOrder(SHARED_SELL);
    assert none + [SHARED_SELL] == [SHARED_SELL];
    assert [SHARED_SELL] + [SHARED_SELL] == [SHARED_SELL, SHARED_SELL];
    RestingAppend(none, SHARED_SELL, "AAPL", false);
    RestingAppend([SHARED_SELL], SHARED_SELL, "AAPL", false);
    assert [SHARED_SELL, SHARED_SELL] + [SHARED_CANCEL] == [SHARED_SELL, SHARED_SELL, SHARED_CANCEL];
    RestingAppend([SHARED_SELL, SHARED_SELL], SHARED_CANCEL, "AAPL", false);
    assert [o, o][0] in [o, o];
    assert HasID([o, o], "a");
    RemoveFirstAtLength([o, o], "a", BestPriceOf([o, o], "a", false));
  }

  /** A shared ID misleads the replay: the cancel leaves one of the two sells behind. */
  lemma SharedIDMisjudged()
    ensures var h := [SHARED_SELL, SHARED_SELL, SHARED_CANCEL];
      && !Unambiguous(h + [SHARED_BUY])
      && Hit(h, SHARED_BUY) && !DeclaredHit(h, SHARED_BUY)
  {
    var h := [SHARED_SELL, SHARED_SELL, SHARED_CANCEL];
    var es := h + [SHARED_BUY];
    SharedIDLeavesOne();
    var p := es[..2];
    assert p == [SHARED_SELL, SHARED_SELL] && es[2] == SHARED_CANCEL;
    assert RestsAt(p, 0, "AAPL", false) && RestsAt(p, 1, "AAPL", false) && p[0].orderID == "a" && p[1].orderID == "a";
    assert !OneRests(es[..2], es[2].symbol, false, es[2].orderID);
    forall i: nat ensures !RestsAt(h, i, "AAPL", false) {
      if i < 2 { assert IsCancelOf(h[2], h[i]); }
    }
  }

  // ---------- symbols are independent ----------

  /** The events of one symbol, in order. */
  function Of(es: seq<FillEvent>, symbol: string): seq<FillEvent> {
    if es == [] then []
    else if es[|es| - 1].symbol == symbol then Of(es[..|es| - 1], symbol) + [es[|es| - 1]]
    else Of(es[..|es| - 1], symbol)
  }

  lemma OfAppend(es: seq<FillEvent>, e: FillEvent, symbol: string)
    ensures Of(es + [e], symbol) == if e.symbol == symbol then Of(es, symbol) + [e] else Of(es, symbol)
  {
    assert (es + [e])[..|es|] == es;
  }

  lemma {:induction false} OfConcat(a: seq<FillEvent>, b: seq<FillEvent>, symbol: string)
    ensures Of(a + b, symbol) == Of(a, symbol) + Of(b, symbol)
  {
    if b == [] {
      assert a + b == a;
    } else {
      var p, e := b[..|b| - 1], b[|b| - 1];
      OfConcat(a, p, symbol);
      OfConcatStep(a, p, e, symbol);
      assert b == p + [e];
    }
  }

  lemma {:induction false} OfConcatStep(a: seq<FillEvent>, p: seq<FillEvent>, e: FillEvent, symbol: string)
    requires Of(a + p, symbol) == Of(a, symbol) + Of(p, symbol)
    ensures Of(a + (p + [e]), symbol) == Of(a, symbol) + Of(p + [e], symbol)
  {
    assert a + (p + [e]) == (a + p) + [e];
    OfAppend(a + p, e, symbol);
    OfAppend(p, e, symbol);
  }

  lemma {:induction false} RestingOf(h: seq<FillEvent>, symbol: string, buy: bool)
    ensures Resting(Of(h, symbol), symbol, buy) == Resting(h, symbol, buy)
  {
    if h != [] {
      var p, e := h[..|h| - 1], h[|h| - 1];
      RestingOf(p, symbol, buy);
      if e.symbol == symbol {
        RestingAppend(Of(p, symbol), e, symbol, buy);
      }
    }
  }

  ghost function SumCorrect(h: seq<FillEvent>, es: seq<FillEvent>, symbols: seq<string>): nat {
    if symbols == [] then 0
    else Correct(Of(h, symbols[0]), Of(es, symbols[0])) + SumCorrect(h, es, symbols[1..])
  }

  function SumTotal(es: seq<FillEvent>, symbols: seq<string>): nat {
    if symbols == [] then 0 else Total(Of(es, symbols[0])) + SumTotal(es, symbols[1..])
  }

  ghost predicate Distinct<T>(s: seq<T>) {
    forall i, j :: 0 <= i < j < |s| ==> s[i] != s[j]
  }

  lemma {:induction false} SumStep(h: seq<FillEvent>, es: seq<FillEvent>, e: FillEvent, symbols: seq<string>)
    requires Distinct(symbols)
    ensures SumCorrect(h, es + [e], symbols) ==
            SumCorrect(h, es, symbols) + (if e.symbol in symbols && Hit(h + es, e) then 1 else 0)
    ensures SumTotal(es + [e], symbols) ==
            SumTotal(es, symbols) + (if e.symbol in symbols && Counts(e) then 1 else 0)
  {
    if symbols != [] {
      var s := symbols[0];
      SumStep(h, es, e, symbols[1..]);
      OfAppend(es, e, s);
      if e.symbol == s {
        assert s !in symbols[1..];
        CorrectAppend(Of(h, s), Of(es, s), e);
        OfConcat(h, es, s);
        RestingOf(h + es, s, e.side != "buy");
      }
    }
  }

  /**
   The counts of a whole replay are the sums over symbols of replaying each
   symbol's own events on its own book.
   */
  lemma {:induction false} SymbolsAreIndependent(h: seq<FillEvent>, es: seq<FillEvent>, symbols: seq<string>)
    requires Distinct(symbols) && forall e :: e in es ==> e.symbol in symbols
    ensures Correct(h, es) == SumCorrect(h, es, symbols)
    ensures Total(es) == SumTotal(es, symbols)
  {
    if es == [] {
      SumOfNone(h, symbols);
    } else {
      var p, e := es[..|es| - 1], es[|es| - 1];
      assert es == p + [e];
      SymbolsAreIndependent(h, p, symbols);
      SumStep(h, p, e, symbols);
      CorrectAppend(h, p, e);
    }
  }

  lemma SumOfNone(h: seq<FillEvent>, symbols: seq<string>)
    ensures SumCorrect(h, [], symbols) == 0 && SumTotal([], symbols) == 0
  {
  }
}
