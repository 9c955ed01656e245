/**
 What a tie in send times can do to the verdict. `Validate` sorts its batch with
 a sort that is not stable (validator.go:32-34), so events sent at the same
 instant may be replayed in either order.
 */
module Ties {
  import opened OrderBooks
  import opened Validation

  // ---------- which pairs of events commute ----------

  /** Replaying `y` can change the verdict on `x`: it acts on the side `x` is judged against. */
  predicate Disturbs(y: FillEvent, x: FillEvent) {
    && y.symbol == x.symbol
    && (x.orderType == "market" || (x.orderType == "limit" && x.filled))
    && (y.orderType == "cancel" ||
        (y.orderType == "limit" && (y.side == "buy") != (x.side == "buy") &&
         (x.orderType == "market" || Crosses(x, y.price))))
  }

  /** `c` cancels the ID under which `x` would rest. */
  predicate Undoes(c: FillEvent, x: FillEvent) {
    c.symbol == x.symbol && c.orderType == "cancel" && x.orderType == "limit" && c.orderID == x.orderID
  }

  predicate Harmless(x: FillEvent, y: FillEvent) {
    !Disturbs(x, y) && !Disturbs(y, x) && !Undoes(x, y) && !Undoes(y, x)
  }

  /** Nothing but IDs and prices decides a verdict or what a cancel leaves behind. */
  function Keys(flat: seq<Order>): multiset<(string, real)> {
    if flat == [] then multiset{} else multiset{(flat[0].orderID, flat[0].price)} + Keys(flat[1..])
  }

  lemma {:induction false} KeysAppend(flat: seq<Order>, o: Order)
    ensures Keys(flat + [o]) == Keys(flat) + multiset{(o.orderID, o.price)}
  {
    if flat == [] {
      assert flat + [o] == [o];
    } else {
      KeysAppend(flat[1..], o);
      assert (flat + [o])[1..] == flat[1..] + [o];
    }
  }

  lemma {:induction false} KeysMembers(flat: seq<Order>, id: string, p: real)
    ensures (id, p) in Keys(flat) <==> exists o :: o in flat && o.orderID == id && o.price == p
    ensures Keys(flat) == multiset{} <==> flat == []
  {
    if flat != [] {
      KeysMembers(flat[1..], id, p);
      assert flat == [flat[0]] + flat[1..];
      assert (flat[0].orderID, flat[0].price) in Keys(flat);
    }
  }

  lemma {:induction false} KeysRemove(flat: seq<Order>, id: string, p: real)
    requires (id, p) in Keys(flat)
    ensures Keys(RemoveFirstAt(flat, id, p)) == Keys(flat) - multiset{(id, p)}
  {
    if flat[0].orderID == id && flat[0].price == p {
      assert Keys(flat) - multiset{(id, p)} == Keys(flat[1..]);
    } else {
      KeysRemove(flat[1..], id, p);
      RemoveElsewhere(Keys(flat[1..]), (flat[0].orderID, flat[0].price), (id, p));
    }
  }

  lemma RemoveElsewhere(m: multiset<(string, real)>, k: (string, real), l: (string, real))
    requires k != l
    ensures multiset{k} + (m - multiset{l}) == (multiset{k} + m) - multiset{l}
    ensures (m - multiset{l}) + multiset{k} == (m + multiset{k}) - multiset{l}
  {
  }

  ghost predicate HasKey(m: multiset<(string, real)>, id: string) {
    exists p: real :: (id, p) in m
  }

  ghost predicate IsBestKey(m: multiset<(string, real)>, id: string, p: real, descending: bool) {
    (id, p) in m && forall q: real :: (id, q) in m ==> !Better(q, p, descending)
  }

  /** What a cancel does to the keys of a side: the best-priced one of its ID goes. */
  ghost predicate CancelsTo(m: multiset<(string, real)>, id: string, descending: bool, l: multiset<(string, real)>) {
    if HasKey(m, id) then exists p: real :: IsBestKey(m, id, p, descending) && l == m - multiset{(id, p)}
    else l == m
  }

  lemma {:induction false} CancelledKeys(flat: seq<Order>, id: string, descending: bool)
    ensures CancelsTo(Keys(flat), id, descending, Keys(Cancelled(flat, id, descending)))
  {
    var m := Keys(flat);
    forall p: real ensures (id, p) in m <==> exists o :: o in flat && o.orderID == id && o.price == p {
      KeysMembers(flat, id, p);
    }
    if HasID(flat, id) {
      var p := BestPriceOf(flat, id, descending);
      assert IsBestKey(m, id, p, descending);
      KeysRemove(flat, id, p);
    } else {
      assert !HasKey(m, id);
    }
  }

  lemma CancelsToOne(m: multiset<(string, real)>, id: string, descending: bool,
                     k: multiset<(string, real)>, l: multiset<(string, real)>)
    requires CancelsTo(m, id, descending, k) && CancelsTo(m, id, descending, l)
    ensures k == l
  {
  }

  /** Adding an order of another ID before or after a cancel is the same. */
  lemma {:induction false} AddAroundCancel(m: multiset<(string, real)>, o: (string, real), id: string, descending: bool,
                                           k: multiset<(string, real)>)
    requires o.0 != id && CancelsTo(m, id, descending, k)
    ensures CancelsTo(m + multiset{o}, id, descending, k + multiset{o})
  {
    var n := m + multiset{o};
    assert forall p: real :: (id, p) in n <==> (id, p) in m;
    if HasKey(m, id) {
      var p: real :| IsBestKey(m, id, p, descending) && k == m - multiset{(id, p)};
      assert IsBestKey(n, id, p, descending);
      RemoveElsewhere(m, o, (id, p));
    }
  }

  /** A cancel leaves the keys of other IDs alone. */
  lemma {:induction false} OtherIDsStay(m: multiset<(string, real)>, id: string, descending: bool, k: multiset<(string, real)>,
                                        other: string, p: real)
    requires other != id && CancelsTo(m, id, descending, k)
    ensures HasKey(k, other) <==> HasKey(m, other)
    ensures IsBestKey(k, other, p, descending) <==> IsBestKey(m, other, p, descending)
  {
    assert forall q: real :: (other, q) in k <==> (other, q) in m;
  }

  lemma CancelTakes(m: multiset<(string, real)>, id: string, descending: bool, k: multiset<(string, real)>, p: real)
    requires CancelsTo(m, id, descending, k) && IsBestKey(m, id, p, descending)
    ensures k == m - multiset{(id, p)}
  {
    assert HasKey(m, id);
  }

  lemma TakeBoth(m: multiset<(string, real)>, x: (string, real), y: (string, real))
    ensures m - multiset{x} - multiset{y} == m - multiset{y} - multiset{x}
  {
  }

  /** Cancels of two IDs commute. */
  lemma {:induction false} CancelAroundCancel(m: multiset<(string, real)>, a: string, b: string, descending: bool,
                                              ma: multiset<(string, real)>, mab: multiset<(string, real)>,
                                              mb: multiset<(string, real)>, mba: multiset<(string, real)>)
    requires a != b
    requires CancelsTo(m, a, descending, ma) && CancelsTo(ma, b, descending, mab)
    requires CancelsTo(m, b, descending, mb) && CancelsTo(mb, a, descending, mba)
    ensures mab == mba
  {
    OtherIDsStay(m, a, descending, ma, b, 0.0);
    OtherIDsStay(m, b, descending, mb, a, 0.0);
    if HasKey(m, a) && HasKey(m, b) {
      var p: real :| IsBestKey(m, a, p, descending) && ma == m - multiset{(a, p)};
      var q: real :| IsBestKey(m, b, q, descending) && mb == m - multiset{(b, q)};
      OtherIDsStay(m, a, descending, ma, b, q);
      OtherIDsStay(m, b, descending, mb, a, p);
      CancelTakes(ma, b, descending, mab, q);
      CancelTakes(mb, a, descending, mba, p);
      TakeBoth(m, (a, p), (b, q));
    }
  }

  // ---------- books with the same keys are interchangeable ----------

  ghost predicate SameBook(g: seq<FillEvent>, h: seq<FillEvent>) {
    forall symbol: string, buy: bool :: Keys(Resting(g, symbol, buy)) == Keys(Resting(h, symbol, buy))
  }

  lemma {:induction false} SameStep(f: seq<Order>, g: seq<Order>, e: FillEvent, symbol: string, buy: bool)
    requires Keys(f) == Keys(g)
    ensures Keys(RestingStep(f, e, symbol, buy)) == Keys(RestingStep(g, e, symbol, buy))
  {
    if e.symbol == symbol && e.orderType == "limit" {
      SameAppend(f, g, ToOrder(e));
    } else if e.symbol == symbol && e.orderType == "cancel" {
      SameCancel(f, g, e.orderID, buy);
    }
  }

  lemma {:induction false} SameAppend(f: seq<Order>, g: seq<Order>, o: Order)
    requires Keys(f) == Keys(g)
    ensures Keys(f + [o]) == Keys(g + [o])
  {
    KeysAppend(f, o);
    KeysAppend(g, o);
  }

  lemma {:induction false} SameCancel(f: seq<Order>, g: seq<Order>, id: string, descending: bool)
    requires Keys(f) == Keys(g)
    ensures Keys(Cancelled(f, id, descending)) == Keys(Cancelled(g, id, descending))
  {
    CancelledKeys(f, id, descending);
    CancelledKeys(g, id, descending);
    CancelsToOne(Keys(f), id, descending, Keys(Cancelled(f, id, descending)), Keys(Cancelled(g, id, descending)));
  }

  lemma {:induction false} SameVerdict(f: seq<Order>, g: seq<Order>, e: FillEvent)
    requires Keys(f) == Keys(g)
    ensures f == [] <==> g == []
    ensures CrossesSome(e, f) <==> CrossesSome(e, g)
  {
    KeysMembers(f, "", 0.0);
    KeysMembers(g, "", 0.0);
    if CrossesSome(e, f) { CrossesInOther(f, g, e); }
    if CrossesSome(e, g) { CrossesInOther(g, f, e); }
  }

  lemma CrossesInOther(f: seq<Order>, g: seq<Order>, e: FillEvent)
    requires Keys(f) == Keys(g) && CrossesSome(e, f)
    ensures CrossesSome(e, g)
  {
    var o :| o in f && Crosses(e, o.price);
    KeysMembers(f, o.orderID, o.price);
    KeysMembers(g, o.orderID, o.price);
  }

  lemma {:induction false} SameBookStep(g: seq<FillEvent>, h: seq<FillEvent>, e: FillEvent)
    requires SameBook(g, h)
    ensures Hit(g, e) <==> Hit(h, e)
    ensures SameBook(g + [e], h + [e])
  {
    var opposite := e.side != "buy";
    SameVerdict(Resting(g, e.symbol, opposite), Resting(h, e.symbol, opposite), e);
    forall symbol: string, buy: bool ensures Keys(Resting(g + [e], symbol, buy)) == Keys(Resting(h + [e], symbol, buy)) {
      RestingAppend(g, e, symbol, buy);
      RestingAppend(h, e, symbol, buy);
      SameStep(Resting(g, symbol, buy), Resting(h, symbol, buy), e, symbol, buy);
    }
  }

  /** From then on the same events are judged the same. */
  lemma {:induction false} SameFuture(g: seq<FillEvent>, h: seq<FillEvent>, es: seq<FillEvent>)
    requires SameBook(g, h)
    ensures Correct(g, es) == Correct(h, es) && SameBook(g + es, h + es)
  {
    if es == [] {
      assert g + es == g && h + es == h;
    } else {
      var p, e := es[..|es| - 1], es[|es| - 1];
      SameFuture(g, h, p);
      SameBookStep(g + p, h + p, e);
      assert g + es == (g + p) + [e] && h + es == (h + p) + [e];
    }
  }

  // ---------- a harmless pair may be swapped ----------

  lemma {:induction false} CancelAfterLimit(f: seq<Order>, o: Order, id: string, descending: bool)
    requires o.orderID != id
    ensures Keys(Cancelled(f + [o], id, descending)) == Keys(Cancelled(f, id, descending) + [o])
  {
    var key := (o.orderID, o.price);
    KeysAppend(f, o);
    KeysAppend(Cancelled(f, id, descending), o);
    CancelledKeys(f, id, descending);
    CancelledKeys(f + [o], id, descending);
    AddAroundCancel(Keys(f), key, id, descending, Keys(Cancelled(f, id, descending)));
    CancelsToOne(Keys(f) + multiset{key}, id, descending, Keys(Cancelled(f + [o], id, descending)),
                 Keys(Cancelled(f, id, descending)) + multiset{key});
  }

  lemma {:induction false} CancelAfterCancel(f: seq<Order>, a: string, b: string, descending: bool)
    requires a != b
    ensures Keys(Cancelled(Cancelled(f, a, descending), b, descending)) ==
            Keys(Cancelled(Cancelled(f, b, descending), a, descending))
  {
    var fa, fb := Cancelled(f, a, descending), Cancelled(f, b, descending);
    var ab, ba := Keys(Cancelled(fa, b, descending)), Keys(Cancelled(fb, a, descending));
    CancelledKeys(f, a, descending);
    CancelledKeys(fa, b, descending);
    CancelledKeys(f, b, descending);
    CancelledKeys(fb, a, descending);
    CancelAroundCancel(Keys(f), a, b, descending, Keys(fa), ab, Keys(fb), ba);
  }

  lemma {:induction false} LimitAfterLimit(f: seq<Order>, o: Order, q: Order)
    ensures Keys(f + [o] + [q]) == Keys(f + [q] + [o])
  {
    KeysAppend(f, o);
    KeysAppend(f, q);
    KeysAppend(f + [o], q);
    KeysAppend(f + [q], o);
  }

  lemma {:induction false} SwapStep(f: seq<Order>, x: FillEvent, y: FillEvent, symbol: string, buy: bool)
    requires !Undoes(x, y) && !Undoes(y, x)
    ensures Keys(RestingStep(RestingStep(f, x, symbol, buy), y, symbol, buy)) ==
            Keys(RestingStep(RestingStep(f, y, symbol, buy), x, symbol, buy))
  {
    if x.symbol == symbol && y.symbol == symbol {
      if x.orderType == "limit" && y.orderType == "limit" {
        LimitAfterLimit(f, ToOrder(x), ToOrder(y));
      } else if x.orderType == "limit" && y.orderType == "cancel" {
        CancelAfterLimit(f, ToOrder(x), y.orderID, buy);
      } else if x.orderType == "cancel" && y.orderType == "limit" {
        CancelAfterLimit(f, ToOrder(y), x.orderID, buy);
      } else if x.orderType == "cancel" && y.orderType == "cancel" && x.orderID != y.orderID {
        CancelAfterCancel(f, x.orderID, y.orderID, buy);
      }
    }
  }

  lemma {:induction false} SwapBooks(h: seq<FillEvent>, x: FillEvent, y: FillEvent)
    requires !Undoes(x, y) && !Undoes(y, x)
    ensures SameBook((h + [x]) + [y], (h + [y]) + [x])
  {
    forall symbol: string, buy: bool
      ensures Keys(Resting((h + [x]) + [y], symbol, buy)) == Keys(Resting((h + [y]) + [x], symbol, buy))
    {
      RestingAppend(h, x, symbol, buy);
      RestingAppend(h + [x], y, symbol, buy);
      RestingAppend(h, y, symbol, buy);
      RestingAppend(h + [y], x, symbol, buy);
      SwapStep(Resting(h, symbol, buy), x, y, symbol, buy);
    }
  }

  /** What is not disturbed is judged the same before and after. */
  lemma {:induction false} Undisturbed(h: seq<FillEvent>, y: FillEvent, x: FillEvent)
    requires !Disturbs(y, x)
    ensures Hit(h + [y], x) <==> Hit(h, x)
  {
    var opposite := x.side != "buy";
    var flat := Resting(h, x.symbol, opposite);
    RestingAppend(h, y, x.symbol, opposite);
    if x.symbol == y.symbol && y.orderType == "limit" && (y.side == "buy") == opposite {
      var o := ToOrder(y);
      assert o in flat + [o];
      assert CrossesSome(x, flat + [o]) <==> CrossesSome(x, flat) || Crosses(x, o.price);
    }
  }

  function Bit(b: bool): nat { if b then 1 else 0 }

  lemma {:induction false} CorrectConcat(h: seq<FillEvent>, a: seq<FillEvent>, b: seq<FillEvent>)
    ensures Correct(h, a + b) == Correct(h, a) + Correct(h + a, b)
    ensures Total(a + b) == Total(a) + Total(b)
  {
    if b == [] {
      assert a + b == a;
    } else {
      var p, e := b[..|b| - 1], b[|b| - 1];
      CorrectConcat(h, a, p);
      assert b == p + [e] && a + b == (a + p) + [e];
      CorrectAppend(h, a + p, e);
      CorrectAppend(h + a, p, e);
      assert (h + a) + p == h + (a + p);
    }
  }

  lemma {:induction false} CorrectOne(h: seq<FillEvent>, x: FillEvent)
    ensures Correct(h, [x]) == Bit(Hit(h, x))
    ensures Total([x]) == Bit(Counts(x))
  {
    assert [x][..0] == [] && h + [] == h;
  }

  lemma {:induction false} CorrectPair(h: seq<FillEvent>, x: FillEvent, y: FillEvent, rest: seq<FillEvent>)
    ensures Correct(h, [x] + ([y] + rest)) == Bit(Hit(h, x)) + Bit(Hit(h + [x], y)) + Correct((h + [x]) + [y], rest)
    ensures Total([x] + ([y] + rest)) == Bit(Counts(x)) + Bit(Counts(y)) + Total(rest)
  {
    CorrectConcat(h, [x], [y] + rest);
    CorrectOne(h, x);
    CorrectConcat(h + [x], [y], rest);
    CorrectOne(h + [x], y);
  }

  lemma {:induction false} Swap(h: seq<FillEvent>, x: FillEvent, y: FillEvent, rest: seq<FillEvent>)
    requires Harmless(x, y)
    ensures Correct(h, [x] + ([y] + rest)) == Correct(h, [y] + ([x] + rest))
    ensures Total([x] + ([y] + rest)) == Total([y] + ([x] + rest))
  {
    CorrectPair(h, x, y, rest);
    CorrectPair(h, y, x, rest);
    Undisturbed(h, x, y);
    Undisturbed(h, y, x);
    SwapBooks(h, x, y);
    SameFuture((h + [x]) + [y], (h + [y]) + [x], rest);
  }

  // ---------- and a harmful one may not ----------

  function Opposite(e: FillEvent): string { if e.side == "buy" then "sell" else "buy" }

  lemma {:induction false} AloneRests(e: FillEvent)
    requires e.orderType == "limit"
    ensures Resting([e], e.symbol, e.side == "buy") == [ToOrder(e)]
    ensures Resting([e], e.symbol, e.side != "buy") == []
  {
    assert [e][..0] == [];
    assert [] + [ToOrder(e)] == [ToOrder(e)];
  }

  /** A limit that reaches the other side first is a counterparty, and not otherwise. */
  lemma {:induction false} LimitDisturbs(y: FillEvent, x: FillEvent) returns (h: seq<FillEvent>)
    requires Disturbs(y, x) && y.orderType == "limit"
    ensures forall e :: e in h ==> e == y
    ensures Bit(Hit(h, x)) + Bit(Hit(h + [x], y)) != Bit(Hit(h, y)) + Bit(Hit(h + [y], x))
  {
    h := if x.orderType == "limit" && y.filled then [y] else [];
    var opposite := x.side != "buy";
    RestingAppend(h, y, x.symbol, opposite);
    RestingAppend(h, x, x.symbol, !opposite);
    AloneRests(y);
    var o, q := ToOrder(y), ToOrder(x);
    assert [] + [o] == [o] && [] + [q] == [q];
    assert o in [o] && o in [o] + [o] && q in [q];
  }

  /** A cancel takes the only counterparty away. */
  lemma {:induction false} CancelDisturbs(y: FillEvent, x: FillEvent) returns (h: seq<FillEvent>)
    requires Disturbs(y, x) && y.orderType == "cancel"
    ensures forall e :: e in h ==> e.sentAtNs == x.sentAtNs
    ensures Bit(Hit(h, x)) + Bit(Hit(h + [x], y)) != Bit(Hit(h, y)) + Bit(Hit(h + [y], x))
  {
    var g := FillEvent(y.orderID, x.symbol, Opposite(x), "limit", 1, x.price, x.sentAtNs, false);
    h := [g];
    AloneRests(g);
    RestingAppend(h, y, x.symbol, x.side != "buy");
    OneCancelled(ToOrder(g), x.side != "buy");
    assert ToOrder(g) in [ToOrder(g)];
  }

  lemma {:induction false} OneCancelled(o: Order, descending: bool)
    ensures Cancelled([o], o.orderID, descending) == []
  {
    assert o in [o];
    assert HasID([o], o.orderID);
    var p := BestPriceOf([o], o.orderID, descending);
    assert p == o.price;
  }

  /** A cancel before its limit leaves the limit for a later market order to find. */
  lemma {:induction false} UndoneMatters(x: FillEvent, c: FillEvent) returns (m: FillEvent)
    requires Undoes(c, x)
    ensures m.sentAtNs == x.sentAtNs
    ensures Correct([], [x] + ([c] + [m])) != Correct([], [c] + ([x] + [m]))
  {
    m := FillEvent("", x.symbol, Opposite(x), "market", 1, 0.0, x.sentAtNs, true);
    var buy := x.side == "buy";
    var o := ToOrder(x);
    assert [c][..0] == [] && [] + [o] == [o];
    AloneRests(x);
    OneCancelled(o, buy);
    RestingAppend([x], c, x.symbol, buy);
    assert Resting([x] + [c], x.symbol, buy) == [];
    assert Resting([c], x.symbol, buy) == [] && Resting([c], x.symbol, !buy) == [];
    RestingAppend([c], x, x.symbol, buy);
    assert Resting([c] + [x], x.symbol, buy) == [o];
    assert [] + [x] == [x] && [] + [c] == [c];
    CorrectPair([], x, c, [m]);
    CorrectPair([], c, x, [m]);
    CorrectOne([x] + [c], m);
    CorrectOne([c] + [x], m);
  }

  lemma {:induction false} DisturbedMatters(y: FillEvent, x: FillEvent) returns (h: seq<FillEvent>)
    requires Disturbs(y, x)
    ensures forall e :: e in h ==> e == y || e.sentAtNs == x.sentAtNs
    ensures Correct(h, [x] + ([y] + [])) != Correct(h, [y] + ([x] + []))
  {
    if y.orderType == "limit" {
      h := LimitDisturbs(y, x);
    } else {
      h := CancelDisturbs(y, x);
    }
    CorrectPair(h, x, y, []);
    CorrectPair(h, y, x, []);
  }

  ghost predicate Commute(x: FillEvent, y: FillEvent) {
    forall h: seq<FillEvent>, rest: seq<FillEvent> :: Correct(h, [x] + ([y] + rest)) == Correct(h, [y] + ([x] + rest))
  }

  /**
   Two neighbouring events may be swapped whatever came before and comes after, if
   and only if neither acts on the side the other is judged against and neither
   cancels the other.
   */
  lemma {:induction false} HarmlessIff(x: FillEvent, y: FillEvent)
    ensures Commute(x, y) <==> Harmless(x, y)
  {
    if Harmless(x, y) {
      forall h: seq<FillEvent>, rest: seq<FillEvent>
        ensures Correct(h, [x] + ([y] + rest)) == Correct(h, [y] + ([x] + rest))
      {
        Swap(h, x, y, rest);
      }
    } else if Disturbs(y, x) {
      var h := DisturbedMatters(y, x);
    } else if Disturbs(x, y) {
      var h := DisturbedMatters(x, y);
    } else if Undoes(y, x) {
      var m := UndoneMatters(x, y);
    } else {
      var m := UndoneMatters(y, x);
    }
  }

  // ---------- the order of the input ----------

  /** Events sent at the same instant may be swapped. */
  ghost predicate TiesHarmless(m: multiset<FillEvent>) {
    forall e, f :: e in m && f in m && e.sentAtNs == f.sentAtNs ==> Harmless(e, f)
  }

  /**
   Events with distinct send times within each symbol qualify. Ties between
   symbols and an event delivered twice do no harm.
   */
  lemma DistinctTimesAreHarmless(m: multiset<FillEvent>)
    requires forall e, f :: e in m && f in m && e.symbol == f.symbol && e.sentAtNs == f.sentAtNs ==> e == f
    ensures TiesHarmless(m)
  {
    forall e, f | e in m && f in m && e.sentAtNs == f.sentAtNs ensures Harmless(e, f) {
      if e.symbol == f.symbol { assert e == f; }
    }
  }

  /** An event may move ahead of those it is harmless to. */
  lemma {:induction false} MoveToFront(h: seq<FillEvent>, u: seq<FillEvent>, e: FillEvent, v: seq<FillEvent>)
    requires forall x :: x in u ==> Harmless(x, e)
    ensures Correct(h, u + ([e] + v)) == Correct(h, [e] + (u + v))
    ensures Total(u + ([e] + v)) == Total([e] + (u + v))
    decreases |u|
  {
    if u == [] {
      assert u + ([e] + v) == [e] + v && u + v == v;
    } else {
      var p, x := u[..|u| - 1], u[|u| - 1];
      assert u == p + [x] && x in u;
      assert u + ([e] + v) == p + ([x] + ([e] + v));
      assert u + v == p + ([x] + v);
      CorrectConcat(h, p, [x] + ([e] + v));
      CorrectConcat(h, p, [e] + ([x] + v));
      Swap(h + p, x, e, v);
      MoveToFront(h, p, e, [x] + v);
    }
  }

  lemma {:induction false} WithoutAt(a: seq<FillEvent>, b: seq<FillEvent>, e: FillEvent) returns (u: seq<FillEvent>, v: seq<FillEvent>)
    requires multiset([e] + a) == multiset(b)
    ensures b == u + ([e] + v) && multiset(a) == multiset(u + v)
  {
    assert e in multiset([e] + a);
    assert e in b;
    var i :| 0 <= i < |b| && b[i] == e;
    u, v := b[..i], b[i + 1..];
    assert b == u + ([e] + v);
    assert multiset([e] + a) == multiset{e} + multiset(a);
    assert multiset(b) == multiset(u) + (multiset{e} + multiset(v));
    assert multiset(u + v) == multiset(u) + multiset(v);
    assert multiset(a) == (multiset{e} + multiset(a)) - multiset{e};
    assert multiset(u + v) == (multiset(u) + (multiset{e} + multiset(v))) - multiset{e};
  }

  lemma {:induction false} SortedParts(u: seq<FillEvent>, e: FillEvent, v: seq<FillEvent>)
    requires SortedBySent(u + ([e] + v))
    ensures SortedBySent(u + v) && forall x :: x in u ==> x.sentAtNs <= e.sentAtNs
  {
    var b := u + ([e] + v);
    forall x | x in u ensures x.sentAtNs <= e.sentAtNs {
      var i :| 0 <= i < |u| && u[i] == x;
      assert b[i] == x && b[|u|] == e;
    }
    var c := u + v;
    forall i, j | 0 <= i < j < |c| ensures c[i].sentAtNs <= c[j].sentAtNs {
      assert c[i] == b[if i < |u| then i else i + 1] && c[j] == b[if j < |u| then j else j + 1];
    }
  }

  lemma {:induction false} SortedFirst(e: FillEvent, a: seq<FillEvent>)
    requires SortedBySent([e] + a)
    ensures SortedBySent(a) && forall x :: x in a ==> e.sentAtNs <= x.sentAtNs
  {
    var b := [e] + a;
    assert b[0] == e && forall i :: 0 <= i < |a| ==> b[i + 1] == a[i];
    forall x | x in a ensures e.sentAtNs <= x.sentAtNs {
      var i :| 0 <= i < |a| && a[i] == x;
      assert b[i + 1] == x;
    }
    forall i, j | 0 <= i < j < |a| ensures a[i].sentAtNs <= a[j].sentAtNs {
      assert b[i + 1] == a[i] && b[j + 1] == a[j];
    }
  }

  lemma TiesOfPart(e: FillEvent, a: seq<FillEvent>)
    requires TiesHarmless(multiset([e] + a))
    ensures TiesHarmless(multiset(a))
  {
    assert multiset([e] + a) == multiset{e} + multiset(a);
    assert forall x :: x in multiset(a) ==> x in multiset([e] + a);
  }

  /**
   Any two time-ordered arrangements of the same events give the same counts, as
   long as events sent at the same instant are harmless to each other.
   */
  lemma {:induction false} OrderDoesNotMatter(h: seq<FillEvent>, a: seq<FillEvent>, b: seq<FillEvent>)
    requires multiset(a) == multiset(b) && SortedBySent(a) && SortedBySent(b) && TiesHarmless(multiset(a))
    ensures Correct(h, a) == Correct(h, b) && Total(a) == Total(b)
    decreases |a|
  {
    if a == [] {
      SameLength(a, b);
    } else {
      var e, p := a[0], a[1..];
      assert a == [e] + p;
      var u, v := WithoutAt(p, b, e);
      SortedFirst(e, p);
      SortedParts(u, e, v);
      AheadIsTied(e, p, u, v);
      MoveToFront(h, u, e, v);
      TiesOfPart(e, p);
      OrderDoesNotMatter(h + [e], p, u + v);
      CorrectConcat(h, [e], p);
      CorrectConcat(h, [e], u + v);
    }
  }

  /** What the other arrangement has ahead of the earliest event was sent at the same instant. */
  lemma {:induction false} AheadIsTied(e: FillEvent, p: seq<FillEvent>, u: seq<FillEvent>, v: seq<FillEvent>)
    requires multiset(p) == multiset(u + v) && TiesHarmless(multiset([e] + p))
    requires (forall x :: x in p ==> e.sentAtNs <= x.sentAtNs) && (forall x :: x in u ==> x.sentAtNs <= e.sentAtNs)
    ensures forall x :: x in u ==> Harmless(x, e)
  {
    var m := multiset([e] + p);
    assert m == multiset{e} + multiset(p);
    assert multiset(u + v) == multiset(u) + multiset(v);
    forall x | x in u ensures Harmless(x, e) {
      assert x in multiset(u) && x in multiset(p) && x in p;
      assert x in m && e in m;
    }
  }

  /** Two validators given the same events in any two orders return the same ratio. */
  method ValidateTwice(first: array<FillEvent>, second: array<FillEvent>) returns (r1: real, r2: real)
    requires first != second && multiset(first[..]) == multiset(second[..]) && TiesHarmless(multiset(first[..]))
    modifies first, second
    ensures r1 == r2
  {
    var v := new Validator();
    var w := new Validator();
    r1 := v.Validate(first);
    r2 := w.Validate(second);
    OrderDoesNotMatter([], first[..], second[..]);
    assert [] + first[..] == first[..] && [] + second[..] == second[..];
  }

  /**
   A tie that is not harmless does change a verdict: it is part of a batch with two
   time-ordered arrangements of which one has more correct events.
   */
  lemma {:induction false} TieChangesVerdict(x: FillEvent, y: FillEvent) returns (a: seq<FillEvent>, b: seq<FillEvent>)
    requires !Harmless(x, y) && x.sentAtNs == y.sentAtNs
    ensures multiset(a) == multiset(b) && SortedBySent(a) && SortedBySent(b) && x in a && y in a
    ensures Total(a) == Total(b) && Correct([], a) != Correct([], b)
  {
    var h: seq<FillEvent>, rest: seq<FillEvent> := [], [];
    if Disturbs(y, x) {
      h := DisturbedMatters(y, x);
    } else if Disturbs(x, y) {
      h := DisturbedMatters(x, y);
    } else if Undoes(y, x) {
      var m := UndoneMatters(x, y);
      rest := [m];
    } else {
      var m := UndoneMatters(y, x);
      rest := [m];
    }
    a, b := h + ([x] + ([y] + rest)), h + ([y] + ([x] + rest));
    CorrectConcat([], h, [x] + ([y] + rest));
    CorrectConcat([], h, [y] + ([x] + rest));
    assert [] + h == h;
    CorrectPair(h, x, y, rest);
    CorrectPair(h, y, x, rest);
    SameInstant(h, x, y, rest);
    SameInstant(h, y, x, rest);
    PairSwaps(h, x, y, rest);
  }

  lemma {:induction false} SameInstant(h: seq<FillEvent>, x: FillEvent, y: FillEvent, rest: seq<FillEvent>)
    requires x.sentAtNs == y.sentAtNs
    requires (forall e :: e in h ==> e.sentAtNs == x.sentAtNs) && (forall e :: e in rest ==> e.sentAtNs == x.sentAtNs)
    ensures SortedBySent(h + ([x] + ([y] + rest)))
  {
    var a := h + ([x] + ([y] + rest));
    forall e | e in a ensures e.sentAtNs == x.sentAtNs { }
    assert forall i :: 0 <= i < |a| ==> a[i] in a;
  }

  lemma PairSwaps(h: seq<FillEvent>, x: FillEvent, y: FillEvent, rest: seq<FillEvent>)
    ensures var a, b := h + ([x] + ([y] + rest)), h + ([y] + ([x] + rest));
      multiset(a) == multiset(b) && x in a && y in a
  {
    var a := h + ([x] + ([y] + rest));
    assert a[|h|] == x && a[|h| + 1] == y;
  }
}
