/**
 The fill validator (apps/ingester/internal/correctness/validator.go).

 `Validate` sorts a batch by send time, replays it through one book per symbol
 and counts the fills the book agrees with. The module proves the method
 against a fold over the event history, and then what that fold means.
 */
module Validation {
  import opened Sorting
  import opened OrderBooks

  datatype FillEvent = FillEvent(orderID: string, symbol: string, side: string, orderType: string,
                                 quantity: int, price: real, sentAtNs: int, filled: bool)

  function ToOrder(e: FillEvent): Order {
    Order(e.orderID, e.symbol, e.side, e.orderType, e.quantity, e.price, e.sentAtNs)
  }

  // ---------- the replay as a fold over the history ----------

  /** One side of one symbol's book after replaying `h`, in order of arrival. */
  ghost function Resting(h: seq<FillEvent>, symbol: string, buy: bool): seq<Order> {
    if h == [] then []
    else RestingStep(Resting(h[..|h| - 1], symbol, buy), h[|h| - 1], symbol, buy)
  }

  ghost function RestingStep(flat: seq<Order>, e: FillEvent, symbol: string, buy: bool): seq<Order> {
    if e.symbol != symbol then flat
    else if e.orderType == "limit" then (if (e.side == "buy") == buy then flat + [ToOrder(e)] else flat)
    else if e.orderType == "cancel" then Cancelled(flat, e.orderID, buy)
    else flat
  }

  predicate Crosses(e: FillEvent, price: real) {
    if e.side == "buy" then e.price >= price else e.price <= price
  }

  ghost predicate CrossesSome(e: FillEvent, flat: seq<Order>) {
    exists o :: o in flat && Crosses(e, o.price)
  }

  /** The event enters the ratio at all. */
  predicate Counts(e: FillEvent) {
    e.orderType == "market" || (e.orderType == "limit" && e.filled)
  }

  /** The event, met after the history `h`, is judged correct. */
  ghost predicate Hit(h: seq<FillEvent>, e: FillEvent) {
    var opposite := Resting(h, e.symbol, e.side != "buy");
    if e.orderType == "limit" then e.filled && CrossesSome(e, opposite)
    else e.orderType == "market" && (e.filled <==> opposite != [])
  }

  function Total(es: seq<FillEvent>): nat {
    if es == [] then 0
    else Total(es[..|es| - 1]) + (if Counts(es[|es| - 1]) then 1 else 0)
  }

  /** How many of `es`, replayed after `h`, are judged correct. */
  ghost function Correct(h: seq<FillEvent>, es: seq<FillEvent>): nat {
    if es == [] then 0
    else
      var front := es[..|es| - 1];
      Correct(h, front) + (if Hit(h + front, es[|es| - 1]) then 1 else 0)
  }

  ghost function Ratio(correct: nat, total: nat): real {
    if total == 0 then 1.0 else correct as real / total as real
  }

  ghost predicate SortedBySent(es: seq<FillEvent>) {
    forall i, j :: 0 <= i < j < |es| ==> es[i].sentAtNs <= es[j].sentAtNs
  }

  lemma RestingAppend(h: seq<FillEvent>, e: FillEvent, symbol: string, buy: bool)
    ensures Resting(h + [e], symbol, buy) == RestingStep(Resting(h, symbol, buy), e, symbol, buy)
  {
    assert (h + [e])[..|h|] == h;
  }

  lemma CorrectAppend(h: seq<FillEvent>, es: seq<FillEvent>, e: FillEvent)
    ensures Correct(h, es + [e]) == Correct(h, es) + (if Hit(h + es, e) then 1 else 0)
    ensures Total(es + [e]) == Total(es) + (if Counts(e) then 1 else 0)
  {
    assert (es + [e])[..|es|] == es;
  }

  function SymbolsSeen(h: seq<FillEvent>): set<string> {
    if h == [] then {} else SymbolsSeen(h[..|h| - 1]) + {h[|h| - 1].symbol}
  }

  lemma SymbolsSeenAppend(h: seq<FillEvent>, e: FillEvent)
    ensures SymbolsSeen(h + [e]) == SymbolsSeen(h) + {e.symbol}
  {
    assert (h + [e])[..|h|] == h;
  }

  lemma RestingUnseen(h: seq<FillEvent>, symbol: string, buy: bool)
    requires symbol !in SymbolsSeen(h)
    ensures Resting(h, symbol, buy) == []
  {
  }

  lemma TakeNext(before: seq<FillEvent>, es: seq<FillEvent>, i: nat) returns (next: seq<FillEvent>)
    requires i < |es|
    ensures next == es[..i + 1] == es[..i] + [es[i]]
    ensures before + next == before + es[..i] + [es[i]]
    ensures i + 1 == |es| ==> next == es
  {
    next := es[..i + 1];
  }

  /** The ratio is a fraction: what the scorer's weighting relies on. */
  lemma RatioInUnit(h: seq<FillEvent>, es: seq<FillEvent>)
    ensures Correct(h, es) <= Total(es)
    ensures 0.0 <= Ratio(Correct(h, es), Total(es)) <= 1.0
  {
    CorrectAtMostTotal(h, es);
    var c, t := Correct(h, es), Total(es);
    if t != 0 {
      FractionInUnit(c as real, t as real);
    }
  }

  lemma FractionInUnit(c: real, t: real)
    requires 0.0 <= c <= t && t > 0.0
    ensures 0.0 <= c / t <= 1.0
  {
  }

  lemma CorrectAtMostTotal(h: seq<FillEvent>, es: seq<FillEvent>)
    ensures Correct(h, es) <= Total(es)
  {
    if es != [] {
      CorrectAtMostTotal(h, es[..|es| - 1]);
    }
  }

  // ---------- the validator ----------

  /** The book holds what replaying `h` leaves resting on the symbol. */
  ghost predicate BookIs(ob: OrderBook, h: seq<FillEvent>, symbol: string)
    reads ob
  {
    && ob.Valid() && ob.symbol == symbol
    && ob.restingBids == Resting(h, symbol, true)
    && ob.restingAsks == Resting(h, symbol, false)
  }

  lemma OtherSymbolKeepsBook(ob: OrderBook, h: seq<FillEvent>, e: FillEvent, symbol: string)
    requires BookIs(ob, h, symbol) && symbol != e.symbol
    ensures BookIs(ob, h + [e], symbol)
  {
    RestingAppend(h, e, symbol, true);
    RestingAppend(h, e, symbol, false);
  }

  class Validator {
    var books: map<string, OrderBook>
    ghost var history: seq<FillEvent>
    ghost var Repr: set<OrderBook>

    ghost predicate Valid()
      reads this, Repr
    {
      && books.Keys == SymbolsSeen(history)
      && BooksUpToDate()
    }

    /** Every book is what replaying the history makes of its symbol. */
    ghost predicate BooksUpToDate()
      reads this, Repr
    {
      forall s :: s in books ==> books[s] in Repr && BookIs(books[s], history, s)
    }

    constructor ()
      ensures Valid() && history == [] && books == map[] && Repr == {}
    {
      books, history, Repr := map[], [], {};
    }

    /** The book of a symbol, created on first use. */
    method Book(symbol: string) returns (ob: OrderBook)
      requires Valid()
      modifies this
      ensures history == old(history)
      ensures books == old(books)[symbol := ob] && ob in Repr
      ensures old(Repr) <= Repr <= old(Repr) + {ob} && fresh(Repr - old(Repr))
      ensures symbol in old(books) ==> ob == old(books)[symbol]
      ensures BooksUpToDate()
    {
      if symbol !in books {
        UnseenSymbol(symbol);
        var created := new OrderBook(symbol);
        books := books[symbol := created];
        Repr := Repr + {created};
      }
      ob := books[symbol];
    }

    method Validate(events: array<FillEvent>) returns (ratio: real)
      requires Valid()
      modifies this, Repr, events
      ensures Valid() && fresh(Repr - old(Repr))
      ensures multiset(events[..]) == multiset(old(events[..])) && SortedBySent(events[..])
      ensures history == old(history) + events[..]
      ensures ratio == Ratio(Correct(old(history), events[..]), Total(events[..]))
    {
      var es := SortSlice(events[..], (e: FillEvent) => e.sentAtNs as real);
      SameLength(es, events[..]);
      forall k | 0 <= k < events.Length {
        events[k] := es[k];
      }
      assert events[..] == es;
      var total, correct := ReplayAll(es);
      if total == 0 {
        return 1.0;
      }
      return correct as real / total as real;
    }

    /** The loop over the sorted events. */
    method ReplayAll(es: seq<FillEvent>) returns (total: nat, correct: nat)
      requires Valid()
      modifies this, Repr
      ensures Valid() && fresh(Repr - old(Repr))
      ensures history == old(history) + es
      ensures total == Total(es) && correct == Correct(old(history), es)
    {
      ghost var before := history;
      total, correct := 0, 0;
      ghost var done: seq<FillEvent> := [];
      for i := 0 to |es|
        invariant Valid() && fresh(Repr - old(Repr))
        invariant done == es[..i] && history == before + done
        invariant total == Total(done) && correct == Correct(before, done)
      {
        var counted, hit := Replay(es[i]);
        if counted { total := total + 1; }
        if hit { correct := correct + 1; }
        CorrectAppend(before, done, es[i]);
        done := TakeNext(before, es, i);
      }
      assert done == es;
    }

    /** The body of the replay loop for one event. */
    method Replay(e: FillEvent) returns (counted: bool, hit: bool)
      requires Valid()
      modifies this, Repr
      ensures Valid() && fresh(Repr - old(Repr))
      ensures history == old(history) + [e]
      ensures counted <==> Counts(e)
      ensures hit <==> Hit(old(history), e)
    {
      SymbolsSeenAppend(history, e);
      var ob := Book(e.symbol);
      counted, hit := Advance(ob, e);
    }

    /** The event, applied to the book of its symbol. */
    method Advance(ob: OrderBook, e: FillEvent) returns (counted: bool, hit: bool)
      requires BooksUpToDate() && e.symbol in books && books[e.symbol] == ob
      modifies this`history, ob
      ensures BooksUpToDate() && history == old(history) + [e]
      ensures counted <==> Counts(e)
      ensures hit <==> Hit(old(history), e)
    {
      ghost var h := history;
      counted, hit := JudgeOwn(ob, e);
      OtherBooksKept(h, e);
      history := h + [e];
    }

    /** Judging against one symbol's book leaves the other books alone. */
    method JudgeOwn(ob: OrderBook, e: FillEvent) returns (counted: bool, hit: bool)
      requires BooksUpToDate() && e.symbol in books && books[e.symbol] == ob
      modifies ob
      ensures BookIs(ob, history + [e], e.symbol)
      ensures forall s :: s in books && s != e.symbol ==> books[s] in Repr && BookIs(books[s], history, s)
      ensures counted <==> Counts(e)
      ensures hit <==> Hit(history, e)
    {
      forall s | s in books && s != e.symbol ensures books[s] != ob {
        assert BookIs(books[s], history, s);
      }
      counted, hit := Judge(ob, e, history);
    }

    lemma {:induction false} OtherBooksKept(h: seq<FillEvent>, e: FillEvent)
      requires forall s :: s in books && s != e.symbol ==> BookIs(books[s], h, s)
      ensures forall s :: s in books && s != e.symbol ==> BookIs(books[s], h + [e], s)
    {
      forall s | s in books && s != e.symbol ensures BookIs(books[s], h + [e], s) {
        OtherSymbolKeepsBook(books[s], h, e, s);
      }
    }

    /** The switch on the order type, against the event's own book. */
    method Judge(ob: OrderBook, e: FillEvent, ghost h: seq<FillEvent>) returns (counted: bool, hit: bool)
      requires BookIs(ob, h, e.symbol)
      modifies ob
      ensures BookIs(ob, h + [e], e.symbol)
      ensures counted <==> Counts(e)
      ensures hit <==> Hit(h, e)
    {
      RestingAppend(h, e, e.symbol, true);
      RestingAppend(h, e, e.symbol, false);
      counted, hit := false, false;
      if e.orderType == "limit" {
        ob.AddLimit(ToOrder(e));
        if e.filled {
          counted := true;
          hit := ShouldFill(ob, e);
        }
      } else if e.orderType == "market" {
        counted := true;
        var liquid := HasLiquidity(ob, e.side);
        hit := if e.filled then liquid else !liquid;
      } else if e.orderType == "cancel" {
        ob.RemoveOrder(e.orderID);
      }
    }

    lemma UnseenSymbol(symbol: string)
      requires Valid()
      ensures symbol !in books ==> Resting(history, symbol, true) == [] && Resting(history, symbol, false) == []
    {
      if symbol !in books {
        RestingUnseen(history, symbol, true);
        RestingUnseen(history, symbol, false);
      }
    }

    method ShouldFill(ob: OrderBook, e: FillEvent) returns (r: bool)
      requires ob.Valid()
      ensures r <==> CrossesSome(e, if e.side == "buy" then ob.restingAsks else ob.restingBids)
    {
      if e.side == "buy" {
        var bestAsk, ok := ob.BestAsk();
        if !ok {
          return false;
        }
        return e.price >= bestAsk;
      }
      var bestBid, ok := ob.BestBid();
      if !ok {
        return false;
      }
      return e.price <= bestBid;
    }

    method HasLiquidity(ob: OrderBook, side: string) returns (r: bool)
      requires ob.Valid()
      ensures r <==> (if side == "buy" then ob.restingAsks else ob.restingBids) != []
    {
      var price: real;
      if side == "buy" {
        price, r := ob.BestAsk();
      } else {
        price, r := ob.BestBid();
      }
    }
  }

  lemma SameLength<T>(a: seq<T>, b: seq<T>)
    requires multiset(a) == multiset(b)
    ensures |a| == |b|
  {
    assert |multiset(a)| == |a| && |multiset(b)| == |b|;
  }
}
