// One pass of the agent loop over any number of runners: due books settle first, then each runner trades its books,
// draws what is open and adopts what has no book. Every answer from outside is an arbitrary choice.
module Ticks {
  import opened Numbers
  import opened Turns

  // The clock, and everything asked of the outside so far.
  class World {
    const env: Outside
    var asked: seq<Call>
    var now: int

    constructor (env: Outside)
      ensures this.env == env && asked == [] && now == 0
    {
      this.env, asked, now := env, [], 0;
    }

    function At(): Moment
      reads this
    {
      Moment(now, asked)
    }

    method Ask(c: Call) returns (r: Reply)
      modifies this`asked
      ensures r == env(|old(asked)|) && asked == old(asked) + [c]
    {
      r := env(|asked|);
      asked := asked + [c];
    }

    // The clock may have moved since the last reading, but not back.
    method Now() returns (t: int)
      modifies this
      ensures t == now == old(now) + env(|old(asked)|).passed && asked == old(asked) + [Clock]
    {
      var r := Ask(Clock);
      now := now + r.passed;
      t := now;
    }
  }

  // The positions read for one runner, which both passes share: a settle marks its position here.
  class Scan {
    const read: bool
    const partial: bool
    var positions: seq<Position>

    constructor (read: bool, partial: bool, positions: seq<Position>)
      ensures this.read == read && this.partial == partial && this.positions == positions
    {
      this.read, this.partial, this.positions := read, partial, positions;
    }

    method Find(k: Key) returns (i: int)
      ensures -1 <= i < |positions|
      ensures i >= 0 ==> positions[i].key == k
      ensures i < 0 ==> forall j :: 0 <= j < |positions| ==> positions[j].key != k
    {
      i := 0;
      while i < |positions|
        invariant 0 <= i <= |positions| && forall j :: 0 <= j < i ==> positions[j].key != k
      {
        if positions[i].key == k {
          return;
        }
        i := i + 1;
      }
      i := -1;
    }
  }

  class Runner {
    const id: Id
    const holdSecs: int
    var order: seq<Key>
    var books: map<Key, Book>

    constructor (id: Id, holdSecs: int, order: seq<Key>, books: map<Key, Book>)
      ensures this.id == id && this.holdSecs == holdSecs && this.order == order && this.books == books
    {
      this.id, this.holdSecs, this.order, this.books := id, holdSecs, order, books;
    }

    ghost predicate AcksStand(w: World, scan: Scan, from: nat)
      reads this, w, scan
    {
      AcksStandIn(w.env, w.asked, from, id, order, books, scan.positions)
    }

    // Something else than a settle is asked, of a position that is not closed if of any.
    method Ask(w: World, scan: Scan, ghost from: nat, c: Call) returns (r: Reply)
      requires AcksStand(w, scan, from) && !c.SettleCall?
      requires Keyed(c) ==> c.id == id && !Closed(books, scan.positions, c.key)
      modifies w`asked
      ensures AcksStand(w, scan, from) && NotBefore(w.At(), old(w.At()))
      ensures r == w.env(|old(w.asked)|) && w.asked == old(w.asked) + [c]
    {
      AskingStands(w.env, w.asked, c, from, id, order, books, scan.positions);
      r := w.Ask(c);
    }

    method Now(w: World, scan: Scan, ghost from: nat) returns (t: int)
      requires AcksStand(w, scan, from)
      modifies w
      ensures AcksStand(w, scan, from) && NotBefore(w.At(), old(w.At()))
      ensures t == w.now == old(w.now) + w.env(|old(w.asked)|).passed && w.asked == old(w.asked) + [Clock]
    {
      AskingStands(w.env, w.asked, Clock, from, id, order, books, scan.positions);
      t := w.Now();
    }

    // A book goes.
    method Delete(w: World, scan: Scan, ghost from: nat, k: Key)
      requires AcksStand(w, scan, from)
      modifies this
      ensures AcksStand(w, scan, from) && books == old(books) - {k} && order == Without(old(order), k)
    {
      WithoutTakesOut(order, k);
      order := Without(order, k);
      books := books - {k};
    }

    // A book whose position is not closed changes, and stays.
    method Keep(w: World, scan: Scan, ghost from: nat, k: Key, b: Book)
      requires AcksStand(w, scan, from) && k in books
      modifies this`books
      ensures AcksStand(w, scan, from) && books == old(books)[k := b]
    {
      SameBooksStand(w.env, w.asked, from, id, order, books, books[k := b], scan.positions);
      books := books[k := b];
    }

    // `resolvePending`.
    method ResolvePending(w: World, scan: Scan, ghost from: nat, k: Key) returns (resolved: bool)
      requires AcksStand(w, scan, from) && k in books && books[k].pending
      modifies this`books, w`asked
      ensures AcksStand(w, scan, from) && w.asked == old(w.asked) + [Look(id, k)]
      ensures var r := w.env(|old(w.asked)|); resolved == r.ok && books == old(books)[k := Resolved(old(books)[k], r)]
    {
      var r := Ask(w, scan, from, Look(id, k));
      Keep(w, scan, from, k, if r.ok || r.changed then Rebooked(books[k], r, false) else books[k]);
      resolved := r.ok;
    }

    // `swap`, of all the book's USDC. It ends in flight with the swap pending, and otherwise with none.
    method Swap(w: World, scan: Scan, ghost from: nat, k: Key) returns (end: SwapEnd)
      requires AcksStand(w, scan, from) && k in books && !books[k].pending
      modifies this`books, w`asked
      ensures AcksStand(w, scan, from) && w.asked == old(w.asked) + [Unwind(id, k)]
      ensures var r := w.env(|old(w.asked)|); end == r.swap && books == old(books)[k := Swapped(old(books)[k], r)]
    {
      var r := Ask(w, scan, from, Unwind(id, k));
      end := r.swap;
      if end.SwapBooked? || (end.SwapError? && r.changed) {
        Keep(w, scan, from, k, Rebooked(books[k], r, false));
      } else {
        Keep(w, scan, from, k, books[k].(pending := end.SwapInFlight?));
      }
    }

    // `trade`: some swaps, the last of which may be in flight.
    method TradeBook(w: World, scan: Scan, ghost from: nat, k: Key)
      requires AcksStand(w, scan, from) && k in books
      modifies this`books, w`asked
      ensures AcksStand(w, scan, from) && w.asked == old(w.asked) + [Swaps(id, k)]
      ensures var r := w.env(|old(w.asked)|);
        books == old(books)[k := Rebooked(old(books)[k], r, r.swap.SwapInFlight?)]
    {
      var r := Ask(w, scan, from, Swaps(id, k));
      Keep(w, scan, from, k, Rebooked(books[k], r, r.swap.SwapInFlight?));
    }

    // Sends the settle. If it is acknowledged, the book goes and the position is marked where both passes see it.
    method AskSettle(w: World, scan: Scan, ghost from: nat, i: nat, k: Key, returned: nat) returns (r: Reply)
      requires AcksStand(w, scan, from) && k in books
      requires i < |scan.positions| && scan.positions[i].key == k
      modifies this, w`asked, scan
      ensures AcksStand(w, scan, from)
      ensures r == w.env(|old(w.asked)|) && w.asked == old(w.asked) + [SettleCall(id, k, returned)]
      ensures books == if r.ok then old(books) - {k} else old(books)
      ensures scan.positions ==
        if r.ok then old(scan.positions)[i := old(scan.positions)[i].(status := Settled)] else old(scan.positions)
    {
      AskingStands(w.env, w.asked, SettleCall(id, k, returned), from, id, order, books, scan.positions);
      ClosingStands(w.env, w.asked, returned, from, id, order, books, scan.positions, i, k);
      r := w.Ask(SettleCall(id, k, returned));
      if r.ok {
        order := Without(order, k);
        books := books - {k};
        scan.positions := scan.positions[i := scan.positions[i].(status := Settled)];
      }
    }

    // On the primary RPC and, if that could not be reached and there is one, on the fallback.
    method SendSettle(w: World, scan: Scan, ghost from: nat, i: nat, k: Key, returned: nat)
      returns (settled: bool, ghost send: nat, ghost again: bool)
      requires AcksStand(w, scan, from) && k in books
      requires i < |scan.positions| && scan.positions[i].key == k
      modifies this, w`asked, scan
      ensures AcksStand(w, scan, from) && NotBefore(w.At(), old(w.At()))
      ensures Sent(w.env, Span(old(w.At()), w.At()), send, SettleCall(id, k, returned), again)
      ensures settled == w.env(send).ok
      ensures Asks(Span(old(w.At()), w.At()), SendCalls(SettleCall(id, k, returned), again))
      ensures books == if settled then old(books) - {k} else old(books)
      ensures scan.positions ==
        if settled then old(scan.positions)[i := old(scan.positions)[i].(status := Settled)] else old(scan.positions)
    {
      hide AcksStandIn, Asks;
      ghost var start := w.At();
      send, again := |w.asked|, false;
      var r := AskSettle(w, scan, from, i, k, returned);
      ghost var once := w.At();
      AsksOne(start, once, SettleCall(id, k, returned));
      if !r.ok && r.retried {
        send, again := |w.asked|, true;
        r := AskSettle(w, scan, from, i, k, returned);
        AsksOne(once, w.At(), SettleCall(id, k, returned));
        AsksJoin(start, once, w.At(), [SettleCall(id, k, returned)], [SettleCall(id, k, returned)]);
        ghost var c := SettleCall(id, k, returned);
        assert SendCalls(c, true) == [c] + [c];
      }
      settled := r.ok;
    }

    // The unwind before a settle, unless it is an emergency. If its outcome is unknown, or it failed and there is time
    // to retry, the settle ends here.
    method UnwindFirst(w: World, scan: Scan, ghost from: nat, k: Key, emergency: bool)
      returns (may: bool, ghost u: Unwinding, ghost end: End)
      requires AcksStand(w, scan, from) && k in books && (emergency || !books[k].pending)
      modifies this`books, w
      ensures AcksStand(w, scan, from) && NotBefore(w.At(), old(w.At()))
      ensures Asks(Span(old(w.At()), w.At()),
                   if may then UnwindCalls(id, k, u) else EndCalls(w.env, id, k, old(books)[k], end))
      ensures k in books && books - {k} == old(books) - {k}
      ensures may ==>
        && UnwindIs(w.env, id, k, old(books)[k], emergency, u, Span(old(w.At()), w.At()))
        && books[k] == AfterUnwind(w.env, old(books)[k], u)
      ensures !may ==>
        && EndIs(w.env, id, k, old(books)[k], emergency, end, Span(old(w.At()), w.At())) && !end.Acknowledged?
        && AfterEnd(w.env, old(books)[k], end) == Some(books[k])
    {
      hide AcksStandIn, Asks;
      ghost var call, start := |w.asked|, w.At();
      AsksNothing(start);
      may, u, end := true, NotNeeded, WentInFlight(call);
      if books[k].usdc > 0 && !emergency {
        var swap := Swap(w, scan, from, k);
        ghost var swapped := w.At();
        AsksOne(start, swapped, Unwind(id, k));
        u, may := Unwound(call), !swap.SwapInFlight?;
        if swap.SwapError? {
          var t := Now(w, scan, from);
          AsksAndClock(start, swapped, w.At(), [Unwind(id, k)]);
          may, u, end := PastLastCall(t, books[k].deadline), GivenUp(call, t), UnwindFailed(call, t);
        }
      }
    }

    // `settle`: whether it was acknowledged. An `emergency` skips the unwind.
    method Settle(w: World, scan: Scan, ghost from: nat, i: nat, k: Key, emergency: bool)
      returns (settled: bool, ghost end: End)
      requires AcksStand(w, scan, from)
      requires k in books && (emergency || !books[k].pending)
      requires i < |scan.positions| && scan.positions[i].key == k
      modifies this, w, scan
      ensures AcksStand(w, scan, from) && NotBefore(w.At(), old(w.At()))
      ensures EndIs(w.env, id, k, old(books)[k], emergency, end, Span(old(w.At()), w.At()))
      ensures Asks(Span(old(w.At()), w.At()), EndCalls(w.env, id, k, old(books)[k], end))
      ensures settled <==> end.Acknowledged?
      ensures books - {k} == old(books) - {k} && Get(books, k) == AfterEnd(w.env, old(books)[k], end)
      ensures scan.positions ==
        if settled then old(scan.positions)[i := old(scan.positions)[i].(status := Settled)] else old(scan.positions)
    {
      hide AcksStandIn, UnwindIs, AfterUnwind, EndIs, Asks, EndCalls;
      ghost var start, b := w.At(), books[k];
      ghost var u;
      var may;
      may, u, end := UnwindFirst(w, scan, from, k, emergency);
      if !may {
        return false, end;
      }
      settled, end := PayOut(w, scan, from, i, k, b, emergency, u, start);
    }

    // What the wallet allows to be returned: all of the book's SOL, or less past the last call. Otherwise the settle
    // ends here.
    method Afford(w: World, scan: Scan, ghost from: nat, k: Key, ghost b: Book, ghost emergency: bool,
                  ghost u: Unwinding, ghost start: Moment)
      returns (may: bool, returned: nat, ghost wallet: nat, ghost at: int, ghost end: End)
      requires AcksStand(w, scan, from) && k in books
      requires NotBefore(w.At(), start) && UnwindIs(w.env, id, k, b, emergency, u, Span(start, w.At()))
      requires books[k] == AfterUnwind(w.env, b, u)
      modifies w
      ensures AcksStand(w, scan, from) && NotBefore(w.At(), old(w.At()))
      ensures Asks(Span(old(w.At()), w.At()), [Wallet(id, k)])
      ensures may ==> Affords(w.env, id, k, b, emergency, u, wallet, at, returned, Span(start, w.At()))
      ensures !may ==>
        && EndIs(w.env, id, k, b, emergency, end, Span(start, w.At())) && !end.Acknowledged?
        && AfterEnd(w.env, b, end) == Some(books[k])
        && EndCalls(w.env, id, k, b, end) == UnwindCalls(id, k, u) + [Wallet(id, k)]
    {
      hide AcksStandIn, UnwindIs, AfterUnwind, SettleAmount, Swapped, Asks, UnwindCalls;
      var owed := books[k].sol;
      ghost var asking := w.At();
      wallet, at, end := |w.asked|, w.now, WalletUnread(u, |w.asked|);
      var r := Ask(w, scan, from, Wallet(id, k));
      AsksOne(asking, w.At(), Wallet(id, k));
      UnwindStands(w.env, id, k, b, emergency, u, Span(start, asking), Span(start, w.At()));
      if !r.ok {
        return false, 0, wallet, at, end;
      }
      may, returned := true, SettleAmount(owed, r.wallet);
      if returned < owed {
        ghost var read := w.At();
        var t := Now(w, scan, from);
        AsksAndClock(asking, read, w.At(), [Wallet(id, k)]);
        UnwindStands(w.env, id, k, b, emergency, u, Span(start, read), Span(start, w.At()));
        may, at, end := PastLastCall(t, books[k].deadline), t, ShortOfFunds(u, wallet, t);
      }
    }

    // The rest of `settle`: what the wallet allows is sent.
    method PayOut(w: World, scan: Scan, ghost from: nat, i: nat, k: Key, ghost b: Book, ghost emergency: bool,
                  ghost u: Unwinding, ghost start: Moment)
      returns (settled: bool, ghost end: End)
      requires AcksStand(w, scan, from) && k in books
      requires i < |scan.positions| && scan.positions[i].key == k
      requires NotBefore(w.At(), start) && UnwindIs(w.env, id, k, b, emergency, u, Span(start, w.At()))
      requires books[k] == AfterUnwind(w.env, b, u) && Asks(Span(start, w.At()), UnwindCalls(id, k, u))
      modifies this, w, scan
      ensures AcksStand(w, scan, from) && NotBefore(w.At(), old(w.At()))
      ensures EndIs(w.env, id, k, b, emergency, end, Span(start, w.At()))
      ensures Asks(Span(start, w.At()), EndCalls(w.env, id, k, b, end))
      ensures settled <==> end.Acknowledged?
      ensures books - {k} == old(books) - {k} && Get(books, k) == AfterEnd(w.env, b, end)
      ensures scan.positions ==
        if settled then old(scan.positions)[i := old(scan.positions)[i].(status := Settled)] else old(scan.positions)
    {
      hide AcksStandIn, UnwindIs, AfterUnwind, Sent, Affords, EndIs, Asks, UnwindCalls, SendCalls, Returned;
      ghost var asking := w.At();
      var may, returned;
      ghost var wallet, at, send, again;
      may, returned, wallet, at, end := Afford(w, scan, from, k, b, emergency, u, start);
      AsksJoin(start, asking, w.At(), UnwindCalls(id, k, u), [Wallet(id, k)]);
      if !may {
        return false, end;
      }
      ghost var sending := w.At();
      settled, send, again := SendSettle(w, scan, from, i, k, returned);
      AsksJoin(start, sending, w.At(), UnwindCalls(id, k, u) + [Wallet(id, k)],
               SendCalls(SettleCall(id, k, returned), again));
      end := if settled then Acknowledged(u, wallet, at, send, again) else SettleFailed(u, wallet, at, send, again);
      SettleEnds(w.env, id, k, b, emergency, u, wallet, at, returned, send, again, start, sending, w.At());
    }

    // A book is offered its settle, as part of its turn since `start`.
    method Offer(w: World, scan: Scan, ghost from: nat, i: nat, k: Key, emergency: bool, ghost turn: Turn,
                 ghost look: Option<nat>, ghost start: Moment)
      returns (ghost what: What)
      requires AcksStand(w, scan, from)
      requires k in books && (emergency || !books[k].pending)
      requires i < |scan.positions| && scan.positions[i].key == k
      requires NotBefore(w.At(), start) && turn.id == id && turn.key == k && turn.trading
      requires Asks(Span(start, w.At()), LookCalls(id, k, look))
      requires DueToSettle(turn.book, w.now) && (emergency ==> PastLastCall(w.now, turn.book.deadline))
      requires LookIs(turn, look, Span(start, w.At())) && emergency == Emergency(w.env, look)
      requires books[k] == AfterLook(w.env, turn.book, look)
      modifies this, w, scan
      ensures AcksStand(w, scan, from) && NotBefore(w.At(), old(w.At()))
      ensures what.Offered? && TurnIs(w.env, what, turn, Get(books, k), Span(start, w.At()))
      ensures Asks(Span(start, w.At()), TurnCalls(w.env, what, turn))
      ensures books - {k} == old(books) - {k} && (k in books ==> scan.positions == old(scan.positions))
      ensures OthersSame(old(scan.positions), scan.positions, k)
    {
      hide AcksStandIn, Asks, EndCalls, LookCalls, EndIs, TurnIs, AfterEnd, AfterLook, LookIs, Emergency, OthersSame;
      ghost var offered, b, positions := w.At(), books[k], scan.positions;
      var settled, end := Settle(w, scan, from, i, k, emergency);
      what := Offered(offered.now, look, end);
      OfferedIs(w.env, turn, look, end, start, offered, w.At());
      AsksJoin(start, offered, w.At(), LookCalls(id, k, look), EndCalls(w.env, id, k, b, end));
      OneMarked(positions, i, k);
      EndedIs(w.env, b, end);
    }

    // What became of the book's swap, if one is pending, and the time after.
    method LookFirst(w: World, scan: Scan, ghost from: nat, k: Key, ghost turn: Turn)
      returns (resolved: bool, t: int, ghost look: Option<nat>)
      requires AcksStand(w, scan, from) && k in books && turn.id == id && turn.key == k && turn.book == books[k]
      modifies this`books, w
      ensures AcksStand(w, scan, from) && NotBefore(w.At(), old(w.At())) && t == w.now
      ensures LookIs(turn, look, Span(old(w.At()), w.At())) && !resolved == Emergency(w.env, look)
      ensures Asks(Span(old(w.At()), w.At()), LookCalls(id, k, look))
      ensures k in books && books[k] == AfterLook(w.env, turn.book, look) && books - {k} == old(books) - {k}
      ensures resolved ==> !books[k].pending
    {
      hide AcksStandIn, Asks;
      ghost var start := w.At();
      AsksNothing(start);
      resolved, look := true, None;
      if books[k].pending {
        look := Some(|w.asked|);
        resolved := ResolvePending(w, scan, from, k);
        AsksOne(start, w.At(), Look(id, k));
      }
      ghost var looked := w.At();
      t := Now(w, scan, from);
      AsksAndClock(start, looked, w.At(), LookCalls(id, k, look));
    }

    // The book of a trading position: resolve its swap, then settle or trade. `putOff` leaves it for the next tick.
    method OfferOrTrade(w: World, scan: Scan, ghost from: nat, i: nat, k: Key, settleOnly: bool)
      returns (putOff: bool, ghost what: What)
      requires AcksStand(w, scan, from) && k in books
      requires i < |scan.positions| && scan.positions[i].key == k
      requires settleOnly ==> DueToSettle(books[k], w.now)
      modifies this, w, scan
      ensures AcksStand(w, scan, from) && NotBefore(w.At(), old(w.At()))
      ensures TurnIs(w.env, what, Turn(id, k, old(books)[k], true, settleOnly), Get(books, k),
                     Span(old(w.At()), w.At()))
      ensures Asks(Span(old(w.At()), w.At()), TurnCalls(w.env, what, Turn(id, k, old(books)[k], true, settleOnly)))
      ensures putOff <==> what.PutOff?
      ensures what.PutOff? || what.Traded? || what.Offered?
      ensures books - {k} == old(books) - {k} && (k in books ==> scan.positions == old(scan.positions))
      ensures OthersSame(old(scan.positions), scan.positions, k)
    {
      hide AcksStandIn, OthersSame, TurnIs, LookIs, Emergency, AfterLook, Asks;
      ghost var start, turn, look := w.At(), Turn(id, k, books[k], true, settleOnly), None;
      var resolved, t;
      putOff := false;
      resolved, t, look := LookFirst(w, scan, from, k, turn);
      LookKeeps(w.env, turn.book, look);
      if !resolved {
        if !PastLastCall(t, books[k].deadline) {
          PutOffIs(w.env, turn, look, t, Span(start, w.At()));
          NothingChanges(scan.positions, k);
          return true, PutOff(t, look.value);
        }
        what := Offer(w, scan, from, i, k, true, turn, look, start);
      } else if DueToSettle(books[k], t) {
        what := Offer(w, scan, from, i, k, false, turn, look, start);
      } else if !settleOnly {
        ghost var looked := w.At();
        what := Traded(t, look, |w.asked|);
        TradeBook(w, scan, from, k);
        AsksOne(looked, w.At(), Swaps(id, k));
        AsksJoin(start, looked, w.At(), LookCalls(id, k, look), [Swaps(id, k)]);
        TradedIs(w.env, turn, look, t, start, looked, w.At());
        NothingChanges(scan.positions, k);
      }
    }

    // The turn of a book whose position trades, but for the save; `looked` if it was only looked at.
    method TradingTurn(w: World, scan: Scan, ghost from: nat, i: nat, k: Key, settleOnly: bool)
      returns (looked: bool, ghost what: What)
      requires AcksStand(w, scan, from) && k in books
      requires i < |scan.positions| && scan.positions[i].key == k
      modifies this, w, scan
      ensures AcksStand(w, scan, from) && NotBefore(w.At(), old(w.At()))
      ensures TurnIs(w.env, what, Turn(id, k, old(books)[k], true, settleOnly), Get(books, k),
                     Span(old(w.At()), w.At()))
      ensures Asks(Span(old(w.At()), w.At()), TurnCalls(w.env, what, Turn(id, k, old(books)[k], true, settleOnly)))
      ensures looked <==> what.NotDue? || what.PutOff?
      ensures books - {k} == old(books) - {k} && (k in books ==> scan.positions == old(scan.positions))
      ensures OthersSame(old(scan.positions), scan.positions, k)
    {
      hide Asks, OthersSame, AcksStandIn, TurnIs, TurnCalls;
      ghost var start, turn := w.At(), Turn(id, k, books[k], true, settleOnly);
      var t := Now(w, scan, from);
      if settleOnly && !DueToSettle(books[k], t) {
        AsksOne(start, w.At(), Clock);
        NotDueIs(w.env, turn, t, Span(start, w.At()));
        NothingChanges(scan.positions, k);
        return true, NotDue(t);
      }
      ghost var seen := w.At();
      looked, what := OfferOrTrade(w, scan, from, i, k, settleOnly);
      TurnStands(w.env, what, turn, Get(books, k), Span(seen, w.At()), Span(start, w.At()));
      AsksAfterClock(start, seen, w.At(), TurnCalls(w.env, what, turn));
    }

    // One book's turn in `runBooks`. False if the state could not be saved, which ends the whole pass.
    method BookPass(w: World, scan: Scan, ghost from: nat, k: Key, settleOnly: bool) returns (saved: bool)
      requires AcksStand(w, scan, from) && k in books
      modifies this, w, scan
      ensures AcksStand(w, scan, from) && NotBefore(w.At(), old(w.At()))
      ensures Turned(w.env, Turn(id, k, old(books)[k], IsTradingIn(old(scan.positions), k), settleOnly), Get(books, k),
                     Span(old(w.At()), w.At()), saved)
      ensures books - {k} == old(books) - {k} && (k in books ==> scan.positions == old(scan.positions))
      ensures OthersSame(old(scan.positions), scan.positions, k)
    {
      ghost var start, turn := w.At(), Turn(id, k, books[k], IsTradingIn(scan.positions, k), settleOnly);
      ghost var what := Gone;
      var i := scan.Find(k);
      hide Asks, OthersSame, AcksStandIn, Turned;
      if i < 0 || !scan.positions[i].status.Trading? {
        assert !turn.trading;
        AsksNothing(start);
        Delete(w, scan, from, k);
        NothingChanges(scan.positions, k);
      } else {
        assert turn.trading;
        hide TurnIs, IsTradingIn;
        var looked;
        looked, what := TradingTurn(w, scan, from, i, k, settleOnly);
        if looked {
          TurnedNow(w.env, what, turn, Get(books, k), start, w.At(), []);
          return true;
        }
      }
      ghost var before := w.At();
      var r := Ask(w, scan, from, SaveBooks(id));
      saved := r.ok;
      TurnedNow(w.env, what, turn, Get(books, k), start, before, [SaveBooks(id)]);
    }

    // The loop body of `runBooks`, with what the pass has come to before and after it.
    method NextBook(w: World, scan: Scan, ghost from: nat, settleOnly: bool, keys: seq<Key>, n: nat,
                    ghost whole: map<Key, Book>, ghost found: seq<Position>, ghost p: Progress)
      returns (saved: bool, ghost q: Progress)
      requires AcksStand(w, scan, from) && n == Reached(p) < |keys| && p.saved
      requires PassSoFar(w.env, id, settleOnly, keys, whole, found, scan.positions, p)
      requires p.after == books && Whole(p).hi == w.At() && TradesAs(found, scan.positions, books)
      modifies this, w, scan
      ensures AcksStand(w, scan, from) && Reached(q) == n + 1
      ensures PassSoFar(w.env, id, settleOnly, keys, whole, found, scan.positions, q)
      ensures q.marks == p.marks + [w.At()] && q.after == books && q.saved == saved
      ensures TradesAs(found, scan.positions, books)
    {
      ghost var was, turned, positions, k := books, w.At(), scan.positions, keys[n];
      NextIsThere(w.env, id, settleOnly, keys, whole, found, positions, p);
      hide AcksStandIn, GotThrough, Turned, OthersSame, IsTradingIn, SaveFailed, AsksOfPass, PassSoFar, TradesAs;
      saved := BookPass(w, scan, from, keys[n], settleOnly);
      q := Progress(p.marks + [w.At()], books, saved);
      SoFarFurther(w.env, id, settleOnly, keys, whole, found, positions, scan.positions, p, q);
      StillTrades(found, positions, scan.positions, was, books, k);
    }

    // `runBooks`: each book in turn, in the order they were added. A save that fails ends the pass.
    method RunBooks(w: World, scan: Scan, ghost from: nat, settleOnly: bool) returns (saved: bool, ghost p: Progress)
      requires AcksStand(w, scan, from)
      modifies this, w, scan
      ensures AcksStand(w, scan, from)
      ensures PassIs(w.env, id, settleOnly, old(order), old(books), old(scan.positions), p)
      ensures Whole(p) == Span(old(w.At()), w.At()) && p.after == books && p.saved == saved
      ensures TradesAs(old(scan.positions), scan.positions, books)
      ensures saved <==> !SaveFailed(w.env, w.asked, |old(w.asked)|, id)
    {
      var keys, n := order, 0;
      ghost var start, found, whole := w.At(), scan.positions, books;
      saved, p := true, Progress([start], books, true);
      NothingYet(w.env, id, settleOnly, keys, books, found, start);
      assert TradesAs(found, scan.positions, books);
      hide AcksStandIn, PassSoFar, PassIs, SaveFailed, TradesAs;
      while n < |keys|
        invariant 0 <= n == Reached(p) <= |keys| && saved == p.saved == true
        invariant AcksStand(w, scan, from) && p.marks != [] && Whole(p) == Span(start, w.At()) && p.after == books
        invariant PassSoFar(w.env, id, settleOnly, keys, whole, found, scan.positions, p)
        invariant TradesAs(found, scan.positions, books)
      {
        saved, p := NextBook(w, scan, from, settleOnly, keys, n, whole, found, p);
        n := n + 1;
        if !saved {
          break;
        }
      }
      AllDone(w.env, id, settleOnly, keys, whole, found, scan.positions, p);
    }

    // `maybeDraw`: whether the position was drawn. The new book settles by the settle buffer before the deadline.
    method MaybeDraw(w: World, scan: Scan, ghost from: nat, i: nat) returns (drawn: bool)
      requires AcksStand(w, scan, from)
      requires i < |scan.positions| && scan.positions[i].status.Open?
      modifies this, w, scan
      ensures AcksStand(w, scan, from) && NotBefore(w.At(), old(w.At()))
      ensures
        var p, call := old(scan.positions)[i], |old(w.asked)|;
        var late := old(w.now) + w.env(call).passed >= p.deadline - 720;
        && (drawn <==> !late && w.env(call + 1).ok)
        && w.asked == old(w.asked) + [Clock] + (if late then [] else [DrawCall(id, p.key)])
             + (if drawn then [Clock, SaveOpened(id)] else [])
      ensures !drawn ==> books == old(books) && scan.positions == old(scan.positions)
      ensures
        var p := old(scan.positions)[i];
        drawn ==>
          && scan.positions == old(scan.positions)[i := p.(status := Trading)]
          && books == old(books)[p.key :=
              Book(p.principal, p.principal, 0,
                   if w.now + holdSecs < p.deadline - 600 then w.now + holdSecs else p.deadline - 600, p.deadline, false)]
    {
      var p := scan.positions[i];
      var t := Now(w, scan, from);
      if TooLateToDraw(t, p.deadline) {
        return false;
      }
      var r := Ask(w, scan, from, DrawCall(id, p.key));
      hide AcksStandIn;
      drawn := r.ok;
      if drawn {
        OpenDrawn(w, scan, from, i);
      }
    }

    // A drawn position gets its book, and is marked where both passes see it.
    method OpenDrawn(w: World, scan: Scan, ghost from: nat, i: nat)
      requires AcksStand(w, scan, from)
      requires i < |scan.positions| && scan.positions[i].status.Open?
      modifies this, w, scan
      ensures AcksStand(w, scan, from) && NotBefore(w.At(), old(w.At()))
      ensures w.asked == old(w.asked) + [Clock, SaveOpened(id)]
      ensures
        var p := old(scan.positions)[i];
        && scan.positions == old(scan.positions)[i := p.(status := Trading)]
        && books == old(books)[p.key :=
            Book(p.principal, p.principal, 0,
                 if w.now + holdSecs < p.deadline - 600 then w.now + holdSecs else p.deadline - 600, p.deadline, false)]
    {
      var p := scan.positions[i];
      var t := Now(w, scan, from);
      Add(p.key, Book(p.principal, p.principal, 0, SettleTime(t, p.deadline, holdSecs), p.deadline, false));
      scan.positions := scan.positions[i := p.(status := Trading)];
      var r := Ask(w, scan, from, SaveOpened(id));
    }

    method Add(k: Key, book: Book)
      requires Listed(order, books)
      modifies this
      ensures Listed(order, books) && books == old(books)[k := book]
    {
      if k !in books {
        order := order + [k];
      }
      books := books[k := book];
    }

    // `adoptOrphan`: a trading position without a book gets one, of its principal.
    method AdoptOrphan(w: World, scan: Scan, ghost from: nat, i: nat)
      requires AcksStand(w, scan, from)
      requires i < |scan.positions| && scan.positions[i].status.Trading? && scan.positions[i].key !in books
      modifies this, w
      ensures AcksStand(w, scan, from) && NotBefore(w.At(), old(w.At()))
      ensures w.asked == old(w.asked) + [Clock, Clock, SaveOpened(id)]
      ensures
        var p, first := scan.positions[i], old(w.now) + w.env(|old(w.asked)|).passed;
        var second := first + w.env(|old(w.asked)| + 1).passed;
        books == old(books)[p.key := Book(p.principal, p.principal, 0,
          OrphanSettleAt(first, second, p.drawnAt, p.deadline, holdSecs), p.deadline, false)]
    {
      var p := scan.positions[i];
      var first := Now(w, scan, from);
      var second := Now(w, scan, from);
      var settleAt :=
        Max(first, Min(Max(SettleTime(p.drawnAt, p.deadline, holdSecs), second + 60), p.deadline - SETTLE_BUFFER_SECS));
      Add(p.key, Book(p.principal, p.principal, 0, settleAt, p.deadline, false));
      var r := Ask(w, scan, from, SaveOpened(id));
    }

    // `tick`: the books, then the draws and adoptions. False if the books could not be saved.
    method Tick(w: World, scan: Scan, ghost from: nat) returns (ok: bool, ghost p: Progress)
      requires AcksStand(w, scan, from)
      modifies this, w, scan
      ensures AcksStand(w, scan, from) && NotBefore(w.At(), old(w.At()))
      ensures PassIs(w.env, id, false, old(order), old(books), old(scan.positions), p)
      ensures Whole(p).lo == old(w.At()) && NotBefore(w.At(), Whole(p).hi) && p.saved == ok
      ensures Opens(Span(Whole(p).hi, w.At()), id)
      ensures ok <==> !SaveFailed(w.env, w.asked, |old(w.asked)|, id)
      ensures !ok || scan.partial ==> w.asked == Whole(p).hi.asked && books == p.after
      ensures ok && !scan.partial ==> forall i :: 0 <= i < |scan.positions| && scan.positions[i].status.Trading? ==>
        scan.positions[i].key in books
    {
      ghost var start := w.At();
      ok, p := RunBooks(w, scan, from, false);
      ghost var turned := w.At();
      hide PassIs;
      if ok && !scan.partial {
        var i := 0;
        while i < |scan.positions|
          invariant AcksStand(w, scan, from) && NotBefore(w.At(), turned) && Opens(Span(turned, w.At()), id)
          invariant i <= |scan.positions|
          invariant forall j :: 0 <= j < i && scan.positions[j].status.Trading? ==> scan.positions[j].key in books
          decreases |scan.positions| - i
        {
          ghost var before := w.At();
          if scan.positions[i].status.Open? {
            var drawn := MaybeDraw(w, scan, from, i);
            OpensMore(turned, before, w.At(), id);
          } else if scan.positions[i].status.Trading? && scan.positions[i].key !in books {
            AdoptOrphan(w, scan, from, i);
            OpensMore(turned, before, w.At(), id);
          }
          i := i + 1;
        }
      }
      OpensSaveNothing(w.env, start, turned, w.At(), id);
    }
  }

  // ---------- every runner ----------

  // Runners and scans are separate objects, and every runner has its own id.
  ghost predicate Apart(runners: seq<Runner>, scans: seq<Scan>) {
    && |scans| == |runners|
    && (forall i, j :: 0 <= i < j < |runners| ==> runners[i].id != runners[j].id && runners[i] != runners[j])
    && (forall i, j :: 0 <= i < j < |scans| ==> scans[i] != scans[j])
  }

  ghost predicate TickInv(w: World, runners: seq<Runner>, scans: seq<Scan>, from: nat)
    requires |scans| == |runners|
    reads w, runners, scans
  {
    && from <= |w.asked| && NothingAfterAck(w.env, w.asked, from)
    && forall j :: 0 <= j < |runners| ==> runners[j].AcksStand(w, scans[j], from)
  }

  // One runner's part of the settle pass.
  method SettleDue(w: World, runners: seq<Runner>, scans: seq<Scan>, ghost from: nat, i: nat)
    returns (ghost p: Progress)
    requires Apart(runners, scans) && TickInv(w, runners, scans, from) && i < |runners|
    modifies w, runners[i], scans[i]
    ensures TickInv(w, runners, scans, from) && NotBefore(w.At(), old(w.At()))
    ensures OwnCalls(Span(old(w.At()), w.At()), runners[i].id) && NoTrades(Span(old(w.At()), w.At()))
    ensures scans[i].read ==>
      && PassIs(w.env, runners[i].id, true, old(runners[i].order), old(runners[i].books), old(scans[i].positions), p)
      && Whole(p) == Span(old(w.At()), w.At()) && p.after == runners[i].books
      && TradesAs(old(scans[i].positions), scans[i].positions, p.after)
  {
    p := Progress([], map[], true);
    if scans[i].read {
      ghost var before := w.At();
      ghost var keys, whole, found := runners[i].order, runners[i].books, scans[i].positions;
      var saved;
      saved, p := runners[i].RunBooks(w, scans[i], from, true);
      PassIsOwn(w.env, runners[i].id, true, keys, whole, found, p);
      OthersUntouched(w, runners, scans, from, i, before);
    }
  }

  // The other runners' positions are as they were, and so is what holds of them.
  lemma OthersUntouched(w: World, runners: seq<Runner>, scans: seq<Scan>, from: nat, i: nat, before: Moment)
    requires Apart(runners, scans) && i < |runners| && runners[i].AcksStand(w, scans[i], from)
    requires before.asked <= w.asked && OwnCalls(Span(before, w.At()), runners[i].id)
    requires forall j :: 0 <= j < |runners| && j != i ==>
      AcksStandIn(w.env, before.asked, from, runners[j].id, runners[j].order, runners[j].books, scans[j].positions)
    ensures TickInv(w, runners, scans, from)
  {
    forall j | 0 <= j < |runners| && j != i ensures runners[j].AcksStand(w, scans[j], from) {
      OthersStand(w.env, before.asked, w.asked, from, runners[j].id, runners[j].order, runners[j].books,
                  scans[j].positions);
    }
  }

  // The settle pass of `tickAll`: every runner whose positions were read, in order.
  method SettlePass(w: World, runners: seq<Runner>, scans: seq<Scan>, ghost from: nat)
    returns (ghost passes: seq<Progress>)
    requires Apart(runners, scans) && TickInv(w, runners, scans, from)
    modifies w, runners, scans
    ensures TickInv(w, runners, scans, from) && NotBefore(w.At(), old(w.At()))
    ensures NoTrades(Span(old(w.At()), w.At()))
    ensures |passes| == |runners| && forall j :: 0 <= j < |runners| && scans[j].read ==>
      && PassIs(w.env, runners[j].id, true, old(runners[j].order), old(runners[j].books), old(scans[j].positions),
                passes[j])
      && Within(Whole(passes[j]), Span(old(w.At()), w.At()))
      && passes[j].after == runners[j].books && TradesAs(old(scans[j].positions), scans[j].positions, passes[j].after)
  {
    hide TickInv, PassIs, NoTrades, OwnCalls, TradesAs;
    ghost var start := w.At();
    passes := [];
    NoTradesYet(start);
    var i := 0;
    while i < |runners|
      invariant 0 <= i == |passes| <= |runners| && NotBefore(w.At(), start)
      invariant TickInv(w, runners, scans, from) && NoTrades(Span(start, w.At()))
      invariant forall j :: i <= j < |runners| ==>
        && runners[j].books == old(runners[j].books) && runners[j].order == old(runners[j].order)
        && scans[j].positions == old(scans[j].positions)
      invariant forall j :: 0 <= j < i && scans[j].read ==>
        && PassIs(w.env, runners[j].id, true, old(runners[j].order), old(runners[j].books), old(scans[j].positions),
                  passes[j])
        && passes[j].marks != [] && Within(Whole(passes[j]), Span(start, w.At()))
        && passes[j].after == runners[j].books && TradesAs(old(scans[j].positions), scans[j].positions, passes[j].after)
    {
      ghost var before := w.At();
      ghost var p := SettleDue(w, runners, scans, from, i);
      NoTradesJoin(start, before, w.At());
      passes := passes + [p];
      i := i + 1;
    }
  }

  // One runner's tick, if its positions were read.
  method TickOne(w: World, runners: seq<Runner>, scans: seq<Scan>, ghost from: nat, i: nat)
    returns (ok: bool, ghost p: Progress)
    requires Apart(runners, scans) && TickInv(w, runners, scans, from) && i < |runners|
    modifies w, runners[i], scans[i]
    ensures TickInv(w, runners, scans, from) && NotBefore(w.At(), old(w.At()))
    ensures OwnCalls(Span(old(w.At()), w.At()), runners[i].id)
    ensures ok <==> scans[i].read && !SaveFailed(w.env, w.asked, |old(w.asked)|, runners[i].id)
    ensures scans[i].partial ==> NoDraws(Span(old(w.At()), w.At()))
    ensures scans[i].read ==>
      TradedIn(w.env, runners[i].id, old(runners[i].order), old(runners[i].books), old(scans[i].positions), p,
               Span(old(w.At()), w.At()))
  {
    ok, p := false, Progress([], map[], true);
    if scans[i].read {
      ghost var before := w.At();
      ghost var keys, whole, found := runners[i].order, runners[i].books, scans[i].positions;
      ok, p := runners[i].Tick(w, scans[i], from);
      PassIsOwn(w.env, runners[i].id, false, keys, whole, found, p);
      OpensAreOwn(before, Whole(p).hi, w.At(), runners[i].id);
      OthersUntouched(w, runners, scans, from, i, before);
    }
  }

  // The trading pass of `tickAll`.
  method TickPass(w: World, runners: seq<Runner>, scans: seq<Scan>, ghost from: nat)
    returns (ran: seq<Id>, degraded: seq<Id>, ghost ticks: seq<Progress>)
    requires Apart(runners, scans) && TickInv(w, runners, scans, from)
    modifies w, runners, scans
    ensures TickInv(w, runners, scans, from) && NotBefore(w.At(), old(w.At()))
    ensures forall j :: 0 <= j < |runners| ==>
      && (runners[j].id in ran <==> scans[j].read && !SaveFailed(w.env, w.asked, |old(w.asked)|, runners[j].id))
      && (runners[j].id in degraded <==> runners[j].id in ran && scans[j].partial)
      && (scans[j].partial ==> NoDrawsBy(Span(old(w.At()), w.At()), runners[j].id))
    ensures |ticks| == |runners| && forall j :: 0 <= j < |runners| && scans[j].read ==>
      TradedIn(w.env, runners[j].id, old(runners[j].order), old(runners[j].books), old(scans[j].positions), ticks[j],
               Span(old(w.At()), w.At()))
  {
    hide TickInv, SaveFailed, OwnCalls, NoDraws, TradedIn;
    ran, degraded, ticks := [], [], [];
    ghost var start := w.At();
    var i := 0;
    NoneFailed(w.env, start, runners);
    while i < |runners|
      invariant 0 <= i == |ticks| <= |runners| && NotBefore(w.At(), start) && TickInv(w, runners, scans, from)
      invariant forall j :: i <= j < |runners| ==>
        && runners[j].books == old(runners[j].books) && runners[j].order == old(runners[j].order)
        && scans[j].positions == old(scans[j].positions)
      invariant forall j :: 0 <= j < i && scans[j].read ==>
        TradedIn(w.env, runners[j].id, old(runners[j].order), old(runners[j].books), old(scans[j].positions), ticks[j],
                 Span(start, w.At()))
      invariant forall j :: 0 <= j < |runners| && scans[j].partial ==>
        NoDrawsBy(Span(start, w.At()), runners[j].id)
      invariant forall x :: x in ran || x in degraded ==> exists j :: 0 <= j < i && x == runners[j].id
      invariant forall j :: i <= j < |runners| ==> !SaveFailed(w.env, w.asked, |start.asked|, runners[j].id)
      invariant forall j :: 0 <= j < i ==>
        && (runners[j].id in ran <==> scans[j].read && !SaveFailed(w.env, w.asked, |start.asked|, runners[j].id))
        && (runners[j].id in degraded <==> runners[j].id in ran && scans[j].partial)
    {
      ghost var before := w.At();
      var ok;
      ghost var p;
      ok, p := TickOne(w, runners, scans, from, i);
      ticks := ticks + [p];
      forall j | 0 <= j <= i && scans[j].read
        ensures TradedIn(w.env, runners[j].id, old(runners[j].order), old(runners[j].books), old(scans[j].positions),
                         ticks[j], Span(start, w.At()))
      {
        TradedInStill(w.env, runners[j].id, old(runners[j].order), old(runners[j].books), old(scans[j].positions),
                      ticks[j], Span(if j < i then start else before, if j < i then before else w.At()),
                      Span(start, w.At()));
      }
      forall j | 0 <= j < |runners| && scans[j].partial ensures NoDrawsBy(Span(start, w.At()), runners[j].id) {
        NoDrawsJoin(start, before, w.At(), runners[j].id, runners[i].id);
      }
      forall j | 0 <= j < |runners|
        ensures SaveFailed(w.env, w.asked, |start.asked|, runners[j].id) <==>
          SaveFailed(w.env, before.asked, |start.asked|, runners[j].id)
            || (j == i && SaveFailed(w.env, w.asked, |before.asked|, runners[j].id))
      {
        FailuresApart(w.env, start, before, w.At(), runners[i].id, runners[j].id);
      }
      if ok {
        ran := ran + [runners[i].id];
        if scans[i].partial {
          degraded := degraded + [runners[i].id];
        }
      }
      i := i + 1;
    }
  }

  lemma NoneFailed(env: Outside, at: Moment, runners: seq<Runner>)
    ensures forall j :: 0 <= j < |runners| ==> !SaveFailed(env, at.asked, |at.asked|, runners[j].id)
  {
  }

  // A scan holds what was found, if anything could be.
  ghost predicate Holds(scan: Scan, found: Option<Listing>)
    reads scan
  {
    (scan.read <==> found.Some?) && (scan.read ==> scan.positions == found.value)
  }

  // The positions of one runner, if they can be read.
  method ReadPositions(w: World, runner: Runner) returns (scan: Scan)
    modifies w`asked
    ensures fresh(scan) && Distinct(scan.positions)
    ensures var first := w.env(|old(w.asked)|);
      && w.asked == old(w.asked) + [ScanCall(runner.id)] + (if first.ok then [] else [FetchCall(runner.id)])
      && (scan.partial <==> !first.ok)
    ensures Holds(scan, FoundBy(w.env, |old(w.asked)|))
  {
    var scanned := w.Ask(ScanCall(runner.id));
    if scanned.ok {
      scan := new Scan(true, false, scanned.positions);
    } else {
      var fetched := w.Ask(FetchCall(runner.id));
      scan := new Scan(fetched.ok, true, fetched.positions);
    }
  }

  // The reads of `tickAll`, one runner after the other.
  method ReadAll(w: World, runners: seq<Runner>) returns (scans: seq<Scan>)
    modifies w`asked
    ensures |scans| == |runners| && NotBefore(w.At(), old(w.At())) && NoTrades(Span(old(w.At()), w.At()))
    ensures |w.asked| == ReadBegins(w.env, |old(w.asked)|, |runners|)
    ensures forall j :: 0 <= j < |scans| ==>
      && fresh(scans[j]) && Distinct(scans[j].positions)
      && Holds(scans[j], FoundBy(w.env, ReadBegins(w.env, |old(w.asked)|, j)))
      && (scans[j].partial <==> !w.env(ReadBegins(w.env, |old(w.asked)|, j)).ok)
      && ReadMade(w.env, w.asked, ReadBegins(w.env, |old(w.asked)|, j), runners[j].id)
    ensures forall i, j :: 0 <= i < j < |scans| ==> scans[i] != scans[j]
    ensures forall n :: |old(w.asked)| <= n < |w.asked| ==> !Keyed(w.asked[n])
  {
    hide FoundBy, Holds, Distinct, ReadBegins;
    scans := [];
    ghost var start := w.At();
    FirstRead(w.env, |w.asked|);
    while |scans| < |runners|
      invariant |scans| <= |runners| && NotBefore(w.At(), start) && w.now == start.now
      invariant |w.asked| == ReadBegins(w.env, |start.asked|, |scans|)
      invariant forall j :: 0 <= j < |scans| ==>
        && fresh(scans[j]) && Distinct(scans[j].positions)
        && Holds(scans[j], FoundBy(w.env, ReadBegins(w.env, |start.asked|, j)))
        && (scans[j].partial <==> !w.env(ReadBegins(w.env, |start.asked|, j)).ok)
        && ReadMade(w.env, w.asked, ReadBegins(w.env, |start.asked|, j), runners[j].id)
      invariant forall i, j :: 0 <= i < j < |scans| ==> scans[i] != scans[j]
      invariant forall n :: |start.asked| <= n < |w.asked| ==> !Keyed(w.asked[n])
    {
      NextRead(w.env, |start.asked|, |scans|);
      var scan := ReadPositions(w, runners[|scans|]);
      scans := scans + [scan];
    }
  }

  // `tickAll`: the reads, the settle pass up to the moment `turned`, and the rest. `passes` are the runners' settle
  // passes.
  method TickAll(w: World, runners: seq<Runner>)
    returns (ran: seq<Id>, degraded: seq<Id>, ghost passes: seq<Progress>, ghost ticks: seq<Progress>,
             ghost turned: Moment)
    requires forall i, j :: 0 <= i < j < |runners| ==> runners[i].id != runners[j].id && runners[i] != runners[j]
    requires forall j :: 0 <= j < |runners| ==> Listed(runners[j].order, runners[j].books)
    modifies w, runners
    ensures NotBefore(turned, old(w.At())) && NotBefore(w.At(), turned)
    // no trade and no draw before every settle pass is over
    ensures NoTrades(Span(old(w.At()), turned))
    // every runner's positions are read; its due books, as far as its saves allow, are offered their settle; and then
    // the books that are left have their turns again
    ensures |passes| == |ticks| == |runners|
    ensures forall j :: 0 <= j < |runners| ==>
      var first := ReadBegins(w.env, |old(w.asked)|, j);
      && ReadMade(w.env, w.asked, first, runners[j].id)
      && match FoundBy(w.env, first)
         case None => true
         case Some(found) =>
           && SettledFirst(w.env, runners[j].id, old(runners[j].order), old(runners[j].books), found, passes[j],
                           Span(old(w.At()), turned))
           && TradedNext(w.env, runners[j].id, passes[j].after, found, ticks[j], Span(turned, w.At()))
    // nothing is asked of a position after its settle was acknowledged, and its book is gone for good
    ensures NothingAfterAck(w.env, w.asked, |old(w.asked)|)
    ensures forall j, k :: 0 <= j < |runners| && Acked(w.env, w.asked, |old(w.asked)|, runners[j].id, k) ==>
      k !in runners[j].books
    // the runners that ran, and those of them that ran on their books' positions only
    ensures forall j :: 0 <= j < |runners| ==>
      var first := ReadBegins(w.env, |old(w.asked)|, j);
      && (runners[j].id in ran <==>
           FoundBy(w.env, first).Some? && !SaveFailed(w.env, w.asked, |turned.asked|, runners[j].id))
      && (runners[j].id in degraded <==> runners[j].id in ran && !w.env(first).ok)
      && (!w.env(first).ok ==> NoDrawsBy(Span(turned, w.At()), runners[j].id))
  {
    hide NoTrades, ReadBegins, PassIs, SaveFailed, NoDrawsBy, TradesAs;
    ghost var from, start := |w.asked|, w.At();
    var scans := ReadAll(w, runners);
    ghost var read := w.At();
    NoAcksYet(w.env, w.asked, from);
    passes := SettlePass(w, runners, scans, from);
    turned := w.At();
    NoTradesJoin(start, read, turned);
    forall j | 0 <= j < |runners| && scans[j].read
      ensures
        var found := FoundBy(w.env, ReadBegins(w.env, from, j)).value;
        SettledFirst(w.env, runners[j].id, old(runners[j].order), old(runners[j].books), found, passes[j],
                     Span(start, turned))
    {
      var found := FoundBy(w.env, ReadBegins(w.env, from, j)).value;
      SettlesFirst(w.env, runners[j].id, old(runners[j].order), old(runners[j].books), found, passes[j],
                   Span(read, turned), Span(start, turned));
    }
    label Turning:
    ran, degraded, ticks := TickPass(w, runners, scans, from);
    forall j | 0 <= j < |runners| && scans[j].read
      ensures
        var found := FoundBy(w.env, ReadBegins(w.env, from, j)).value;
        TradedNext(w.env, runners[j].id, passes[j].after, found, ticks[j], Span(turned, w.At()))
    {
      var found := FoundBy(w.env, ReadBegins(w.env, from, j)).value;
      TradesNext(w.env, runners[j].id, old@Turning(runners[j].order), passes[j].after, found,
                 old@Turning(scans[j].positions), ticks[j], Span(turned, w.At()));
    }
  }

  // A tick of one runner, the first thing asked of the world.
  method FirstTick(w: World, runner: Runner, ghost found: Listing) returns (ghost p: Progress, ghost turned: Moment)
    requires w.asked == [] && Listed(runner.order, runner.books) && FoundBy(w.env, 0) == Some(found)
    modifies w, runner
    ensures NotBefore(w.At(), turned) && w.asked != [] && w.asked[0] == ScanCall(runner.id)
    ensures SettledFirst(w.env, runner.id, old(runner.order), old(runner.books), found, p, Span(old(w.At()), turned))
  {
    FirstRead(w.env, 0);
    hide Listed, FoundBy, ReadBegins, NoTrades, NoDrawsBy, SaveFailed, Acked, NothingAfterAck, SettledFirst, TradedNext;
    ghost var passes, ticks;
    var ran, degraded;
    ran, degraded, passes, ticks, turned := TickAll(w, [runner]);
    p := passes[0];
  }

  // A tick of one runner with two due books: the positions are read, and no call after that is answered. The first book
  // is offered its settle; its save fails, and the second is not offered.
  method SecondWaits() returns (w: World, books: map<Key, Book>, found: Listing, ghost p: Progress)
    ensures HeldUp(w.env, 0, 1, 2, books, found, p, Span(Moment(0, []), w.At()))
  {
    var book := Book(5, 5, 0, 0, 1000, false);
    var first, second := Position(1, Trading, 5, 0, 1000), Position(2, Trading, 5, 0, 1000);
    books, found := map[1 := book, 2 := book], [first, second];
    var listing := found;
    w := new World(n => Reply(0, n == 0, false, false, SwapError, 0, 0, 0, listing));
    var runner := new Runner(0, 0, [1, 2], books);
    assert found[0].key == 1 && found[1].key == 2;
    assert Listed([1, 2], books) && IsTradingIn(found, 1) && IsTradingIn(found, 2);
    assert FoundBy(w.env, 0) == Some(found);
    hide Listed, IsTradingIn, FoundBy, SettledFirst, HeldUp;
    ghost var turned;
    p, turned := FirstTick(w, runner, found);
    SecondWaitsFor(w.env, 0, 1, 2, books, found, p, Moment(0, []), turned, w.At());
  }
}
