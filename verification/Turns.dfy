// What the agent loop asks of the world, and what the calls and replies of a pass over a runner's books have to do with
// those books: the vocabulary and the lemmas of the loop in `Ticks`.
module Turns {
  import opened Numbers

  type Key = nat
  type Id = nat

  const SETTLE_BUFFER_SECS: int := 600
  const LAST_CALL_SECS: int := 120
  const SETTLE_RESERVE_LAMPORTS: nat := 890_880 + 10_000

  datatype Book = Book(principal: nat, sol: nat, usdc: nat, settleAt: int, deadline: int, pending: bool)

  datatype Status = Open | Trading | Settled | ClosedOtherwise

  datatype Position = Position(key: Key, status: Status, principal: nat, drawnAt: int, deadline: int)

  datatype SwapEnd = SwapBooked | SwapInFlight | SwapError

  // What one call outside finds: how far the clock moved, whether the call was answered, and what it answered.
  datatype Reply = Reply(passed: nat, ok: bool, retried: bool, changed: bool, swap: SwapEnd, sol: nat, usdc: nat,
                         wallet: nat, positions: Listing)

  predicate Distinct(positions: seq<Position>) {
    forall i, j :: 0 <= i < j < |positions| ==> positions[i].key != positions[j].key
  }

  // What an RPC node lists: no account twice.
  type Listing = positions: seq<Position> | Distinct(positions)

  // The n-th call's reply, whatever it may be.
  type Outside = nat -> Reply

  // The positions a runner has read when its first call was this one: scanned, or else fetched by the keys in its
  // books.
  function FoundBy(env: Outside, call: nat): Option<Listing> {
    if env(call).ok then Some(env(call).positions)
    else if env(call + 1).ok then Some(env(call + 1).positions)
    else None
  }

  // The first call of the j-th runner's read.
  function ReadBegins(env: Outside, first: nat, j: nat): nat {
    if j == 0 then first
    else
      var last := ReadBegins(env, first, j - 1);
      if env(last).ok then last + 1 else last + 2
  }

  // What the loop asks for. Every reply is to one of these, and answers it alone.
  datatype Call =
    | Clock
    | ScanCall(id: Id)                      // the agent's positions
    | FetchCall(id: Id)                     // the positions its books name
    | Look(id: Id, key: Key)                // what became of the book's pending swap
    | Unwind(id: Id, key: Key)              // a swap of all the book's USDC, before its settle
    | Swaps(id: Id, key: Key)               // what the strategy trades
    | Wallet(id: Id, key: Key)              // the trading wallet's balance, before the settle of a book
    | SettleCall(id: Id, key: Key, returned: nat)
    | DrawCall(id: Id, key: Key)
    | SaveBooks(id: Id)                     // the state file, after a book's turn
    | SaveOpened(id: Id)                    // and after a draw or an adoption

  // The calls that concern one position.
  predicate Keyed(c: Call) {
    c.Look? || c.Unwind? || c.Swaps? || c.Wallet? || c.SettleCall? || c.DrawCall?
  }

  predicate Concerns(c: Call, id: Id, k: Key) {
    Keyed(c) && c.id == id && c.key == k
  }

  predicate TradesOrDraws(c: Call) {
    c.Swaps? || c.DrawCall?
  }

  // ---------- timing and amounts ----------

  function SettleTime(drawnAt: int, deadline: int, holdSecs: int): int {
    Min(deadline - SETTLE_BUFFER_SECS, drawnAt + holdSecs)
  }

  predicate DueToSettle(book: Book, t: int) {
    t >= book.settleAt || t >= book.deadline - SETTLE_BUFFER_SECS
  }

  predicate TooLateToDraw(t: int, deadline: int) {
    t >= deadline - SETTLE_BUFFER_SECS - 120
  }

  predicate PastLastCall(t: int, deadline: int) {
    t >= deadline - LAST_CALL_SECS
  }

  function SettleAmount(owed: nat, wallet: nat): nat {
    var spendable := wallet - SETTLE_RESERVE_LAMPORTS;
    if spendable <= 0 then 0 else if owed < spendable then owed else spendable
  }

  // It is the most of what is owed that leaves the wallet its reserve.
  lemma SettleAmountIsMost(owed: nat, wallet: nat, amount: nat)
    requires 0 < amount <= owed
    ensures amount <= SettleAmount(owed, wallet) <==> wallet - amount >= 900_880
  {
  }

  // When an orphan settles: on its old schedule if that is a minute off, soon if not, never in the past.
  function OrphanSettleAt(first: int, second: int, drawnAt: int, deadline: int, holdSecs: int): int {
    Max(first, Min(Max(SettleTime(drawnAt, deadline, holdSecs), second + 60), deadline - SETTLE_BUFFER_SECS))
  }

  lemma OrphanKeepsItsSchedule(first: int, second: int, drawnAt: int, deadline: int, holdSecs: int)
    requires first <= second
    ensures
      var settleAt := OrphanSettleAt(first, second, drawnAt, deadline, holdSecs);
      var planned := if drawnAt + holdSecs < deadline - 600 then drawnAt + holdSecs else deadline - 600;
      && settleAt >= first
      && (planned >= second + 60 ==> settleAt == planned)
      && (planned <= second + 60 ==> settleAt <= second + 60)
      && (second + 60 <= deadline - 600 && planned <= second + 60 ==> settleAt == second + 60)
      && (settleAt <= deadline - 600 <==> first <= deadline - 600)
  {
  }

  // ---------- what was asked ----------

  // A point in time: the clock, and everything asked so far.
  datatype Moment = Moment(now: int, asked: seq<Call>)

  datatype Span = Span(lo: Moment, hi: Moment)

  predicate During(s: Span, at: int) {
    s.lo.now <= at <= s.hi.now
  }

  // The n-th call was this one, made in the span.
  predicate Made(s: Span, n: nat, c: Call) {
    |s.lo.asked| <= n < |s.hi.asked| && s.hi.asked[n] == c
  }

  predicate NotBefore(later: Moment, earlier: Moment) {
    earlier.now <= later.now && earlier.asked <= later.asked
  }

  predicate Within(s: Span, longer: Span) {
    NotBefore(s.lo, longer.lo) && NotBefore(longer.hi, s.hi)
  }

  // The n-th call settled the position.
  predicate AckedAt(env: Outside, asked: seq<Call>, n: nat, id: Id, k: Key)
    requires n < |asked|
  {
    asked[n].SettleCall? && asked[n].id == id && asked[n].key == k && env(n).ok
  }

  ghost predicate Acked(env: Outside, asked: seq<Call>, from: nat, id: Id, k: Key) {
    exists n :: from <= n < |asked| && AckedAt(env, asked, n, id, k)
  }

  // After a settle is acknowledged, nothing is asked of the position again.
  ghost predicate NothingAfterAck(env: Outside, asked: seq<Call>, from: nat) {
    forall m, n :: from <= m < n < |asked| && Keyed(asked[n]) ==> !AckedAt(env, asked, m, asked[n].id, asked[n].key)
  }

  // A state file that could not be written after a book's turn.
  ghost predicate SaveFailed(env: Outside, asked: seq<Call>, from: nat, id: Id) {
    exists n :: from <= n < |asked| && asked[n] == SaveBooks(id) && !env(n).ok
  }

  // ---------- one book's turn ----------

  // A book as a pass finds it, and whether the position read for it is trading.
  datatype Turn = Turn(id: Id, key: Key, book: Book, trading: bool, settleOnly: bool)

  // A book after swaps that may have changed what it holds.
  function Rebooked(b: Book, r: Reply, pending: bool): Book {
    Book(b.principal, r.sol, r.usdc, b.settleAt, b.deadline, pending)
  }

  // After `resolvePending`. A throw may come after the book was changed, from saving it.
  function Resolved(b: Book, r: Reply): Book {
    if r.ok || r.changed then Rebooked(b, r, false) else b
  }

  // After one swap. An error may come after the swap was booked, from saving it.
  function Swapped(b: Book, r: Reply): Book {
    if r.swap.SwapBooked? || (r.swap.SwapError? && r.changed) then Rebooked(b, r, false)
    else b.(pending := r.swap.SwapInFlight?)
  }

  // How the unwind before a settle went, if it did not stop the settle.
  datatype Unwinding =
    | NotNeeded
    | Unwound(call: nat)
    | GivenUp(call: nat, at: int)           // it failed past the last call

  // How a settle that was offered ended.
  datatype End =
    | WentInFlight(call: nat)               // the unwind's outcome is unknown
    | UnwindFailed(call: nat, at: int)      // and it is not the last call yet
    | WalletUnread(unwind: Unwinding, wallet: nat)
    | ShortOfFunds(unwind: Unwinding, wallet: nat, at: int)
    | SettleFailed(unwind: Unwinding, wallet: nat, at: int, send: nat, again: bool)
    | Acknowledged(unwind: Unwinding, wallet: nat, at: int, send: nat, again: bool)

  // What a turn came to; the numbers are those of the calls that decided it.
  datatype What =
    | Gone                                  // its position is closed or missing: the book is dropped
    | NotDue(at: int)
    | PutOff(at: int, call: nat)            // its swap is unresolved, and it is not the last call yet
    | Traded(at: int, look: Option<nat>, swaps: nat)
    | Offered(at: int, look: Option<nat>, end: End)

  function AfterLook(env: Outside, b: Book, look: Option<nat>): Book {
    match look
    case None => b
    case Some(n) => Resolved(b, env(n))
  }

  // A swap still unresolved makes an emergency of the settle.
  predicate Emergency(env: Outside, look: Option<nat>) {
    look.Some? && !env(look.value).ok
  }

  function AfterUnwind(env: Outside, b: Book, u: Unwinding): (r: Book)
    ensures r.deadline == b.deadline
  {
    match u
    case NotNeeded => b
    case _ => Swapped(b, env(u.call))
  }

  // What is left of the book: nothing once its settle is acknowledged.
  function AfterEnd(env: Outside, b: Book, end: End): Option<Book> {
    match end
    case WentInFlight(n) => Some(Swapped(b, env(n)))
    case UnwindFailed(n, _) => Some(Swapped(b, env(n)))
    case Acknowledged(_, _, _, _, _) => None
    case _ => Some(AfterUnwind(env, b, end.unwind))
  }

  // The book's pending swap, if it has one, was looked up.
  predicate LookIs(turn: Turn, look: Option<nat>, s: Span) {
    && (look.Some? <==> turn.book.pending)
    && (look.Some? ==> Made(s, look.value, Look(turn.id, turn.key)))
  }

  // All the book's USDC was swapped, if it has any and this is no emergency.
  predicate UnwindIs(env: Outside, id: Id, k: Key, b: Book, emergency: bool, u: Unwinding, s: Span) {
    && (u.NotNeeded? <==> b.usdc == 0 || emergency)
    && (!u.NotNeeded? ==> Made(s, u.call, Unwind(id, k)))
    && (u.Unwound? ==> env(u.call).swap.SwapBooked?)
    && (u.GivenUp? ==> env(u.call).swap.SwapError? && During(s, u.at) && PastLastCall(u.at, b.deadline))
  }

  // A call goes to the primary RPC, and if that could not be reached and there is one, `again` to the fallback; `n` is
  // the last of the two.
  predicate Sent(env: Outside, s: Span, n: nat, c: Call, again: bool) {
    && Made(s, n, c)
    && (if again then n > 0 && Made(s, n - 1, c) && !env(n - 1).ok && env(n - 1).retried
        else env(n).ok || !env(n).retried)
  }

  // The wallet's balance was read, and allows this much of what the book holds to be returned: less than all of it only
  // past the last call.
  predicate Affords(env: Outside, id: Id, k: Key, b: Book, emergency: bool, u: Unwinding, wallet: nat, at: int,
                    returned: nat, s: Span) {
    && UnwindIs(env, id, k, b, emergency, u, s) && WalletRead(env, id, k, u, wallet, s) && env(wallet).ok
    && var owed := AfterUnwind(env, b, u).sol;
       && returned == SettleAmount(owed, env(wallet).wallet)
       && During(s, at) && (returned < owed ==> PastLastCall(at, b.deadline))
  }

  // And the settle was sent for that much.
  predicate SettleSent(env: Outside, id: Id, k: Key, b: Book, emergency: bool, u: Unwinding, wallet: nat, at: int,
                       send: nat, again: bool, s: Span) {
    var returned := Returned(env, b, u, wallet);
    && Affords(env, id, k, b, emergency, u, wallet, at, returned, s)
    && wallet < send && Sent(env, s, send, SettleCall(id, k, returned), again)
  }

  function Returned(env: Outside, b: Book, u: Unwinding, wallet: nat): nat {
    SettleAmount(AfterUnwind(env, b, u).sol, env(wallet).wallet)
  }

  predicate WalletRead(env: Outside, id: Id, k: Key, u: Unwinding, wallet: nat, s: Span) {
    Made(s, wallet, Wallet(id, k)) && (!u.NotNeeded? ==> u.call < wallet)
  }

  // How the settle of a book may end, in the span since it was offered: the book is as it was then.
  predicate EndIs(env: Outside, id: Id, k: Key, b: Book, emergency: bool, end: End, s: Span) {
    match end
    case WentInFlight(n) =>
      && b.usdc > 0 && !emergency && Made(s, n, Unwind(id, k)) && env(n).swap.SwapInFlight?
    case UnwindFailed(n, at) =>
      && b.usdc > 0 && !emergency && Made(s, n, Unwind(id, k)) && env(n).swap.SwapError?
      && During(s, at) && !PastLastCall(at, b.deadline)
    case WalletUnread(u, wallet) =>
      UnwindIs(env, id, k, b, emergency, u, s) && WalletRead(env, id, k, u, wallet, s) && !env(wallet).ok
    case ShortOfFunds(u, wallet, at) =>
      && UnwindIs(env, id, k, b, emergency, u, s) && WalletRead(env, id, k, u, wallet, s) && env(wallet).ok
      && (var owed := AfterUnwind(env, b, u).sol; SettleAmount(owed, env(wallet).wallet) < owed)
      && During(s, at) && !PastLastCall(at, b.deadline)
    case SettleFailed(u, wallet, at, send, again) =>
      SettleSent(env, id, k, b, emergency, u, wallet, at, send, again, s) && !env(send).ok
    case Acknowledged(u, wallet, at, send, again) =>
      SettleSent(env, id, k, b, emergency, u, wallet, at, send, again, s) && env(send).ok
  }

  // The first call a settle makes.
  function FirstCall(end: End): nat {
    match end
    case WentInFlight(n) => n
    case UnwindFailed(n, _) => n
    case _ => if end.unwind.NotNeeded? then end.wallet else end.unwind.call
  }

  // What a book's turn may come to, and what it leaves of the book. Only a book whose position is closed or missing
  // goes unsettled; one whose position trades is offered its settle if it is due, unless its swap is found unresolved
  // before the last call; and only a book that is not due is traded, or left alone by a settle pass.
  predicate TurnIs(env: Outside, what: What, turn: Turn, after: Option<Book>, s: Span) {
    var book := turn.book;
    match what
    case Gone => !turn.trading && after.None?
    case NotDue(at) =>
      turn.trading && turn.settleOnly && During(s, at) && !DueToSettle(book, at) && after == Some(book)
    case PutOff(at, look) =>
      && turn.trading && LookIs(turn, Some(look), s) && !env(look).ok
      && During(s, at) && !PastLastCall(at, book.deadline) && (turn.settleOnly ==> DueToSettle(book, at))
      && after == Some(AfterLook(env, book, Some(look)))
    case Traded(at, look, swaps) =>
      && turn.trading && !turn.settleOnly && LookIs(turn, look, s) && !Emergency(env, look)
      && During(s, at) && !DueToSettle(book, at)
      && Made(s, swaps, Swaps(turn.id, turn.key)) && (look.Some? ==> look.value < swaps)
      && after == Some(Rebooked(book, env(swaps), env(swaps).swap.SwapInFlight?))
    case Offered(at, look, end) =>
      && turn.trading && LookIs(turn, look, s) && (look.Some? ==> look.value < FirstCall(end))
      && During(s, at) && DueToSettle(book, at) && (Emergency(env, look) ==> PastLastCall(at, book.deadline))
      && var offered := AfterLook(env, book, look);
         && EndIs(env, turn.id, turn.key, offered, Emergency(env, look), end, s)
         && after == AfterEnd(env, offered, end)
  }

  lemma EndStands(env: Outside, id: Id, k: Key, b: Book, emergency: bool, end: End, s: Span, longer: Span)
    requires EndIs(env, id, k, b, emergency, end, s) && Within(s, longer)
    ensures EndIs(env, id, k, b, emergency, end, longer)
    ensures FirstCall(end) >= |s.lo.asked|
  {
  }

  lemma TurnStands(env: Outside, what: What, turn: Turn, after: Option<Book>, s: Span, longer: Span)
    requires TurnIs(env, what, turn, after, s) && Within(s, longer)
    ensures TurnIs(env, what, turn, after, longer)
  {
    if what.Offered? {
      EndStands(env, turn.id, turn.key, AfterLook(env, turn.book, what.look), Emergency(env, what.look), what.end, s,
                longer);
    }
    hide EndIs;
  }

  lemma OfferedIs(env: Outside, turn: Turn, look: Option<nat>, end: End, start: Moment, offered: Moment, now: Moment)
    requires turn.trading && NotBefore(offered, start) && NotBefore(now, offered)
    requires LookIs(turn, look, Span(start, offered))
    requires DueToSettle(turn.book, offered.now)
    requires Emergency(env, look) ==> PastLastCall(offered.now, turn.book.deadline)
    requires EndIs(env, turn.id, turn.key, AfterLook(env, turn.book, look), Emergency(env, look), end,
                   Span(offered, now))
    ensures TurnIs(env, Offered(offered.now, look, end), turn, AfterEnd(env, AfterLook(env, turn.book, look), end),
                   Span(start, now))
  {
    EndStands(env, turn.id, turn.key, AfterLook(env, turn.book, look), Emergency(env, look), end, Span(offered, now),
              Span(start, now));
    LookStands(turn, look, Span(start, offered), Span(start, now));
    hide EndIs, AfterLook, AfterEnd, Emergency;
  }

  lemma EndedIs(env: Outside, b: Book, end: End)
    ensures AfterEnd(env, b, end).None? <==> end.Acknowledged?
  {
  }

  lemma NotDueIs(env: Outside, turn: Turn, at: int, s: Span)
    requires turn.trading && turn.settleOnly && During(s, at) && !DueToSettle(turn.book, at)
    ensures TurnIs(env, NotDue(at), turn, Some(turn.book), s) && TurnCalls(env, NotDue(at), turn) == []
  {
  }

  lemma PutOffIs(env: Outside, turn: Turn, look: Option<nat>, at: int, s: Span)
    requires turn.trading && LookIs(turn, look, s) && Emergency(env, look)
    requires During(s, at) && !PastLastCall(at, turn.book.deadline) && (turn.settleOnly ==> DueToSettle(turn.book, at))
    ensures look.Some? && TurnIs(env, PutOff(at, look.value), turn, Some(AfterLook(env, turn.book, look)), s)
  {
  }

  lemma TradedIs(env: Outside, turn: Turn, look: Option<nat>, at: int, start: Moment, looked: Moment, end: Moment)
    requires turn.trading && !turn.settleOnly && LookIs(turn, look, Span(start, looked)) && !Emergency(env, look)
    requires NotBefore(looked, start) && NotBefore(end, looked)
    requires end.asked == looked.asked + [Swaps(turn.id, turn.key)]
    requires During(Span(start, end), at) && !DueToSettle(turn.book, at)
    ensures
      var swaps := |looked.asked|;
      TurnIs(env, Traded(at, look, swaps), turn, Some(Rebooked(turn.book, env(swaps), env(swaps).swap.SwapInFlight?)),
             Span(start, end))
  {
    LookStands(turn, look, Span(start, looked), Span(start, end));
  }

  // A swap that is resolved changes what the book holds only.
  lemma LookKeeps(env: Outside, b: Book, look: Option<nat>)
    ensures
      var after := AfterLook(env, b, look);
      && after.deadline == b.deadline && after.settleAt == b.settleAt && after.principal == b.principal
      && (Emergency(env, look) ==> look.Some?)
  {
  }

  // What may be asked in a book's turn: of that position only, no draw, and no trade in a settle pass.
  predicate OfBook(c: Call, id: Id, k: Key, settleOnly: bool) {
    c.Clock? || (Concerns(c, id, k) && !c.DrawCall? && (settleOnly ==> !c.Swaps?))
  }

  ghost predicate AsksOf(s: Span, id: Id, k: Key, settleOnly: bool) {
    forall n :: |s.lo.asked| <= n < |s.hi.asked| ==> OfBook(s.hi.asked[n], id, k, settleOnly)
  }

  // What is asked in a span, readings of the clock apart.
  function NoClocks(t: seq<Call>): seq<Call> {
    if t == [] then []
    else
      var last := t[|t| - 1];
      NoClocks(t[..|t| - 1]) + if last.Clock? then [] else [last]
  }

  predicate Asks(s: Span, calls: seq<Call>) {
    |s.lo.asked| <= |s.hi.asked| && NoClocks(s.hi.asked[|s.lo.asked|..]) == calls
  }

  lemma {:induction false} NoClocksJoin(a: seq<Call>, b: seq<Call>)
    ensures NoClocks(a + b) == NoClocks(a) + NoClocks(b)
  {
    if b == [] {
      assert a + b == a;
    } else {
      NoClocksJoin(a, b[..|b| - 1]);
      assert (a + b)[..|a + b| - 1] == a + b[..|b| - 1];
    }
  }

  lemma {:induction false} NoClocksHold(t: seq<Call>)
    ensures forall c :: c in NoClocks(t) <==> c in t && !c.Clock?
  {
    if t != [] {
      NoClocksHold(t[..|t| - 1]);
      assert t == t[..|t| - 1] + [t[|t| - 1]];
    }
  }

  lemma AsksJoin(a: Moment, b: Moment, c: Moment, first: seq<Call>, more: seq<Call>)
    requires NotBefore(b, a) && NotBefore(c, b) && Asks(Span(a, b), first) && Asks(Span(b, c), more)
    ensures NotBefore(c, a) && Asks(Span(a, c), first + more)
  {
    assert c.asked[|a.asked|..] == b.asked[|a.asked|..] + c.asked[|b.asked|..];
    NoClocksJoin(b.asked[|a.asked|..], c.asked[|b.asked|..]);
  }

  lemma AsksOne(a: Moment, b: Moment, c: Call)
    requires b.asked == a.asked + [c]
    ensures Asks(Span(a, b), if c.Clock? then [] else [c])
  {
    assert b.asked[|a.asked|..] == [c] && [c][..0] == [];
  }

  lemma AsksAndClock(a: Moment, b: Moment, c: Moment, calls: seq<Call>)
    requires NotBefore(b, a) && NotBefore(c, b) && Asks(Span(a, b), calls) && c.asked == b.asked + [Clock]
    ensures NotBefore(c, a) && Asks(Span(a, c), calls)
  {
    AsksOne(b, c, Clock);
    AsksJoin(a, b, c, calls, []);
    assert calls + [] == calls;
  }

  lemma AsksAfterClock(a: Moment, b: Moment, c: Moment, calls: seq<Call>)
    requires NotBefore(b, a) && NotBefore(c, b) && b.asked == a.asked + [Clock] && Asks(Span(b, c), calls)
    ensures NotBefore(c, a) && Asks(Span(a, c), calls)
  {
    AsksOne(a, b, Clock);
    AsksJoin(a, b, c, [], calls);
    assert [] + calls == calls;
  }

  lemma AsksNothing(a: Moment)
    ensures Asks(Span(a, a), [])
  {
  }

  function LookCalls(id: Id, k: Key, look: Option<nat>): seq<Call> {
    if look.Some? then [Look(id, k)] else []
  }

  function UnwindCalls(id: Id, k: Key, u: Unwinding): seq<Call> {
    if u.NotNeeded? then [] else [Unwind(id, k)]
  }

  function SendCalls(c: Call, again: bool): seq<Call> {
    if again then [c, c] else [c]
  }

  // All that an offered settle asks, in order.
  function EndCalls(env: Outside, id: Id, k: Key, b: Book, end: End): seq<Call> {
    match end
    case WentInFlight(_) => [Unwind(id, k)]
    case UnwindFailed(_, _) => [Unwind(id, k)]
    case WalletUnread(u, _) => UnwindCalls(id, k, u) + [Wallet(id, k)]
    case ShortOfFunds(u, _, _) => UnwindCalls(id, k, u) + [Wallet(id, k)]
    case _ =>
      UnwindCalls(id, k, end.unwind) + [Wallet(id, k)]
        + SendCalls(SettleCall(id, k, Returned(env, b, end.unwind, end.wallet)), end.again)
  }

  // And all that a turn asks, before the save that ends it.
  function TurnCalls(env: Outside, what: What, turn: Turn): seq<Call> {
    match what
    case Gone => []
    case NotDue(_) => []
    case PutOff(_, _) => [Look(turn.id, turn.key)]
    case Traded(_, look, _) => LookCalls(turn.id, turn.key, look) + [Swaps(turn.id, turn.key)]
    case Offered(_, look, end) =>
      LookCalls(turn.id, turn.key, look) + EndCalls(env, turn.id, turn.key, AfterLook(env, turn.book, look), end)
  }

  // A turn that only looked saves nothing; any other ends with a save, which may fail.
  ghost predicate SaveIs(env: Outside, what: What, turn: Turn, s: Span, saved: bool) {
    if what.NotDue? || what.PutOff? then saved && Asks(s, TurnCalls(env, what, turn))
    else
      var n := |s.hi.asked| - 1;
      && |s.lo.asked| <= n && s.hi.asked[n] == SaveBooks(turn.id) && saved == env(n).ok
      && Asks(Span(s.lo, Moment(s.hi.now, s.hi.asked[..n])), TurnCalls(env, what, turn))
  }

  lemma TurnAsksOf(env: Outside, what: What, turn: Turn, after: Option<Book>, s: Span, part: Span)
    requires TurnIs(env, what, turn, after, s) && Asks(part, TurnCalls(env, what, turn))
    ensures AsksOf(part, turn.id, turn.key, turn.settleOnly)
  {
    NoClocksHold(part.hi.asked[|part.lo.asked|..]);
    CallsOfBook(env, what, turn, after, s);
    forall n | |part.lo.asked| <= n < |part.hi.asked|
      ensures OfBook(part.hi.asked[n], turn.id, turn.key, turn.settleOnly)
    {
      assert part.hi.asked[n] in part.hi.asked[|part.lo.asked|..];
    }
  }

  lemma CallsOfBook(env: Outside, what: What, turn: Turn, after: Option<Book>, s: Span)
    requires TurnIs(env, what, turn, after, s)
    ensures forall c :: c in TurnCalls(env, what, turn) ==> OfBook(c, turn.id, turn.key, turn.settleOnly)
  {
  }

  ghost predicate Turned(env: Outside, turn: Turn, after: Option<Book>, s: Span, saved: bool) {
    && NotBefore(s.hi, s.lo)
    && exists what :: TurnIs(env, what, turn, after, s) && SaveIs(env, what, turn, s, saved)
  }

  // The settle of a book was offered, at a time it was due, and ended in one of the ways it may, past the last call in
  // one of fewer.
  ghost predicate WasOffered(env: Outside, turn: Turn, s: Span) {
    exists what: What, after :: what.Offered? && TurnIs(env, what, turn, after, s)
      && (s.lo.now >= turn.book.deadline - 120 ==> Final(what.end))
  }

  // The only endings past the last call.
  predicate Final(end: End) {
    end.Acknowledged? || end.WentInFlight? || end.WalletUnread? || end.SettleFailed?
  }

  // A book that is due when a settle pass starts, its position trading, is offered its settle in its turn, unless it
  // has a swap pending and the last call has not come. Past the last call only a failed call or an unwind in flight
  // keeps the settle from being acknowledged.
  lemma DueIsOffered(env: Outside, turn: Turn, after: Option<Book>, own: Span, s: Span, saved: bool)
    requires Turned(env, turn, after, own, saved) && Within(own, s)
    requires turn.trading && turn.settleOnly
    requires s.lo.now >= turn.book.settleAt || s.lo.now >= turn.book.deadline - 600
    requires !turn.book.pending || s.lo.now >= turn.book.deadline - 120
    ensures WasOffered(env, turn, s)
  {
    var what :| TurnIs(env, what, turn, after, own) && SaveIs(env, what, turn, own, saved);
    assert what.Offered?;
    TurnStands(env, what, turn, after, own, s);
    hide SaveIs;
    PastIsFinal(env, turn, what, after, s);
  }

  lemma PastIsFinal(env: Outside, turn: Turn, what: What, after: Option<Book>, s: Span)
    requires what.Offered? && TurnIs(env, what, turn, after, s)
    ensures s.lo.now >= turn.book.deadline - 120 ==> Final(what.end)
  {
  }

  // Offering a settle takes a call about the position.
  lemma OfferedAsks(env: Outside, turn: Turn, s: Span) returns (n: nat)
    requires WasOffered(env, turn, s)
    ensures |s.lo.asked| <= n < |s.hi.asked| && Concerns(s.hi.asked[n], turn.id, turn.key)
  {
    var what: What, after :| what.Offered? && TurnIs(env, what, turn, after, s);
    n := FirstCall(what.end);
    FirstConcerns(env, turn.id, turn.key, AfterLook(env, turn.book, what.look), Emergency(env, what.look), what.end, s);
    hide EndIs;
  }

  lemma FirstConcerns(env: Outside, id: Id, k: Key, b: Book, emergency: bool, end: End, s: Span)
    requires EndIs(env, id, k, b, emergency, end, s)
    ensures |s.lo.asked| <= FirstCall(end) < |s.hi.asked| && Concerns(s.hi.asked[FirstCall(end)], id, k)
  {
  }

  // Whatever is asked in a turn has its reason: a book is traded only in a trading pass and before it is due; its USDC
  // is unwound, the wallet read and a settle sent only once it is due, and with a swap unresolved only in the last two
  // minutes before the deadline; and a settle is sent after the wallet was read, for all the book holds if the wallet
  // keeps its reserve of 900,880 lamports then, and otherwise, in those two minutes, for what is over the reserve.
  ghost predicate AskedRightly(env: Outside, turn: Turn, s: Span, n: nat)
    requires |s.lo.asked| <= n < |s.hi.asked|
  {
    var c, b := s.hi.asked[n], turn.book;
    && (Keyed(c) ==> turn.trading)
    && (c.Look? ==> b.pending)
    && (c.Swaps? ==> !turn.settleOnly && s.lo.now < b.settleAt && s.lo.now < b.deadline - 600)
    && (c.Unwind? || c.Wallet? || c.SettleCall? ==>
          && (s.hi.now >= b.settleAt || s.hi.now >= b.deadline - 600)
          && (b.pending ==>
                exists m :: Made(s, m, Look(turn.id, turn.key)) && (env(m).ok || s.hi.now >= b.deadline - 120)))
    && (c.SettleCall? ==> exists m, look, unwind :: SettlesWith(env, turn, s, c.returned, m, look, unwind))
  }

  // What the book holds by then: as found, unless the look-up or the unwind says otherwise.
  function SolBy(env: Outside, b: Book, look: Option<nat>, unwind: Option<nat>): nat {
    if unwind.Some? && (env(unwind.value).swap == SwapBooked || env(unwind.value).changed) then env(unwind.value).sol
    else if look.Some? && (env(look.value).ok || env(look.value).changed) then env(look.value).sol
    else b.sol
  }

  // All USDC it has by then is unwound, unless the swap is unresolved.
  predicate UnwindsIf(env: Outside, b: Book, look: Option<nat>) {
    && (look.Some? ==> env(look.value).ok)
    && (if look.Some? then env(look.value).usdc > 0 else b.usdc > 0)
  }

  predicate SettlesWith(env: Outside, turn: Turn, s: Span, returned: nat, m: nat, look: Option<nat>,
                        unwind: Option<nat>) {
    && Made(s, m, Wallet(turn.id, turn.key)) && env(m).ok
    && (look.Some? <==> turn.book.pending) && (look.Some? ==> Made(s, look.value, Look(turn.id, turn.key)))
    && (unwind.Some? <==> UnwindsIf(env, turn.book, look))
    && (unwind.Some? ==> Made(s, unwind.value, Unwind(turn.id, turn.key)) && unwind.value < m)
    && Pays(env, turn, s, returned, m, SolBy(env, turn.book, look, unwind))
  }

  predicate Pays(env: Outside, turn: Turn, s: Span, returned: nat, m: nat, owed: nat) {
    && (returned == owed || (returned < owed && s.hi.now >= turn.book.deadline - 120))
    && (returned > 0 ==> returned + 900_880 <= env(m).wallet)
    && (returned < owed ==> env(m).wallet <= returned + 900_880)
  }

  lemma TurnAsksRightly(env: Outside, turn: Turn, after: Option<Book>, s: Span, saved: bool, n: nat)
    requires Turned(env, turn, after, s, saved) && |s.lo.asked| <= n < |s.hi.asked|
    ensures AskedRightly(env, turn, s, n)
  {
    hide TurnIs, SaveIs, AskedRightly;
    var what :| TurnIs(env, what, turn, after, s) && SaveIs(env, what, turn, s, saved);
    if Keyed(s.hi.asked[n]) {
      KeyedIsOfTurn(env, what, turn, s, saved, n);
      CallIsRight(env, what, turn, after, s, n);
    } else {
      SaveIsRight(env, turn, s, n);
    }
  }

  lemma SaveIsRight(env: Outside, turn: Turn, s: Span, n: nat)
    requires |s.lo.asked| <= n < |s.hi.asked| && !Keyed(s.hi.asked[n])
    ensures AskedRightly(env, turn, s, n)
  {
  }

  lemma KeyedIsOfTurn(env: Outside, what: What, turn: Turn, s: Span, saved: bool, n: nat)
    requires SaveIs(env, what, turn, s, saved) && |s.lo.asked| <= n < |s.hi.asked| && Keyed(s.hi.asked[n])
    ensures s.hi.asked[n] in TurnCalls(env, what, turn)
  {
    hide TurnCalls;
    var upTo := if what.NotDue? || what.PutOff? then |s.hi.asked| else |s.hi.asked| - 1;
    assert s.hi.asked[..|s.hi.asked|] == s.hi.asked;
    IsAsked(Span(s.lo, Moment(s.hi.now, s.hi.asked[..upTo])), TurnCalls(env, what, turn), n);
  }

  lemma IsAsked(s: Span, calls: seq<Call>, n: nat)
    requires Asks(s, calls) && |s.lo.asked| <= n < |s.hi.asked| && !s.hi.asked[n].Clock?
    ensures s.hi.asked[n] in calls
  {
    var t := s.hi.asked[|s.lo.asked|..];
    assert t[n - |s.lo.asked|] == s.hi.asked[n];
    NoClocksHold(t);
  }

  lemma CallIsRight(env: Outside, what: What, turn: Turn, after: Option<Book>, s: Span, n: nat)
    requires TurnIs(env, what, turn, after, s) && |s.lo.asked| <= n < |s.hi.asked|
    requires s.hi.asked[n] in TurnCalls(env, what, turn)
    ensures AskedRightly(env, turn, s, n)
  {
    if what.Offered? {
      hide TurnIs, SettlesWith;
      OfferIsDue(env, what, turn, after, s);
      OfferAsks(env, what, turn, s.hi.asked[n]);
      if s.hi.asked[n].SettleCall? {
        SettleIsRight(env, what, turn, after, s, s.hi.asked[n].returned);
      }
      hide TurnCalls;
    } else {
      OthersAskRightly(env, what, turn, after, s, n);
    }
  }

  lemma OfferAsks(env: Outside, what: What, turn: Turn, c: Call)
    requires what.Offered? && c in TurnCalls(env, what, turn)
    ensures Keyed(c) && !c.Swaps? && (c.Look? ==> what.look.Some?)
  {
  }

  lemma OthersAskRightly(env: Outside, what: What, turn: Turn, after: Option<Book>, s: Span, n: nat)
    requires TurnIs(env, what, turn, after, s) && !what.Offered? && |s.lo.asked| <= n < |s.hi.asked|
    requires s.hi.asked[n] in TurnCalls(env, what, turn)
    ensures AskedRightly(env, turn, s, n)
  {
  }

  lemma OfferIsDue(env: Outside, what: What, turn: Turn, after: Option<Book>, s: Span)
    requires TurnIs(env, what, turn, after, s) && what.Offered?
    ensures turn.trading && (what.look.Some? ==> turn.book.pending)
    ensures s.hi.now >= turn.book.settleAt || s.hi.now >= turn.book.deadline - 600
    ensures turn.book.pending ==>
      exists m :: Made(s, m, Look(turn.id, turn.key)) && (env(m).ok || s.hi.now >= turn.book.deadline - 120)
  {
    hide EndIs;
    if turn.book.pending {
      assert Made(s, what.look.value, Look(turn.id, turn.key));
    }
  }

  lemma SettleIsRight(env: Outside, what: What, turn: Turn, after: Option<Book>, s: Span, returned: nat)
    requires TurnIs(env, what, turn, after, s) && what.Offered?
    requires SettleCall(turn.id, turn.key, returned) in TurnCalls(env, what, turn)
    ensures exists m, look, unwind :: SettlesWith(env, turn, s, returned, m, look, unwind)
  {
    var b, u := AfterLook(env, turn.book, what.look), what.end.unwind;
    assert what.end.SettleFailed? || what.end.Acknowledged?;
    var owed := AfterUnwind(env, b, u).sol;
    LookKeeps(env, turn.book, what.look);
    var unwind := if u.NotNeeded? then None else Some(u.call);
    Holding(env, turn, what.look, u, Emergency(env, what.look), s);
    SentPays(env, turn, b, Emergency(env, what.look), what.end, s, returned);
    hide Pays, AfterLook, AfterUnwind, SettleAmount;
    assert SettlesWith(env, turn, s, returned, what.end.wallet, what.look, unwind);
  }

  lemma Holding(env: Outside, turn: Turn, look: Option<nat>, u: Unwinding, emergency: bool, s: Span)
    requires UnwindIs(env, turn.id, turn.key, AfterLook(env, turn.book, look), emergency, u, s)
    requires emergency == Emergency(env, look)
    ensures
      var unwind := if u.NotNeeded? then None else Some(u.call);
      && SolBy(env, turn.book, look, unwind) == AfterUnwind(env, AfterLook(env, turn.book, look), u).sol
      && (unwind.Some? <==> UnwindsIf(env, turn.book, look))
  {
  }

  lemma SentPays(env: Outside, turn: Turn, b: Book, emergency: bool, end: End, s: Span, returned: nat)
    requires (end.SettleFailed? || end.Acknowledged?) && EndIs(env, turn.id, turn.key, b, emergency, end, s)
    requires b.deadline == turn.book.deadline && returned == Returned(env, b, end.unwind, end.wallet)
    ensures Pays(env, turn, s, returned, end.wallet, AfterUnwind(env, b, end.unwind).sol)
  {
  }

  // ---------- a pass over one runner's books ----------

  // No book, and marked as settled.
  ghost predicate Closed(books: map<Key, Book>, positions: seq<Position>, k: Key) {
    && k !in books
    && forall i :: 0 <= i < |positions| && positions[i].key == k ==> positions[i].status.Settled?
  }

  predicate IsTradingIn(positions: seq<Position>, k: Key) {
    exists i :: 0 <= i < |positions| && positions[i].key == k && positions[i].status.Trading?
  }

  // The keys of the books, in the order they were added.
  ghost predicate Listed(order: seq<Key>, books: map<Key, Book>) {
    NoRepeats(order) && forall k :: k in order <==> k in books
  }

  function Without(order: seq<Key>, k: Key): seq<Key> {
    if order == [] then [] else if order[0] == k then order[1..] else [order[0]] + Without(order[1..], k)
  }

  predicate NoRepeats(order: seq<Key>) {
    forall i, j :: 0 <= i < j < |order| ==> order[i] != order[j]
  }

  lemma {:induction false} WithoutTakesOut(order: seq<Key>, k: Key)
    requires NoRepeats(order)
    ensures NoRepeats(Without(order, k))
    ensures forall x :: x in Without(order, k) <==> x in order && x != k
  {
    if order != [] {
      var rest := order[1..];
      assert order == [order[0]] + rest;
      forall x | x in rest ensures x != order[0] {
        var i :| 0 <= i < |rest| && rest[i] == x;
        assert order[i + 1] == x;
      }
      if order[0] != k {
        WithoutTakesOut(rest, k);
        var left := Without(rest, k);
        forall i | 0 <= i < |left| ensures left[i] != order[0] {
          assert left[i] in left;
        }
      }
    }
  }

  // The books are listed, nothing was asked of a position since `from` after its settle was acknowledged, and nothing
  // is about to be.
  ghost predicate AcksStandIn(env: Outside, asked: seq<Call>, from: nat, id: Id, order: seq<Key>, books: map<Key, Book>,
                              positions: seq<Position>) {
    && from <= |asked| && NothingAfterAck(env, asked, from)
    && Distinct(positions) && Listed(order, books)
    && forall k: Key :: Acked(env, asked, from, id, k) ==> Closed(books, positions, k)
  }

  lemma AckedEarlier(env: Outside, asked: seq<Call>, c: Call, from: nat, id: Id, k: Key)
    requires from <= |asked| && Acked(env, asked + [c], from, id, k)
    ensures Acked(env, asked, from, id, k) || (Concerns(c, id, k) && c.SettleCall? && env(|asked|).ok)
  {
    var n :| from <= n < |asked + [c]| && AckedAt(env, asked + [c], n, id, k);
    assert n < |asked| ==> AckedAt(env, asked, n, id, k);
  }

  // Anything may be asked of a position that is not closed.
  lemma AskingStands(env: Outside, asked: seq<Call>, c: Call, from: nat, id: Id, order: seq<Key>,
                     books: map<Key, Book>, positions: seq<Position>)
    requires AcksStandIn(env, asked, from, id, order, books, positions)
    requires Keyed(c) ==> c.id == id && !Closed(books, positions, c.key)
    ensures NothingAfterAck(env, asked + [c], from)
    ensures !c.SettleCall? || !env(|asked|).ok ==> AcksStandIn(env, asked + [c], from, id, order, books, positions)
    ensures forall k: Key :: Acked(env, asked + [c], from, id, k) ==>
      Closed(books, positions, k) || (Concerns(c, id, k) && c.SettleCall? && env(|asked|).ok)
  {
    forall k: Key | Acked(env, asked + [c], from, id, k)
      ensures Closed(books, positions, k) || (Concerns(c, id, k) && c.SettleCall? && env(|asked|).ok)
    {
      AckedEarlier(env, asked, c, from, id, k);
    }
    AppendedAfterAcks(env, asked, c, from);
  }

  lemma AppendedAfterAcks(env: Outside, asked: seq<Call>, c: Call, from: nat)
    requires from <= |asked| && NothingAfterAck(env, asked, from)
    requires Keyed(c) ==> !Acked(env, asked, from, c.id, c.key)
    ensures NothingAfterAck(env, asked + [c], from)
  {
    var longer := asked + [c];
    forall m, n | from <= m < n < |longer| && Keyed(longer[n])
      ensures !AckedAt(env, longer, m, longer[n].id, longer[n].key)
    {
      assert AckedAt(env, longer, m, longer[n].id, longer[n].key) ==>
        AckedAt(env, asked, m, longer[n].id, longer[n].key);
    }
  }

  // A settle was acknowledged: the book goes, and the position is marked where both passes see it.
  lemma ClosingStands(env: Outside, asked: seq<Call>, returned: nat, from: nat, id: Id, order: seq<Key>,
                      books: map<Key, Book>, positions: seq<Position>, i: nat, k: Key)
    requires AcksStandIn(env, asked, from, id, order, books, positions) && k in books
    requires i < |positions| && positions[i].key == k
    ensures AcksStandIn(env, asked + [SettleCall(id, k, returned)], from, id, Without(order, k), books - {k},
                        positions[i := positions[i].(status := Settled)])
  {
    var c, closed := SettleCall(id, k, returned), positions[i := positions[i].(status := Settled)];
    AskingStands(env, asked, c, from, id, order, books, positions);
    WithoutTakesOut(order, k);
    forall j: Key | Acked(env, asked + [c], from, id, j) ensures Closed(books - {k}, closed, j) {
      if j == k {
        OnlyOne(positions, i, k);
      } else {
        assert Closed(books, positions, j);
      }
    }
  }

  lemma OnlyOne(positions: seq<Position>, i: nat, k: Key)
    requires Distinct(positions) && i < |positions| && positions[i].key == k
    ensures forall j :: 0 <= j < |positions| && positions[j].key == k ==> j == i
  {
  }

  lemma SameBooksStand(env: Outside, asked: seq<Call>, from: nat, id: Id, order: seq<Key>, before: map<Key, Book>,
                       after: map<Key, Book>, positions: seq<Position>)
    requires AcksStandIn(env, asked, from, id, order, before, positions) && after.Keys == before.Keys
    ensures AcksStandIn(env, asked, from, id, order, after, positions)
  {
  }

  // What another runner asks says nothing of this one's positions.
  lemma OthersStand(env: Outside, before: seq<Call>, after: seq<Call>, from: nat, id: Id, order: seq<Key>,
                    books: map<Key, Book>, positions: seq<Position>)
    requires AcksStandIn(env, before, from, id, order, books, positions) && NothingAfterAck(env, after, from)
    requires before <= after && forall n :: |before| <= n < |after| && Keyed(after[n]) ==> after[n].id != id
    ensures AcksStandIn(env, after, from, id, order, books, positions)
  {
    forall k: Key | Acked(env, after, from, id, k) ensures Closed(books, positions, k) {
      var n :| from <= n < |after| && AckedAt(env, after, n, id, k);
      assert n < |before| && AckedAt(env, before, n, id, k);
    }
  }

  // Only the position with one key may have changed.
  ghost predicate OthersSame(before: seq<Position>, after: seq<Position>, k: Key) {
    && |after| == |before|
    && forall i :: 0 <= i < |before| ==> after[i].key == before[i].key && (before[i].key != k ==> after[i] == before[i])
  }

  lemma OneMarked(positions: seq<Position>, i: nat, k: Key)
    requires i < |positions| && positions[i].key == k
    ensures OthersSame(positions, positions[i := positions[i].(status := Settled)], k)
    ensures OthersSame(positions, positions, k)
  {
  }

  lemma NothingChanges(positions: seq<Position>, k: Key)
    ensures OthersSame(positions, positions, k)
  {
  }

  // The positions of these keys trade as they did.
  ghost predicate SameTrading(before: seq<Position>, after: seq<Position>, keys: seq<Key>) {
    forall k :: k in keys ==> IsTradingIn(after, k) == IsTradingIn(before, k)
  }

  // And those of these books.
  ghost predicate TradesAs(before: seq<Position>, after: seq<Position>, books: map<Key, Book>) {
    forall k :: k in books ==> IsTradingIn(after, k) == IsTradingIn(before, k)
  }

  lemma StillTrades(found: seq<Position>, before: seq<Position>, after: seq<Position>, was: map<Key, Book>,
                    books: map<Key, Book>, k: Key)
    requires TradesAs(found, before, was) && books - {k} == was - {k} && OthersSame(before, after, k)
    requires k in was && (k in books ==> after == before)
    ensures TradesAs(found, after, books)
  {
    forall x | x in books ensures IsTradingIn(after, x) == IsTradingIn(found, x) {
      if x != k {
        OthersKept(was, books, k, x);
        assert IsTradingIn(after, x) == IsTradingIn(before, x);
      }
    }
  }

  // Only which positions trade matters to a pass.
  lemma PassIsAlso(env: Outside, id: Id, settleOnly: bool, order: seq<Key>, books: map<Key, Book>,
                   found: seq<Position>, positions: seq<Position>, p: Progress)
    requires PassIs(env, id, settleOnly, order, books, positions, p) && TradesAs(found, positions, books)
    ensures PassIs(env, id, settleOnly, order, books, found, p)
  {
    hide Turned, IsTradingIn, AsksOfPass;
    forall m | 0 <= m < Reached(p)
      ensures Turned(env, TurnOf(id, order[m], books[order[m]], found, settleOnly), Get(p.after, order[m]),
                     Span(p.marks[m], p.marks[m + 1]), p.saved || m < Reached(p) - 1)
    {
      assert TurnOf(id, order[m], books[order[m]], found, settleOnly)
        == TurnOf(id, order[m], books[order[m]], positions, settleOnly);
    }
  }

  lemma TradingSoFar(found: seq<Position>, before: seq<Position>, after: seq<Position>, keys: seq<Key>, n: nat)
    requires NoRepeats(keys) && n < |keys| && SameTrading(found, before, keys[n..])
    requires OthersSame(before, after, keys[n])
    ensures SameTrading(found, after, keys[n + 1..])
  {
    forall k | k in keys[n + 1..] ensures IsTradingIn(after, k) == IsTradingIn(found, k) {
      var m :| n < m < |keys| && keys[m] == k;
      assert keys[n..][m - n] == k && k != keys[n];
      assert IsTradingIn(after, k) == IsTradingIn(before, k);
    }
  }

  function Get(books: map<Key, Book>, k: Key): Option<Book> {
    if k in books then Some(books[k]) else None
  }

  // The turn of a book, given the positions as they were read.
  ghost function TurnOf(id: Id, k: Key, book: Book, positions: seq<Position>, settleOnly: bool): Turn {
    Turn(id, k, book, IsTradingIn(positions, k), settleOnly)
  }

  // A pass over the books: when it started and when each turn ended, the books it left, and whether all were saved.
  datatype Progress = Progress(marks: seq<Moment>, after: map<Key, Book>, saved: bool)

  function Reached(p: Progress): nat {
    if p.marks == [] then 0 else |p.marks| - 1
  }

  function Whole(p: Progress): Span
    requires p.marks != []
  {
    Span(p.marks[0], p.marks[|p.marks| - 1])
  }

  // What may be asked in a pass: of these positions of this runner only, no draw, and no trade in a settle pass.
  predicate OfPass(c: Call, id: Id, keys: seq<Key>, settleOnly: bool) {
    || c.Clock? || c == SaveBooks(id)
    || (Keyed(c) && c.id == id && c.key in keys && !c.DrawCall? && (settleOnly ==> !c.Swaps?))
  }

  ghost predicate AsksOfPass(s: Span, id: Id, keys: seq<Key>, settleOnly: bool) {
    forall n :: |s.lo.asked| <= n < |s.hi.asked| ==> OfPass(s.hi.asked[n], id, keys, settleOnly)
  }

  // The first books, in the order they were added, had their turns one after the other; the rest are as they were, and
  // nothing was asked of their positions. Only the save of the last turn may have failed, and does so if any book is
  // left.
  ghost predicate PassIs(env: Outside, id: Id, settleOnly: bool, order: seq<Key>, books: map<Key, Book>,
                         found: seq<Position>, p: Progress) {
    && 0 < |p.marks| <= |order| + 1 && p.after.Keys <= books.Keys
    && (if p.saved then Reached(p) == |order| else Reached(p) > 0)
    && GotThrough(env, id, settleOnly, order, books, found, p)
    && NotBefore(Whole(p).hi, Whole(p).lo) && AsksOfPass(Whole(p), id, order[..Reached(p)], settleOnly)
  }

  ghost predicate GotThrough(env: Outside, id: Id, settleOnly: bool, order: seq<Key>, books: map<Key, Book>,
                             found: seq<Position>, p: Progress) {
    && Reached(p) <= |order| && (forall m :: 0 <= m < |order| ==> order[m] in books)
    && (forall m :: 0 <= m < Reached(p) ==>
          Turned(env, TurnOf(id, order[m], books[order[m]], found, settleOnly), Get(p.after, order[m]),
                 Span(p.marks[m], p.marks[m + 1]), p.saved || m < Reached(p) - 1))
    && (forall m :: Reached(p) <= m < |order| ==> order[m] in p.after && p.after[order[m]] == books[order[m]])
  }

  // What a pass that goes on has come to.
  ghost predicate PassSoFar(env: Outside, id: Id, settleOnly: bool, order: seq<Key>, books: map<Key, Book>,
                            found: seq<Position>, positions: seq<Position>, p: Progress) {
    && NoRepeats(order) && 0 < |p.marks| <= |order| + 1 && p.after.Keys <= books.Keys
    && GotThrough(env, id, settleOnly, order, books, found, p)
    && NotBefore(Whole(p).hi, Whole(p).lo) && AsksOfPass(Whole(p), id, order[..Reached(p)], settleOnly)
    && SameTrading(found, positions, order[Reached(p)..])
    && (SaveFailed(env, Whole(p).hi.asked, |Whole(p).lo.asked|, id) <==> !p.saved)
  }

  lemma NothingYet(env: Outside, id: Id, settleOnly: bool, order: seq<Key>, books: map<Key, Book>,
                   positions: seq<Position>, start: Moment)
    requires Listed(order, books)
    ensures PassSoFar(env, id, settleOnly, order, books, positions, positions, Progress([start], books, true))
  {
  }

  lemma NextIsThere(env: Outside, id: Id, settleOnly: bool, order: seq<Key>, books: map<Key, Book>,
                    found: seq<Position>, positions: seq<Position>, p: Progress)
    requires PassSoFar(env, id, settleOnly, order, books, found, positions, p) && Reached(p) < |order|
    ensures
      var k := order[Reached(p)];
      && k in books && k in p.after && p.after[k] == books[k] && IsTradingIn(positions, k) == IsTradingIn(found, k)
  {
    assert order[Reached(p)..][0] == order[Reached(p)];
  }

  lemma AllDone(env: Outside, id: Id, settleOnly: bool, order: seq<Key>, books: map<Key, Book>,
                found: seq<Position>, positions: seq<Position>, p: Progress)
    requires PassSoFar(env, id, settleOnly, order, books, found, positions, p)
    requires if p.saved then Reached(p) == |order| else Reached(p) > 0
    ensures PassIs(env, id, settleOnly, order, books, found, p)
    ensures p.saved <==> !SaveFailed(env, Whole(p).hi.asked, |Whole(p).lo.asked|, id)
  {
  }

  // The next book has its turn.
  lemma GetsFurther(env: Outside, id: Id, settleOnly: bool, order: seq<Key>, books: map<Key, Book>,
                    found: seq<Position>, p: Progress, q: Progress)
    requires NoRepeats(order) && p.marks != [] && p.saved && Reached(p) < |order|
    requires GotThrough(env, id, settleOnly, order, books, found, p)
    requires |q.marks| == |p.marks| + 1 && q.marks[..|p.marks|] == p.marks
    requires
      var k := order[Reached(p)];
      && Turned(env, TurnOf(id, k, books[k], found, settleOnly), Get(q.after, k),
                Span(p.marks[Reached(p)], q.marks[Reached(q)]), q.saved)
      && q.after - {k} == p.after - {k}
    ensures GotThrough(env, id, settleOnly, order, books, found, q)
  {
    var n := Reached(p);
    hide Turned, IsTradingIn;
    forall m | 0 <= m < |order| && m != n ensures Get(q.after, order[m]) == Get(p.after, order[m]) {
      OthersKept(p.after, q.after, order[n], order[m]);
    }
    forall m | 0 <= m < Reached(q)
      ensures Turned(env, TurnOf(id, order[m], books[order[m]], found, settleOnly), Get(q.after, order[m]),
                     Span(q.marks[m], q.marks[m + 1]), q.saved || m < Reached(q) - 1)
    {
      assert q.marks[m] == p.marks[m];
      if m < n {
        assert q.marks[m + 1] == p.marks[m + 1];
      }
    }
    forall m | Reached(q) <= m < |order| ensures order[m] in q.after && q.after[order[m]] == books[order[m]] {
      assert Get(q.after, order[m]) == Get(p.after, order[m]);
    }
  }

  lemma OthersKept(before: map<Key, Book>, after: map<Key, Book>, k: Key, other: Key)
    requires after - {k} == before - {k} && other != k
    ensures Get(after, other) == Get(before, other)
  {
    assert other in after - {k} <==> other in after;
    assert other in before - {k} <==> other in before;
  }

  lemma FewerBooks(before: map<Key, Book>, after: map<Key, Book>, k: Key)
    requires k in before && after - {k} == before - {k}
    ensures after.Keys <= before.Keys
  {
    forall j | j in after ensures j in before {
      assert j != k ==> j in after - {k};
    }
  }

  // What a turn asks is of the pass.
  lemma TurnOfPass(env: Outside, turn: Turn, after: Option<Book>, s: Span, saved: bool, keys: seq<Key>)
    requires Turned(env, turn, after, s, saved) && turn.key in keys
    ensures NotBefore(s.hi, s.lo) && AsksOfPass(s, turn.id, keys, turn.settleOnly)
    ensures saved <==> !SaveFailed(env, s.hi.asked, |s.lo.asked|, turn.id)
  {
    hide TurnIs, SaveIs;
    var what :| TurnIs(env, what, turn, after, s) && SaveIs(env, what, turn, s, saved);
    var n := if what.NotDue? || what.PutOff? then |s.hi.asked| else |s.hi.asked| - 1;
    SavedAt(env, what, turn, after, s, saved);
    hide AsksOfPass, SaveFailed, AsksOf;
    OfTurn(env, s, n, turn.id, turn.key, turn.settleOnly, keys);
  }

  lemma SavedAt(env: Outside, what: What, turn: Turn, after: Option<Book>, s: Span, saved: bool)
    requires TurnIs(env, what, turn, after, s) && SaveIs(env, what, turn, s, saved)
    ensures
      var n := if what.NotDue? || what.PutOff? then |s.hi.asked| else |s.hi.asked| - 1;
      && |s.lo.asked| <= n && (n < |s.hi.asked| ==> s.hi.asked[n] == SaveBooks(turn.id))
      && (saved <==> n == |s.hi.asked| || env(n).ok)
      && AsksOf(Span(s.lo, Moment(s.hi.now, s.hi.asked[..n])), turn.id, turn.key, turn.settleOnly)
  {
    var n := if what.NotDue? || what.PutOff? then |s.hi.asked| else |s.hi.asked| - 1;
    assert s.hi.asked[..|s.hi.asked|] == s.hi.asked;
    hide TurnIs, TurnCalls, AsksOf;
    TurnAsksOf(env, what, turn, after, s, Span(s.lo, Moment(s.hi.now, s.hi.asked[..n])));
  }

  // Some calls about one book, and perhaps a save.
  lemma OfTurn(env: Outside, s: Span, n: nat, id: Id, k: Key, settleOnly: bool, keys: seq<Key>)
    requires k in keys && |s.lo.asked| <= n <= |s.hi.asked| <= n + 1
    requires n < |s.hi.asked| ==> s.hi.asked[n] == SaveBooks(id)
    requires AsksOf(Span(s.lo, Moment(s.hi.now, s.hi.asked[..n])), id, k, settleOnly)
    ensures AsksOfPass(s, id, keys, settleOnly)
    ensures SaveFailed(env, s.hi.asked, |s.lo.asked|, id) <==> n < |s.hi.asked| && !env(n).ok
  {
    forall m | |s.lo.asked| <= m < n ensures OfBook(s.hi.asked[m], id, k, settleOnly) {
      assert s.hi.asked[..n][m] == s.hi.asked[m];
    }
  }

  lemma UnwindStands(env: Outside, id: Id, k: Key, b: Book, emergency: bool, u: Unwinding, s: Span, longer: Span)
    requires UnwindIs(env, id, k, b, emergency, u, s) && Within(s, longer)
    ensures UnwindIs(env, id, k, b, emergency, u, longer)
    ensures !u.NotNeeded? ==> u.call < |s.hi.asked|
  {
  }

  lemma SettleEnds(env: Outside, id: Id, k: Key, b: Book, emergency: bool, u: Unwinding, wallet: nat, at: int,
                   returned: nat, send: nat, again: bool, start: Moment, sending: Moment, end: Moment)
    requires NotBefore(sending, start) && NotBefore(end, sending)
    requires Affords(env, id, k, b, emergency, u, wallet, at, returned, Span(start, sending))
    requires Sent(env, Span(sending, end), send, SettleCall(id, k, returned), again)
    ensures returned == Returned(env, b, u, wallet)
    ensures EndIs(env, id, k, b, emergency,
                  if env(send).ok then Acknowledged(u, wallet, at, send, again)
                  else SettleFailed(u, wallet, at, send, again),
                  Span(start, end))
  {
    SentStands(env, Span(sending, end), Span(start, end), send, SettleCall(id, k, returned), again);
    UnwindStands(env, id, k, b, emergency, u, Span(start, sending), Span(start, end));
    hide UnwindIs, AfterUnwind, SettleAmount;
  }

  lemma LookStands(turn: Turn, look: Option<nat>, s: Span, longer: Span)
    requires LookIs(turn, look, s) && Within(s, longer)
    ensures LookIs(turn, look, longer) && (look.Some? ==> look.value < |s.hi.asked|)
  {
  }

  lemma SentStands(env: Outside, s: Span, longer: Span, n: nat, c: Call, again: bool)
    requires Sent(env, s, n, c, again) && Within(s, longer)
    ensures Sent(env, longer, n, c, again) && n >= |s.lo.asked|
  {
  }

  // A turn is over, with the save that ended it, if any.
  lemma SavedNow(env: Outside, what: What, turn: Turn, start: Moment, before: Moment, save: seq<Call>)
    requires Asks(Span(start, before), TurnCalls(env, what, turn))
    requires save == if what.NotDue? || what.PutOff? then [] else [SaveBooks(turn.id)]
    ensures SaveIs(env, what, turn, Span(start, Moment(before.now, before.asked + save)),
                   save == [] || env(|before.asked|).ok)
  {
    hide TurnCalls, NoClocks;
    var asked := before.asked + save;
    if save == [] {
      assert asked == before.asked;
    } else {
      assert asked[..|asked| - 1] == before.asked;
    }
  }

  lemma TurnedNow(env: Outside, what: What, turn: Turn, after: Option<Book>, start: Moment, before: Moment,
                  save: seq<Call>)
    requires TurnIs(env, what, turn, after, Span(start, before)) && NotBefore(before, start)
    requires Asks(Span(start, before), TurnCalls(env, what, turn))
    requires save == if what.NotDue? || what.PutOff? then [] else [SaveBooks(turn.id)]
    ensures Turned(env, turn, after, Span(start, Moment(before.now, before.asked + save)),
                   save == [] || env(|before.asked|).ok)
  {
    hide TurnIs, TurnCalls, NoClocks, Asks, SaveIs;
    TurnStands(env, what, turn, after, Span(start, before), Span(start, Moment(before.now, before.asked + save)));
    SavedNow(env, what, turn, start, before, save);
  }

  // What the pass has come to after one more turn.
  lemma SoFarFurther(env: Outside, id: Id, settleOnly: bool, order: seq<Key>, books: map<Key, Book>,
                     found: seq<Position>, before: seq<Position>, after: seq<Position>, p: Progress, q: Progress)
    requires PassSoFar(env, id, settleOnly, order, books, found, before, p) && p.saved && Reached(p) < |order|
    requires |q.marks| == |p.marks| + 1 && q.marks[..|p.marks|] == p.marks
    requires
      var k := order[Reached(p)];
      && k in books && k in p.after
      && Turned(env, TurnOf(id, k, books[k], found, settleOnly), Get(q.after, k),
                Span(Whole(p).hi, Whole(q).hi), q.saved)
      && q.after - {k} == p.after - {k}
      && OthersSame(before, after, k)
    ensures PassSoFar(env, id, settleOnly, order, books, found, after, q)
  {
    var n := Reached(p);
    var k := order[n];
    GetsFurther(env, id, settleOnly, order, books, found, p, q);
    TradingSoFar(found, before, after, order, n);
    FewerBooks(p.after, q.after, k);
    assert order[..n + 1][n] == k;
    TurnOfPass(env, TurnOf(id, k, books[k], found, settleOnly), Get(q.after, k), Span(Whole(p).hi, Whole(q).hi),
               q.saved, order[..n + 1]);
    assert forall x :: x in order[..n] ==> x in order[..n + 1];
    PassJoins(env, Whole(p).lo, Whole(p).hi, Whole(q).hi, id, order[..n], order[..n + 1], settleOnly);
    hide GotThrough, SameTrading, AsksOfPass, Turned, SaveFailed, OthersSame;
  }

  lemma PassJoins(env: Outside, a: Moment, b: Moment, c: Moment, id: Id, keys: seq<Key>, more: seq<Key>,
                  settleOnly: bool)
    requires NotBefore(b, a) && NotBefore(c, b) && forall k :: k in keys ==> k in more
    requires AsksOfPass(Span(a, b), id, keys, settleOnly) && AsksOfPass(Span(b, c), id, more, settleOnly)
    ensures NotBefore(c, a) && AsksOfPass(Span(a, c), id, more, settleOnly)
    ensures SaveFailed(env, c.asked, |a.asked|, id) <==>
      SaveFailed(env, b.asked, |a.asked|, id) || SaveFailed(env, c.asked, |b.asked|, id)
  {
    if SaveFailed(env, b.asked, |a.asked|, id) {
      var n :| |a.asked| <= n < |b.asked| && b.asked[n] == SaveBooks(id) && !env(n).ok;
      assert c.asked[n] == b.asked[n];
    }
    if n :| |a.asked| <= n < |c.asked| && c.asked[n] == SaveBooks(id) && !env(n).ok {
      assert n < |b.asked| ==> b.asked[n] == c.asked[n];
    }
  }

  // The turns of a pass follow one another within it.
  lemma {:induction false} MarksRise(env: Outside, id: Id, settleOnly: bool, order: seq<Key>, books: map<Key, Book>,
                                     found: seq<Position>, p: Progress, a: nat, b: nat)
    requires GotThrough(env, id, settleOnly, order, books, found, p) && a <= b < |p.marks|
    ensures NotBefore(p.marks[b], p.marks[a])
  {
    hide Turned;
    if a < b {
      MarksRise(env, id, settleOnly, order, books, found, p, a, b - 1);
      assert Turned(env, TurnOf(id, order[b - 1], books[order[b - 1]], found, settleOnly), Get(p.after, order[b - 1]),
                    Span(p.marks[b - 1], p.marks[b]), p.saved || b - 1 < Reached(p) - 1);
      TurnRises(env, TurnOf(id, order[b - 1], books[order[b - 1]], found, settleOnly), Get(p.after, order[b - 1]),
                Span(p.marks[b - 1], p.marks[b]), p.saved || b - 1 < Reached(p) - 1);
      Rises(p.marks[a], p.marks[b - 1], p.marks[b]);
    } else {
      Rises(p.marks[a], p.marks[a], p.marks[a]);
    }
  }

  lemma TurnRises(env: Outside, turn: Turn, after: Option<Book>, s: Span, saved: bool)
    requires Turned(env, turn, after, s, saved)
    ensures NotBefore(s.hi, s.lo)
  {
  }

  lemma Rises(a: Moment, b: Moment, c: Moment)
    ensures NotBefore(b, a) && NotBefore(c, b) ==> NotBefore(c, a)
    ensures NotBefore(a, a)
  {
  }

  // Of the books that are due when a settle pass starts, their positions trading, and that have no swap pending before
  // the last call, exactly those that had their turn are offered their settle.
  ghost predicate DueOffered(env: Outside, id: Id, order: seq<Key>, books: map<Key, Book>, found: seq<Position>,
                             p: Progress)
    requires 0 < |p.marks| <= |order| + 1
  {
    forall k | k in order && k in books && IsTradingIn(found, k)
      && (p.marks[0].now >= books[k].settleAt || p.marks[0].now >= books[k].deadline - 600)
      && (!books[k].pending || p.marks[0].now >= books[k].deadline - 120)
      :: WasOffered(env, TurnOf(id, k, books[k], found, true), Whole(p)) <==> k in order[..Reached(p)]
  }

  lemma DueExactly(env: Outside, id: Id, order: seq<Key>, books: map<Key, Book>, found: seq<Position>, p: Progress)
    requires PassIs(env, id, true, order, books, found, p)
    ensures DueOffered(env, id, order, books, found, p)
  {
    hide WasOffered, Turned, IsTradingIn;
    forall k | k in order && k in books && IsTradingIn(found, k)
      && (p.marks[0].now >= books[k].settleAt || p.marks[0].now >= books[k].deadline - 600)
      && (!books[k].pending || p.marks[0].now >= books[k].deadline - 120)
      ensures WasOffered(env, TurnOf(id, k, books[k], found, true), Whole(p)) <==> k in order[..Reached(p)]
    {
      if k in order[..Reached(p)] {
        var m :| 0 <= m < Reached(p) && order[m] == k;
        MarksRise(env, id, true, order, books, found, p, 0, m);
        MarksRise(env, id, true, order, books, found, p, m + 1, Reached(p));
        DueIsOffered(env, TurnOf(id, k, books[k], found, true), Get(p.after, k), Span(p.marks[m], p.marks[m + 1]),
                     Whole(p), p.saved || m < Reached(p) - 1);
      }
      if WasOffered(env, TurnOf(id, k, books[k], found, true), Whole(p)) {
        var n := OfferedAsks(env, TurnOf(id, k, books[k], found, true), Whole(p));
      }
    }
  }

  // Two books, both due: if no call of the pass is answered, the save of the first fails, and the second is not offered
  // its settle.
  lemma SecondIsHeldUp(env: Outside, id: Id, first: Key, second: Key, books: map<Key, Book>, found: seq<Position>,
                       p: Progress)
    requires first != second && first in books && second in books && !books[first].pending && !books[second].pending
    requires IsTradingIn(found, first) && IsTradingIn(found, second)
    requires PassIs(env, id, true, [first, second], books, found, p)
    requires forall n :: n >= |p.marks[0].asked| ==> !env(n).ok
    requires p.marks[0].now >= books[first].settleAt && p.marks[0].now >= books[second].settleAt
    ensures !p.saved && Reached(p) == 1
    ensures WasOffered(env, TurnOf(id, first, books[first], found, true), Whole(p))
    ensures !WasOffered(env, TurnOf(id, second, books[second], found, true), Whole(p))
  {
    var order := [first, second];
    assert order[0] == first && order[1] == second && order[..0] == [] && order[..1] == [first] && order[..2] == order;
    DueExactly(env, id, order, books, found, p);
    assert Turned(env, TurnOf(id, order[0], books[order[0]], found, true), Get(p.after, order[0]),
                  Span(p.marks[0], p.marks[1]), p.saved || 0 < Reached(p) - 1);
    SaveFails(env, TurnOf(id, first, books[first], found, true), Get(p.after, first), Span(p.marks[0], p.marks[1]),
              p.saved || 0 < Reached(p) - 1);
  }

  lemma SaveFails(env: Outside, turn: Turn, after: Option<Book>, s: Span, saved: bool)
    requires Turned(env, turn, after, s, saved) && forall n :: n >= |s.lo.asked| ==> !env(n).ok
    requires turn.trading && turn.settleOnly && !turn.book.pending && s.lo.now >= turn.book.settleAt
    ensures !saved
  {
  }

  // ---------- more than one runner ----------

  // No swap but an unwind, and no draw.
  ghost predicate NoTrades(s: Span) {
    forall n :: |s.lo.asked| <= n < |s.hi.asked| ==> !TradesOrDraws(s.hi.asked[n])
  }

  ghost predicate NoDraws(s: Span) {
    forall n :: |s.lo.asked| <= n < |s.hi.asked| ==> !s.hi.asked[n].DrawCall?
  }

  // One runner's calls.
  ghost predicate OwnCalls(s: Span, id: Id) {
    forall n :: |s.lo.asked| <= n < |s.hi.asked| ==>
      var c := s.hi.asked[n];
      (Keyed(c) ==> c.id == id) && (c.SaveBooks? ==> c.id == id)
  }

  // The draws and adoptions of a tick.
  ghost predicate Opens(s: Span, id: Id) {
    forall n :: |s.lo.asked| <= n < |s.hi.asked| ==>
      var c := s.hi.asked[n];
      c.Clock? || c == SaveOpened(id) || (c.DrawCall? && c.id == id)
  }

  // None of one runner's.
  ghost predicate NoDrawsBy(s: Span, id: Id) {
    forall n :: |s.lo.asked| <= n < |s.hi.asked| && s.hi.asked[n].DrawCall? ==> s.hi.asked[n].id != id
  }

  lemma NoDrawsJoin(a: Moment, b: Moment, c: Moment, id: Id, other: Id)
    requires NotBefore(b, a) && NotBefore(c, b) && NoDrawsBy(Span(a, b), id)
    requires OwnCalls(Span(b, c), other) && (other == id ==> NoDraws(Span(b, c)))
    ensures NoDrawsBy(Span(a, c), id)
  {
  }

  lemma NoTradesYet(at: Moment)
    ensures NoTrades(Span(at, at))
  {
  }

  lemma NoTradesJoin(a: Moment, b: Moment, c: Moment)
    requires NotBefore(b, a) && NotBefore(c, b) && NoTrades(Span(a, b)) && NoTrades(Span(b, c))
    ensures NotBefore(c, a) && NoTrades(Span(a, c))
  {
  }

  lemma OpensMore(a: Moment, b: Moment, c: Moment, id: Id)
    requires NotBefore(b, a) && NotBefore(c, b) && Opens(Span(a, b), id) && Opens(Span(b, c), id)
    ensures NotBefore(c, a) && Opens(Span(a, c), id)
  {
  }

  lemma OpensSaveNothing(env: Outside, a: Moment, b: Moment, c: Moment, id: Id)
    requires NotBefore(b, a) && NotBefore(c, b) && Opens(Span(b, c), id)
    ensures SaveFailed(env, c.asked, |a.asked|, id) <==> SaveFailed(env, b.asked, |a.asked|, id)
  {
    if n :| |a.asked| <= n < |c.asked| && c.asked[n] == SaveBooks(id) && !env(n).ok {
      assert n < |b.asked| && b.asked[n] == c.asked[n];
    }
    if n :| |a.asked| <= n < |b.asked| && b.asked[n] == SaveBooks(id) && !env(n).ok {
      assert c.asked[n] == b.asked[n];
    }
  }

  lemma PassIsOwn(env: Outside, id: Id, settleOnly: bool, order: seq<Key>, books: map<Key, Book>,
                  found: seq<Position>, p: Progress)
    requires PassIs(env, id, settleOnly, order, books, found, p)
    ensures OwnCalls(Whole(p), id) && NoDraws(Whole(p)) && (settleOnly ==> NoTrades(Whole(p)))
  {
  }

  lemma OpensAreOwn(a: Moment, b: Moment, c: Moment, id: Id)
    requires NotBefore(b, a) && NotBefore(c, b) && OwnCalls(Span(a, b), id) && Opens(Span(b, c), id)
    ensures OwnCalls(Span(a, c), id)
    ensures NoDraws(Span(a, b)) && b.asked == c.asked ==> NoDraws(Span(a, c))
  {
  }

  lemma FailuresApart(env: Outside, a: Moment, b: Moment, c: Moment, id: Id, other: Id)
    requires NotBefore(b, a) && NotBefore(c, b) && OwnCalls(Span(b, c), id)
    ensures SaveFailed(env, c.asked, |a.asked|, other) <==>
      SaveFailed(env, b.asked, |a.asked|, other) || (other == id && SaveFailed(env, c.asked, |b.asked|, other))
  {
    if n :| |a.asked| <= n < |c.asked| && c.asked[n] == SaveBooks(other) && !env(n).ok {
      assert n < |b.asked| ==> b.asked[n] == c.asked[n];
    }
    if n :| |a.asked| <= n < |b.asked| && b.asked[n] == SaveBooks(other) && !env(n).ok {
      assert c.asked[n] == b.asked[n];
    }
  }

  // A settle pass in which anything is offered does not begin before the read.
  lemma AfterTheReads(env: Outside, id: Id, order: seq<Key>, books: map<Key, Book>, found: seq<Position>, p: Progress,
                      turn: Turn, now: Moment)
    requires PassIs(env, id, true, order, books, found, p) && NotBefore(now, Whole(p).hi)
    requires now.asked != [] && now.asked[0] == ScanCall(id) && WasOffered(env, turn, Whole(p))
    ensures |p.marks[0].asked| > 0
  {
    var n := OfferedAsks(env, turn, Whole(p));
    hide WasOffered, GotThrough;
    assert Whole(p).hi.asked[0] == now.asked[0];
  }

  // In this settle pass over two due books, their positions trading, the first is offered its settle and the second is
  // not.
  ghost predicate HeldUp(env: Outside, id: Id, first: Key, second: Key, books: map<Key, Book>, found: seq<Position>,
                         p: Progress, s: Span) {
    && SettledFirst(env, id, [first, second], books, found, p, s) && !p.saved
    && first in books && s.lo.now >= books[first].settleAt && IsTradingIn(found, first)
    && second in books && s.lo.now >= books[second].settleAt && IsTradingIn(found, second)
    && WasOffered(env, TurnOf(id, first, books[first], found, true), Whole(p))
    && !WasOffered(env, TurnOf(id, second, books[second], found, true), Whole(p))
  }

  // So in a tick whose reads are all that is answered, the second of two due books waits.
  lemma SecondWaitsFor(env: Outside, id: Id, first: Key, second: Key, books: map<Key, Book>, found: seq<Position>,
                       p: Progress, since: Moment, turned: Moment, now: Moment)
    requires first != second && first in books && second in books && !books[first].pending && !books[second].pending
    requires IsTradingIn(found, first) && IsTradingIn(found, second)
    requires forall n :: n > 0 ==> !env(n).ok
    requires SettledFirst(env, id, [first, second], books, found, p, Span(since, turned)) && NotBefore(now, turned)
    requires since.now >= books[first].settleAt && since.now >= books[second].settleAt
    requires now.asked != [] && now.asked[0] == ScanCall(id)
    ensures HeldUp(env, id, first, second, books, found, p, Span(since, now))
  {
    assert [first, second][..Reached(p)][0] == first;
    hide WasOffered, GotThrough, IsTradingIn, AsksOfPass;
    AfterTheReads(env, id, [first, second], books, found, p, TurnOf(id, first, books[first], found, true), now);
    SecondIsHeldUp(env, id, first, second, books, found, p);
  }

  lemma NoAcksYet(env: Outside, asked: seq<Call>, from: nat)
    requires from <= |asked| && forall n :: from <= n < |asked| ==> !Keyed(asked[n])
    ensures NothingAfterAck(env, asked, from) && forall id, k :: !Acked(env, asked, from, id, k)
  {
  }

  // A runner's settle pass as far as its saves allow, within a span in which every book's offer is exactly accounted
  // for.
  ghost predicate SettledFirst(env: Outside, id: Id, order: seq<Key>, books: map<Key, Book>, found: seq<Position>,
                               p: Progress, s: Span) {
    && PassIs(env, id, true, order, books, found, p) && Within(Whole(p), s)
    && DueOffered(env, id, order, books, found, p)
  }

  // A pass that may trade, within a span.
  ghost predicate TradedIn(env: Outside, id: Id, order: seq<Key>, books: map<Key, Book>, found: seq<Position>,
                           p: Progress, s: Span) {
    PassIs(env, id, false, order, books, found, p) && Within(Whole(p), s)
  }

  lemma TradedInStill(env: Outside, id: Id, order: seq<Key>, books: map<Key, Book>, found: seq<Position>,
                      p: Progress, s: Span, longer: Span)
    requires TradedIn(env, id, order, books, found, p, s) && Within(s, longer)
    ensures TradedIn(env, id, order, books, found, p, longer)
  {
    hide GotThrough, AsksOfPass;
  }

  // A runner's trading pass over the books its settle pass left.
  ghost predicate TradedNext(env: Outside, id: Id, books: map<Key, Book>, found: seq<Position>, p: Progress, s: Span) {
    exists order :: Listed(order, books) && TradedIn(env, id, order, books, found, p, s)
  }

  lemma TradesNext(env: Outside, id: Id, order: seq<Key>, books: map<Key, Book>, found: seq<Position>,
                   positions: seq<Position>, p: Progress, s: Span)
    requires Listed(order, books) && TradesAs(found, positions, books)
    requires TradedIn(env, id, order, books, positions, p, s)
    ensures TradedNext(env, id, books, found, p, s)
  {
    PassIsAlso(env, id, false, order, books, found, positions, p);
    assert TradedIn(env, id, order, books, found, p, s);
  }

  lemma SettlesFirst(env: Outside, id: Id, order: seq<Key>, books: map<Key, Book>, found: seq<Position>,
                     p: Progress, s: Span, longer: Span)
    requires PassIs(env, id, true, order, books, found, p) && Within(Whole(p), s) && Within(s, longer)
    ensures SettledFirst(env, id, order, books, found, p, longer)
  {
    DueExactly(env, id, order, books, found, p);
    hide GotThrough, DueOffered, AsksOfPass;
  }

  // ---------- the reads ----------

  // A runner's read began at this call.
  predicate ReadMade(env: Outside, asked: seq<Call>, call: nat, id: Id) {
    && call < |asked| && asked[call] == ScanCall(id)
    && (!env(call).ok ==> call + 1 < |asked| && asked[call + 1] == FetchCall(id))
  }

  lemma FirstRead(env: Outside, first: nat)
    ensures ReadBegins(env, first, 0) == first
  {
  }

  lemma NextRead(env: Outside, first: nat, j: nat)
    ensures
      var last := ReadBegins(env, first, j);
      ReadBegins(env, first, j + 1) == last + if env(last).ok then 1 else 2
  {
  }
}
