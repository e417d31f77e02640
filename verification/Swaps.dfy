// The swap booking of one trading agent: what a book is, how a landed swap changes it, and what the runner
// concludes from the answers an RPC node gives about a swap.
module Swaps {
  import opened Numbers

  type Sig = nat
  type BookId = nat

  datatype Side = SOL | USDC

  // By how much a swap that landed changed the wallet's two balances.
  datatype Delta = Delta(sol: int, usdc: int)

  datatype PendingSwap = PendingSwap(sig: Sig, lastValidBlockHeight: nat, side: Side, amount: nat, bumpCycle: bool)

  datatype Trade = Trade(sig: Sig, side: Side, amount: nat, out: int)

  datatype Book = Book(
    principal: nat, sol: nat, usdc: nat, cycles: nat, trades: seq<Trade>, pending: Option<PendingSwap>)

  type Books = map<BookId, Book>

  function Clamp(n: int): nat {
    if n < 0 then 0 else n
  }

  // A landed swap applied to its book, which then has no pending swap.
  function Booked(book: Book, swap: PendingSwap, d: Delta): Book {
    Book(
      book.principal,
      Clamp(book.sol + d.sol),
      Clamp(book.usdc + d.usdc),
      if swap.bumpCycle then book.cycles + 1 else book.cycles,
      book.trades + [Trade(swap.sig, swap.side, swap.amount, if swap.side.SOL? then d.usdc else d.sol)],
      None)
  }

  // ---------- what the RPC answers say ----------

  datatype StatusAnswer =
    | Unseen                 // no status, even searching history
    | Processed              // seen, not confirmed yet
    | Failed                 // confirmed with an error
    | Succeeded              // confirmed without one

  datatype MetaAnswer =
    | Found(delta: Delta, failed: bool)   // the landed transaction's meta, and whether it landed with an error
    | Missing                             // not found in ten tries
    | Threw                               // the lookup itself failed

  datatype Resolution = ResolvedLanded(delta: Delta) | ResolvedFailed | StillPending | LookupFailed

  // `resolveSwap`: the verdict on a swap signed on an earlier tick. `LookupFailed` is an exception, which the
  // caller treats as still pending.
  function ResolveSwap(status: StatusAnswer, height: nat, lastValidBlockHeight: nat, meta: MetaAnswer): Resolution {
    match status
    case Failed => ResolvedFailed
    case Succeeded =>
      (match meta
       case Found(d, _) => ResolvedLanded(d)
       case Missing => StillPending
       case Threw => LookupFailed)
    case Processed => StillPending
    case Unseen =>
      if height <= lastValidBlockHeight then StillPending
      else
        // Expired. One last lookup, whose failure counts as "not found".
        match meta
        case Found(d, failed) => if failed then ResolvedFailed else ResolvedLanded(d)
        case _ => ResolvedFailed
  }

  // What `resolvePending` does to the book.
  function AfterResolution(book: Book, swap: PendingSwap, r: Resolution): Book {
    match r
    case ResolvedLanded(d) => Booked(book, swap, d)
    case ResolvedFailed => book.(pending := None)
    case _ => book
  }

  // How a send of a signed swap can end, as `swapExactIn` reports it.
  datatype SwapOutcome =
    | Completed(delta: Delta)
    | InFlight               // outcome unknown: keep it pending
    | Rejected               // any other error, taken to mean that the swap cannot land

  datatype SendAnswer = Accepted | Refused | SendThrew
  datatype ConfirmAnswer = Confirmed | ConfirmedError | ConfirmThrew

  // `swapExactIn` from the send on. A throw from the meta lookup escapes as an ordinary error.
  function SwapExactIn(send: SendAnswer, confirm: ConfirmAnswer, meta: MetaAnswer): SwapOutcome {
    match send
    case Refused => Rejected
    case SendThrew => InFlight
    case Accepted =>
      match confirm
      case ConfirmedError => Rejected
      case ConfirmThrew => InFlight
      case Confirmed =>
        match meta
        case Found(d, _) => Completed(d)
        case Missing => InFlight
        case Threw => Rejected
  }

  function AfterSwap(book: Book, swap: PendingSwap, outcome: SwapOutcome): Book {
    match outcome
    case Completed(d) => Booked(book, swap, d)
    case InFlight => book
    case Rejected => book.(pending := None)
  }

  // ---------- the runner's own code ----------

  // One agent's books in memory, and its state file.
  class AgentRunner {
    var books: Books
    var disk: Books

    constructor (saved: Books)
      ensures books == saved && disk == saved
    {
      books := saved;
      disk := saved;
    }

    method Save()
      modifies this`disk
      ensures disk == books
    {
      disk := books;
    }

    // One more trade in memory, its amounts taken from the chain's record.
    method Record(id: BookId, swap: PendingSwap, r: Delta)
      requires id in books && books[id].pending.None?
      modifies this`books
      ensures books == old(books)[id := Booked(old(books)[id], swap, r)]
    {
      var book := books[id];
      var sol, usdc := book.sol + r.sol, book.usdc + r.usdc;
      book := book.(sol := if sol < 0 then 0 else sol);
      book := book.(usdc := if usdc < 0 then 0 else usdc);
      if swap.bumpCycle {
        book := book.(cycles := book.cycles + 1);
      }
      var out := if swap.side.SOL? then r.usdc else r.sol;
      book := book.(trades := book.trades + [Trade(swap.sig, swap.side, swap.amount, out)]);
      books := books[id := book];
    }

    // The callback between signing and sending. Once it returns, no crash can forget the swap.
    method OnSigned(id: BookId, swap: PendingSwap)
      requires id in books
      modifies this
      ensures books == old(books)[id := old(books)[id].(pending := Some(swap))]
      ensures disk == books
    {
      books := books[id := books[id].(pending := Some(swap))];
      Save();
    }

    // The rest of `swap`, once `swapExactIn` has returned or thrown.
    method FinishSwap(id: BookId, outcome: SwapOutcome)
      requires id in books && books[id].pending.Some? && disk == books
      modifies this
      ensures books == old(books)[id := AfterSwap(old(books)[id], old(books)[id].pending.value, outcome)]
      ensures disk == books
    {
      var swap := books[id].pending.value;
      match outcome {
        case InFlight =>
          assert books == books[id := books[id]];
        case Rejected =>
          books := books[id := books[id].(pending := None)];
          Save();
        case Completed(d) =>
          books := books[id := books[id].(pending := None)];
          Record(id, swap, d);
          Save();
      }
    }

    // Acts on the verdict on the book's pending swap; false leaves the swap to the next tick.
    method ResolvePending(id: BookId, r: Resolution) returns (resolved: bool)
      requires id in books && books[id].pending.Some? && disk == books
      modifies this
      ensures books == old(books)[id := AfterResolution(old(books)[id], old(books)[id].pending.value, r)]
      ensures disk == books
      ensures resolved <==> books[id].pending.None?
    {
      var swap := books[id].pending.value;
      if r.StillPending? || r.LookupFailed? {
        assert books == books[id := books[id]];
        return false;
      }
      books := books[id := books[id].(pending := None)];
      if r.ResolvedLanded? {
        Record(id, swap, r.delta);
      }
      Save();
      resolved := true;
    }
  }
}
