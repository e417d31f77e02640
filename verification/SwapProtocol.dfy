// The crash-safe booking protocol: the chain, the state file and the runner's memory, stepping independently.
module SwapProtocol {
  import opened Numbers
  import opened Swaps

  // What the chain has done with a signed swap.
  datatype Fate = Waiting | Landed(delta: Delta) | LandedError

  // `released`: some node was handed the signed bytes.
  datatype Tx = Tx(swap: PendingSwap, fate: Fate, released: bool)

  // Why a pending swap is being cleared without being booked.
  datatype Reason = NodeRefused | FailedOnChain | MetaLookupThrew | ExpiredUnseen

  // Where the runner is: between operations, or at a point of one where it can crash.
  datatype Control =
    | Idle
    | SavingSigned(book: BookId)                  // the swap is in memory; the save before the send is under way
    | Sending(book: BookId)                       // saved; not sent yet
    | Confirming(book: BookId)                    // sent; waiting for a confirmation
    | FetchingMeta(book: BookId)                  // confirmed; looking up its balance changes
    | SavingBooked(book: BookId)                  // booked in memory; save under way
    | SavingDropped(book: BookId, why: Reason)    // cleared in memory; save under way
    | SavingOpened(book: BookId)                  // a book was added; save under way
    | SavingClosed(book: BookId)                  // a book was removed; save under way

  // `owner` and `missed` only record history: which book each saved swap belongs to, and which landed swaps a save
  // has cleared without booking.
  datatype System = System(
    memory: Books,
    disk: Books,
    control: Control,
    txs: map<Sig, Tx>,
    height: nat,
    everOpened: set<BookId>,
    owner: map<Sig, BookId>,
    missed: map<Sig, Reason>)

  datatype Step =
    | OpenBook(book: BookId, principal: nat)      // a draw, or the adoption of an orphan
    | CloseBook(book: BookId)                     // settled, or no longer trading on-chain
    | SignSwap(book: BookId, swap: PendingSwap)
    | SaveState
    | Send(sent: SendAnswer, reached: bool)       // `reached`: an unanswered send may or may not have gone out
    | Confirm(confirmed: ConfirmAnswer)
    | FetchMeta(found: MetaAnswer)
    | Resolve(book: BookId, status: StatusAnswer, height: nat, meta: MetaAnswer)
    | Crash                                       // and restart from the state file
    | Land(sig: Sig, fate: Fate)
    | NextBlock

  function WithBook(s: System, id: BookId, book: Book): System {
    s.(memory := s.memory[id := book])
  }

  // The pending swap of a book in memory.
  function Pending(books: Books, id: BookId): Option<PendingSwap> {
    if id in books then books[id].pending else None
  }

  // Clearing the pending swap without booking it.
  function Drop(s: System, id: BookId, why: Reason): Option<System> {
    if Pending(s.memory, id).None? then None
    else Some(WithBook(s, id, s.memory[id].(pending := None)).(control := SavingDropped(id, why)))
  }

  function Record(s: System, id: BookId, d: Delta): Option<System> {
    if Pending(s.memory, id).None? then None
    else Some(WithBook(s, id, Booked(s.memory[id], s.memory[id].pending.value, d)).(control := SavingBooked(id)))
  }

  // ---------- truthful answers ----------

  predicate StatusTruthful(fate: Fate, status: StatusAnswer) {
    match status
    case Unseen => true                            // a lagging node may not have it
    case Processed => true
    case Failed => fate.LandedError?
    case Succeeded => fate.Landed?
  }

  predicate MetaTruthful(fate: Fate, meta: MetaAnswer) {
    match meta
    case Found(d, failed) => if failed then fate.LandedError? else fate == Landed(d)
    case _ => true                                 // a lookup may find nothing or fail
  }

  // ---------- steps ----------

  function SaveStep(s: System): Option<System> {
    var saved := s.(disk := s.memory);
    match s.control
    case SavingSigned(id) =>
      if Pending(s.memory, id).None? then None
      else Some(saved.(control := Sending(id), owner := s.owner[s.memory[id].pending.value.sig := id]))
    case SavingBooked(_) => Some(saved.(control := Idle))
    case SavingDropped(id, why) =>
      // Clearing a landed swap is what a correct runner must never save.
      if Pending(s.disk, id).None? then None
      else
        var sig := s.disk[id].pending.value.sig;
        var lost := sig in s.txs && s.txs[sig].fate.Landed?;
        Some(saved.(control := Idle, missed := if lost then s.missed[sig := why] else s.missed))
    case SavingOpened(_) => Some(saved.(control := Idle))
    case SavingClosed(_) => Some(saved.(control := Idle))
    case _ => None
  }

  function SignStep(s: System, id: BookId, swap: PendingSwap): Option<System> {
    if s.control.Idle? && id in s.memory && s.memory[id].pending.None? && swap.amount > 0 && swap.sig !in s.txs then
      Some(WithBook(s, id, s.memory[id].(pending := Some(swap)))
           .(control := SavingSigned(id), txs := s.txs[swap.sig := Tx(swap, Waiting, false)]))
    else None
  }

  function SendStep(s: System, answer: SendAnswer, reached: bool): Option<System> {
    if !s.control.Sending? || Pending(s.memory, s.control.book).None? then None
    else
      var id := s.control.book;
      var sig := s.memory[id].pending.value.sig;
      if sig !in s.txs then None
      else
        var out := s.(txs := s.txs[sig := s.txs[sig].(released := true)]);
        match answer
        case Accepted => Some(out.(control := Confirming(id)))
        case Refused => Drop(s, id, NodeRefused)   // the node answered with an error, so it did not forward it
        case SendThrew => Some((if reached then out else s).(control := Idle))
  }

  function ConfirmStep(s: System, answer: ConfirmAnswer): Option<System> {
    if !s.control.Confirming? || Pending(s.memory, s.control.book).None? then None
    else
      var id := s.control.book;
      var sig := s.memory[id].pending.value.sig;
      match answer
      case Confirmed => if sig in s.txs && s.txs[sig].fate.Landed? then Some(s.(control := FetchingMeta(id))) else None
      case ConfirmedError => if sig in s.txs && s.txs[sig].fate.LandedError? then Drop(s, id, FailedOnChain) else None
      case ConfirmThrew => Some(s.(control := Idle))
  }

  function MetaStep(s: System, answer: MetaAnswer): Option<System> {
    if !s.control.FetchingMeta? || Pending(s.memory, s.control.book).None? then None
    else
      var id := s.control.book;
      var sig := s.memory[id].pending.value.sig;
      if sig !in s.txs || !MetaTruthful(s.txs[sig].fate, answer) then None
      else
        match SwapExactIn(Accepted, Confirmed, answer)
        case Completed(d) => Record(s, id, d)
        case InFlight => Some(s.(control := Idle))
        case Rejected => Drop(s, id, MetaLookupThrew)
  }

  function ResolveStep(s: System, id: BookId, status: StatusAnswer, height: nat, meta: MetaAnswer): Option<System> {
    if !s.control.Idle? || Pending(s.memory, id).None? then None
    else
      var swap := s.memory[id].pending.value;
      if swap.sig !in s.txs || height > s.height
        || !StatusTruthful(s.txs[swap.sig].fate, status) || !MetaTruthful(s.txs[swap.sig].fate, meta)
      then None
      else
        match ResolveSwap(status, height, swap.lastValidBlockHeight, meta)
        case ResolvedLanded(d) => Record(s, id, d)
        case ResolvedFailed => Drop(s, id, if status.Failed? then FailedOnChain else ExpiredUnseen)
        case _ => Some(s)
  }

  // A released swap lands while its blockhash is valid, at most once.
  function LandStep(s: System, sig: Sig, fate: Fate): Option<System> {
    if sig in s.txs && s.txs[sig].released && s.txs[sig].fate.Waiting? && !fate.Waiting?
      && s.height <= s.txs[sig].swap.lastValidBlockHeight
    then Some(s.(txs := s.txs[sig := s.txs[sig].(fate := fate)]))
    else None
  }

  function OpenStep(s: System, id: BookId, principal: nat): Option<System> {
    if s.control.Idle? && id !in s.everOpened then
      Some(s.(memory := s.memory[id := Book(principal, principal, 0, 0, [], None)], control := SavingOpened(id),
              everOpened := s.everOpened + {id}))
    else None
  }

  function CloseStep(s: System, id: BookId): Option<System> {
    if s.control.Idle? && id in s.memory then Some(s.(memory := s.memory - {id}, control := SavingClosed(id))) else None
  }

  function Next(s: System, step: Step): Option<System> {
    match step
    case OpenBook(id, principal) => OpenStep(s, id, principal)
    case CloseBook(id) => CloseStep(s, id)
    case SignSwap(id, swap) => SignStep(s, id, swap)
    case SaveState => SaveStep(s)
    case Send(answer, reached) => SendStep(s, answer, reached)
    case Confirm(answer) => ConfirmStep(s, answer)
    case FetchMeta(answer) => MetaStep(s, answer)
    case Resolve(id, status, height, meta) => ResolveStep(s, id, status, height, meta)
    case Crash => Some(s.(memory := s.disk, control := Idle))
    case Land(sig, fate) => LandStep(s, sig, fate)
    case NextBlock => Some(s.(height := s.height + 1))
  }

  ghost predicate Start(s: System) {
    s.memory == map[] && s.disk == map[] && s.control.Idle? && s.txs == map[] && s.everOpened == {}
    && s.owner == map[] && s.missed == map[]
  }

  // The states a sequence of enabled steps passes through, the last one returned.
  function Run(s: System, run: seq<Step>): Option<System> {
    if run == [] then Some(s)
    else
      match Run(s, run[..|run| - 1])
      case None => None
      case Some(t) => Next(t, run[|run| - 1])
  }

  // ---------- what holds throughout ----------

  predicate InTrades(book: Book, sig: Sig) {
    exists i :: 0 <= i < |book.trades| && book.trades[i].sig == sig
  }

  predicate DistinctTrades(book: Book) {
    forall i, j :: 0 <= i < j < |book.trades| ==> book.trades[i].sig != book.trades[j].sig
  }

  // A signed swap that can never land from now on, when the runner is not about to send it.
  predicate Dead(s: System, sig: Sig) {
    sig in s.txs &&
    var tx := s.txs[sig];
    tx.fate.LandedError? || (tx.fate.Waiting? && (!tx.released || s.height > tx.swap.lastValidBlockHeight))
  }

  // The book's amounts are its principal with each booked swap's on-chain changes applied in order.
  ghost function Replay(principal: nat, trades: seq<Trade>, txs: map<Sig, Tx>): Book {
    if trades == [] then Book(principal, principal, 0, 0, [], None)
    else
      var last := trades[|trades| - 1];
      var before := Replay(principal, trades[..|trades| - 1], txs);
      if last.sig in txs && txs[last.sig].fate.Landed? then Booked(before, txs[last.sig].swap, txs[last.sig].fate.delta)
      else before
  }

  // Every trade of a book is a landed swap of its own.
  ghost predicate TradesSound(s: System, id: BookId, book: Book) {
    forall i :: 0 <= i < |book.trades| ==>
      var sig := book.trades[i].sig;
      sig in s.txs && s.txs[sig].fate.Landed? && sig in s.owner && s.owner[sig] == id
  }

  // A saved book: its trades are distinct landed swaps it owns, replaying to its amounts; its pending swap is
  // one it owns and has not booked.
  ghost predicate BookSound(s: System, id: BookId, book: Book) {
    && id in s.everOpened
    && DistinctTrades(book)
    && TradesSound(s, id, book)
    && book.(pending := None) == Replay(book.principal, book.trades, s.txs)
    && (book.pending.Some? ==>
          var swap := book.pending.value;
          && swap.sig in s.txs && s.txs[swap.sig].swap == swap
          && swap.sig in s.owner && s.owner[swap.sig] == id
          && !InTrades(book, swap.sig))
  }

  // How memory differs from the state file at each point of control.
  ghost predicate ControlSound(s: System) {
    match s.control
    case Idle => s.memory == s.disk
    case SavingSigned(id) =>
      && id in s.memory && id in s.disk && s.disk[id].pending.None?
      && s.memory[id].pending.Some?
      && (var swap := s.memory[id].pending.value;
          && s.memory == s.disk[id := s.disk[id].(pending := Some(swap))]
          && swap.sig in s.txs && s.txs[swap.sig] == Tx(swap, Waiting, false) && swap.sig !in s.owner)
    case Sending(id) =>
      && s.memory == s.disk && Pending(s.disk, id).Some?
      && var sig := s.disk[id].pending.value.sig; sig in s.txs && s.txs[sig].fate.Waiting? && !s.txs[sig].released
    case Confirming(id) => s.memory == s.disk && Pending(s.disk, id).Some?
    case FetchingMeta(id) =>
      && s.memory == s.disk && Pending(s.disk, id).Some?
      && var sig := s.disk[id].pending.value.sig; sig in s.txs && s.txs[sig].fate.Landed?
    case SavingBooked(id) =>
      && Pending(s.disk, id).Some?
      && (var swap := s.disk[id].pending.value;
          && swap.sig in s.txs && s.txs[swap.sig].fate.Landed?
          && s.memory == s.disk[id := Booked(s.disk[id], swap, s.txs[swap.sig].fate.delta)])
    case SavingDropped(id, why) =>
      && Pending(s.disk, id).Some?
      && s.memory == s.disk[id := s.disk[id].(pending := None)]
      && var sig := s.disk[id].pending.value.sig;
         sig in s.txs && (Dead(s, sig) || (s.txs[sig].fate.Landed? && (why.MetaLookupThrew? || why.ExpiredUnseen?)))
    case SavingOpened(id) =>
      && id in s.memory && id !in s.disk && id in s.everOpened
      && s.memory == s.disk[id := s.memory[id]]
      && s.memory[id] == Replay(s.memory[id].principal, [], s.txs)
      && (forall sig :: sig in s.owner ==> s.owner[sig] != id)
    case SavingClosed(id) => id in s.disk && s.memory == s.disk - {id}
  }

  // What has become of a swap that was saved for a book still in the state file.
  ghost predicate Accounted(s: System, sig: Sig)
    requires sig in s.owner && s.owner[sig] in s.disk
  {
    var book := s.disk[s.owner[sig]];
    || (book.pending.Some? && book.pending.value.sig == sig)
    || InTrades(book, sig)
    || (Dead(s, sig) && !Held(s, sig))
    || sig in s.missed
  }

  // The runner holds the signed bytes and has yet to send them.
  ghost predicate Held(s: System, sig: Sig) {
    (s.control.Sending? || s.control.SavingSigned?) && Pending(s.memory, s.control.book).Some?
    && s.memory[s.control.book].pending.value.sig == sig
  }

  ghost predicate Inv(s: System) {
    && ControlSound(s)
    && (forall id :: id in s.disk ==> BookSound(s, id, s.disk[id]))
    && (forall sig :: sig in s.owner ==> sig in s.txs && s.owner[sig] in s.everOpened)
    && (forall sig :: sig in s.owner && s.owner[sig] in s.disk ==> Accounted(s, sig))
    && (forall sig :: sig in s.missed ==> MissedSound(s, sig))
  }

  // A swap recorded as missed did land, was cleared by one of the two lookups, and is not in its book.
  ghost predicate MissedSound(s: System, sig: Sig)
    requires sig in s.missed
  {
    && sig in s.txs && s.txs[sig].fate.Landed? && (s.missed[sig].MetaLookupThrew? || s.missed[sig].ExpiredUnseen?)
    && (sig in s.owner && s.owner[sig] in s.disk ==>
          var book := s.disk[s.owner[sig]];
          !(book.pending.Some? && book.pending.value.sig == sig) && !InTrades(book, sig))
  }

  lemma InvHasControl(s: System)
    requires Inv(s)
    ensures ControlSound(s)
  {
  }

  lemma InvHasBook(s: System, id: BookId)
    requires Inv(s) && id in s.disk
    ensures BookSound(s, id, s.disk[id])
  {
  }

  lemma InvAccounts(s: System, sig: Sig)
    requires Inv(s) && sig in s.owner && s.owner[sig] in s.disk
    ensures Accounted(s, sig)
  {
  }

  // ---------- steps that leave the state file alone ----------

  // The chain only ever adds swaps and decides the undecided.
  ghost predicate TxsExtend(before: map<Sig, Tx>, after: map<Sig, Tx>) {
    forall sig :: sig in before ==>
      && sig in after && after[sig].swap == before[sig].swap
      && (!before[sig].fate.Waiting? ==> after[sig].fate == before[sig].fate)
  }

  lemma {:induction false} ReplayFrame(principal: nat, trades: seq<Trade>, before: map<Sig, Tx>, after: map<Sig, Tx>)
    requires TxsExtend(before, after)
    requires forall i :: 0 <= i < |trades| ==> trades[i].sig in before && before[trades[i].sig].fate.Landed?
    ensures Replay(principal, trades, after) == Replay(principal, trades, before)
  {
    if trades != [] {
      ReplayFrame(principal, trades[..|trades| - 1], before, after);
    }
  }

  lemma BookFrame(s: System, t: System, id: BookId, book: Book)
    requires BookSound(s, id, book)
    requires TxsExtend(s.txs, t.txs) && t.owner == s.owner && s.everOpened <= t.everOpened
    ensures BookSound(t, id, book)
  {
    ReplayFrame(book.principal, book.trades, s.txs, t.txs);
  }

  // Whatever happens off the disk, every saved swap stays accounted for.
  lemma DiskFrame(s: System, t: System)
    requires Inv(s)
    requires t.disk == s.disk && t.owner == s.owner && t.missed == s.missed
    requires TxsExtend(s.txs, t.txs) && s.everOpened <= t.everOpened
    requires forall sig :: sig in s.owner && Dead(s, sig) && !Held(s, sig) ==> Dead(t, sig) && !Held(t, sig)
    requires ControlSound(t)
    ensures Inv(t)
  {
    forall id | id in t.disk ensures BookSound(t, id, t.disk[id]) {
      BookFrame(s, t, id, s.disk[id]);
    }
    forall sig | sig in t.owner && t.owner[sig] in t.disk ensures Accounted(t, sig) {
      assert Accounted(s, sig);
    }
  }

  lemma CrashKeepsInv(s: System)
    requires Inv(s)
    ensures Inv(Next(s, Crash).value)
  {
    InvHasControl(s);
    hide Inv, BookSound, Accounted;
    DiskFrame(s, Next(s, Crash).value);
  }

  lemma BlockKeepsInv(s: System)
    requires Inv(s)
    ensures Inv(Next(s, NextBlock).value)
  {
    InvHasControl(s);
    hide Inv, BookSound, Accounted;
    DiskFrame(s, Next(s, NextBlock).value);
  }

  // A swap that can never land does not.
  lemma LandingSparesDead(s: System, sig: Sig, fate: Fate, other: Sig)
    requires LandStep(s, sig, fate).Some?
    ensures Dead(s, other) ==> Dead(LandStep(s, sig, fate).value, other)
  {
  }

  lemma LandKeepsControl(s: System, sig: Sig, fate: Fate)
    requires ControlSound(s) && LandStep(s, sig, fate).Some?
    ensures ControlSound(LandStep(s, sig, fate).value)
  {
  }

  lemma LandKeepsInv(s: System, sig: Sig, fate: Fate)
    requires Inv(s) && LandStep(s, sig, fate).Some?
    ensures Inv(LandStep(s, sig, fate).value)
  {
    var t := LandStep(s, sig, fate).value;
    LandKeepsControl(s, sig, fate);
    hide ControlSound, Dead;
    forall other | other in s.owner && Dead(s, other) && !Held(s, other) ensures Dead(t, other) && !Held(t, other) {
      LandingSparesDead(s, sig, fate, other);
    }
    assert TxsExtend(s.txs, t.txs);
    DiskFrame(s, t);
  }

  // ---------- steps of the runner between saves ----------

  lemma OpenKeepsInv(s: System, id: BookId, principal: nat)
    requires Inv(s) && OpenStep(s, id, principal).Some?
    ensures Inv(OpenStep(s, id, principal).value)
  {
    InvHasControl(s);
    hide Inv, BookSound, Accounted;
    DiskFrame(s, OpenStep(s, id, principal).value);
  }

  lemma CloseKeepsInv(s: System, id: BookId)
    requires Inv(s) && CloseStep(s, id).Some?
    ensures Inv(CloseStep(s, id).value)
  {
    InvHasControl(s);
    hide Inv, BookSound, Accounted;
    DiskFrame(s, CloseStep(s, id).value);
  }

  lemma SignKeepsInv(s: System, id: BookId, swap: PendingSwap)
    requires Inv(s) && SignStep(s, id, swap).Some?
    ensures Inv(SignStep(s, id, swap).value)
  {
    InvHasControl(s);
    hide Inv, BookSound, Accounted;
    DiskFrame(s, SignStep(s, id, swap).value);
  }

  lemma SendKeepsInv(s: System, sent: SendAnswer, reached: bool)
    requires Inv(s) && SendStep(s, sent, reached).Some?
    ensures Inv(SendStep(s, sent, reached).value)
  {
    InvHasControl(s);
    hide Inv;
    SendKeepsControl(s, sent, reached);
    SendOnlyReleases(s, sent, reached);
    hide *;
    DiskFrame(s, SendStep(s, sent, reached).value);
  }

  lemma SendOnlyReleases(s: System, sent: SendAnswer, reached: bool)
    requires ControlSound(s) && SendStep(s, sent, reached).Some?
    ensures
      var t := SendStep(s, sent, reached).value;
      && t.disk == s.disk && t.owner == s.owner && t.missed == s.missed && t.everOpened == s.everOpened
      && TxsExtend(s.txs, t.txs)
      && forall sig :: sig in s.owner && Dead(s, sig) && !Held(s, sig) ==> Dead(t, sig) && !Held(t, sig)
  {
  }

  lemma SendKeepsControl(s: System, sent: SendAnswer, reached: bool)
    requires ControlSound(s) && SendStep(s, sent, reached).Some?
    ensures ControlSound(SendStep(s, sent, reached).value)
  {
  }

  // Answers to the runner's questions change its memory only.
  lemma AnswerFrame(s: System, t: System)
    requires Inv(s) && ControlSound(t) && !t.control.Sending? && !t.control.SavingSigned?
    requires t == s.(memory := t.memory, control := t.control)
    ensures Inv(t)
  {
    hide Inv, ControlSound, BookSound, Accounted;
    DiskFrame(s, t);
  }

  lemma ConfirmKeepsInv(s: System, confirmed: ConfirmAnswer)
    requires Inv(s) && ConfirmStep(s, confirmed).Some?
    ensures Inv(ConfirmStep(s, confirmed).value)
  {
    InvHasControl(s);
    hide Inv;
    ConfirmKeepsControl(s, confirmed);
    hide ControlSound;
    AnswerFrame(s, ConfirmStep(s, confirmed).value);
  }

  lemma ConfirmKeepsControl(s: System, confirmed: ConfirmAnswer)
    requires ControlSound(s) && ConfirmStep(s, confirmed).Some?
    ensures
      var t := ConfirmStep(s, confirmed).value;
      && ControlSound(t) && !t.control.Sending? && !t.control.SavingSigned?
      && t == s.(memory := t.memory, control := t.control)
  {
  }

  lemma MetaKeepsInv(s: System, found: MetaAnswer)
    requires Inv(s) && MetaStep(s, found).Some?
    ensures Inv(MetaStep(s, found).value)
  {
    InvHasControl(s);
    hide Inv;
    MetaKeepsControl(s, found);
    hide ControlSound;
    AnswerFrame(s, MetaStep(s, found).value);
  }

  lemma MetaKeepsControl(s: System, found: MetaAnswer)
    requires ControlSound(s) && MetaStep(s, found).Some?
    ensures
      var t := MetaStep(s, found).value;
      && ControlSound(t) && !t.control.Sending? && !t.control.SavingSigned?
      && t == s.(memory := t.memory, control := t.control)
  {
  }

  lemma ResolveKeepsInv(s: System, id: BookId, status: StatusAnswer, height: nat, meta: MetaAnswer)
    requires Inv(s) && ResolveStep(s, id, status, height, meta).Some?
    ensures Inv(ResolveStep(s, id, status, height, meta).value)
  {
    InvHasControl(s);
    if id in s.disk {
      InvHasBook(s, id);
    }
    hide Inv, BookSound;
    ResolveKeepsControl(s, id, status, height, meta);
    hide ControlSound;
    AnswerFrame(s, ResolveStep(s, id, status, height, meta).value);
  }

  lemma ResolveKeepsControl(s: System, id: BookId, status: StatusAnswer, height: nat, meta: MetaAnswer)
    requires ControlSound(s) && ResolveStep(s, id, status, height, meta).Some?
    requires id in s.disk ==> BookSound(s, id, s.disk[id])
    ensures
      var t := ResolveStep(s, id, status, height, meta).value;
      && ControlSound(t) && !t.control.Sending? && !t.control.SavingSigned?
      && t == s.(memory := t.memory, control := t.control)
  {
  }

  // ---------- saves ----------

  // A save that rewrites one saved book, with every other saved book and swap as it was.
  ghost predicate Rewrites(s: System, t: System, id: BookId) {
    && id in t.disk && t.disk == s.disk[id := t.disk[id]]
    && t.txs == s.txs && t.height == s.height && t.everOpened == s.everOpened
    && (forall sig :: sig in s.owner ==> sig in t.owner && t.owner[sig] == s.owner[sig])
    && (forall sig :: sig in t.owner && sig !in s.owner ==> sig in t.txs && t.owner[sig] == id && id in t.everOpened)
    && (forall sig :: sig in s.missed ==> sig in t.missed && t.missed[sig] == s.missed[sig])
    && (forall sig :: sig in t.missed && sig !in s.missed ==> sig in t.owner && t.owner[sig] == id)
    && (forall sig :: Held(t, sig) ==> Held(s, sig))
  }

  lemma RewriteKeepsBooks(s: System, t: System, id: BookId)
    requires Inv(s) && Rewrites(s, t, id) && BookSound(t, id, t.disk[id])
    ensures forall j :: j in t.disk ==> BookSound(t, j, t.disk[j])
  {
  }

  lemma RewriteKeepsAccounts(s: System, t: System, id: BookId)
    requires Inv(s) && Rewrites(s, t, id)
    requires forall sig :: sig in t.owner && t.owner[sig] == id ==> Accounted(t, sig)
    ensures forall sig :: sig in t.owner && t.owner[sig] in t.disk ==> Accounted(t, sig)
  {
  }

  lemma RewriteKeepsMissed(s: System, t: System, id: BookId)
    requires Inv(s) && Rewrites(s, t, id)
    requires forall sig :: sig in t.missed && sig in t.owner && t.owner[sig] == id ==> MissedSound(t, sig)
    ensures forall sig :: sig in t.missed ==> MissedSound(t, sig)
  {
  }

  lemma InvHasMissed(s: System, sig: Sig)
    requires Inv(s) && sig in s.missed
    ensures MissedSound(s, sig)
  {
  }

  lemma SaveFrame(s: System, t: System, id: BookId)
    requires Inv(s) && Rewrites(s, t, id)
    requires ControlSound(t) && BookSound(t, id, t.disk[id])
    requires forall sig :: sig in t.owner && t.owner[sig] == id ==> Accounted(t, sig)
    requires forall sig :: sig in t.missed && sig in t.owner && t.owner[sig] == id ==> MissedSound(t, sig)
    ensures Inv(t)
  {
    RewriteKeepsBooks(s, t, id);
    RewriteKeepsAccounts(s, t, id);
    RewriteKeepsMissed(s, t, id);
    hide BookSound, Accounted, ControlSound, Held, InTrades, MissedSound;
  }

  // Only a book's pending swap changes.
  lemma PendingReplaced(s: System, t: System, id: BookId, book: Book, pending: Option<PendingSwap>)
    requires BookSound(s, id, book)
    requires t.txs == s.txs && t.everOpened == s.everOpened
    requires forall sig :: sig in s.owner ==> sig in t.owner && t.owner[sig] == s.owner[sig]
    requires pending.Some? ==>
      var swap := pending.value;
      && swap.sig in s.txs && s.txs[swap.sig].swap == swap
      && swap.sig !in s.owner && swap.sig in t.owner && t.owner[swap.sig] == id
    ensures BookSound(t, id, book.(pending := pending))
  {
    hide Replay;
    assert book.(pending := pending).(pending := None) == book.(pending := None);
  }

  // Saving a signed swap makes it the book's pending one.
  lemma SignedIsSound(s: System, t: System, id: BookId)
    requires Inv(s) && s.control.SavingSigned? && s.control.book == id && SaveStep(s) == Some(t)
    ensures BookSound(t, id, t.disk[id])
    ensures t.disk[id].trades == s.disk[id].trades && s.disk[id].pending.None? && t.disk[id].pending.Some?
  {
    InvHasControl(s);
    InvHasBook(s, id);
    hide Inv, BookSound;
    PendingReplaced(s, t, id, s.disk[id], s.memory[id].pending);
  }

  lemma SaveSignedKeepsInv(s: System)
    requires Inv(s) && s.control.SavingSigned? && SaveStep(s).Some?
    ensures Inv(SaveStep(s).value)
  {
    var t, id := SaveStep(s).value, s.control.book;
    SignedIsSound(s, t, id);
    hide BookSound, InTrades;
    forall sig | sig in t.owner && t.owner[sig] == id ensures Accounted(t, sig) {
      if sig in s.owner {
        InvAccounts(s, sig);
        SameTrades(s.disk[id], t.disk[id], sig);
      }
    }
    forall sig ensures InTrades(t.disk[id], sig) == InTrades(s.disk[id], sig) {
      SameTrades(s.disk[id], t.disk[id], sig);
    }
    SaveFrame(s, t, id);
  }

  lemma SameTrades(a: Book, b: Book, sig: Sig)
    requires a.trades == b.trades
    ensures InTrades(a, sig) == InTrades(b, sig)
  {
  }

  lemma ReplayOne(principal: nat, trades: seq<Trade>, last: Trade, txs: map<Sig, Tx>)
    requires last.sig in txs && txs[last.sig].fate.Landed?
    ensures Replay(principal, trades + [last], txs) ==
      Booked(Replay(principal, trades, txs), txs[last.sig].swap, txs[last.sig].fate.delta)
  {
  }

  // Booking a landed swap adds exactly it to the book's trades, and keeps the amounts a replay of them.
  lemma BookedInTrades(before: Book, swap: PendingSwap, d: Delta, sig: Sig)
    ensures InTrades(Booked(before, swap, d), sig) <==> InTrades(before, sig) || sig == swap.sig
  {
    var after := Booked(before, swap, d);
    if InTrades(before, sig) {
      var i :| 0 <= i < |before.trades| && before.trades[i].sig == sig;
      assert after.trades[i].sig == sig;
    }
    assert after.trades[|before.trades|].sig == swap.sig;
  }

  lemma BookedTradesSound(s: System, id: BookId, before: Book, swap: PendingSwap, d: Delta)
    requires DistinctTrades(before) && TradesSound(s, id, before) && !InTrades(before, swap.sig)
    requires swap.sig in s.txs && s.txs[swap.sig].fate.Landed? && swap.sig in s.owner && s.owner[swap.sig] == id
    ensures DistinctTrades(Booked(before, swap, d)) && TradesSound(s, id, Booked(before, swap, d))
  {
  }

  lemma BookedKeepsSound(s: System, id: BookId, before: Book, d: Delta)
    requires BookSound(s, id, before) && before.pending.Some?
    requires s.txs[before.pending.value.sig].fate == Landed(d)
    ensures BookSound(s, id, Booked(before, before.pending.value, d))
    ensures forall sig :: InTrades(Booked(before, before.pending.value, d), sig) <==>
      InTrades(before, sig) || sig == before.pending.value.sig
  {
    var swap := before.pending.value;
    ReplayOne(before.principal, before.trades, Booked(before, swap, d).trades[|before.trades|], s.txs);
    BookedTradesSound(s, id, before, swap, d);
    hide Replay, InTrades, TradesSound, DistinctTrades;
    forall sig
      ensures InTrades(Booked(before, swap, d), sig) <==> InTrades(before, sig) || sig == swap.sig
    {
      BookedInTrades(before, swap, d, sig);
    }
  }

  lemma BookedIsSound(s: System, t: System, id: BookId)
    requires Inv(s) && s.control.SavingBooked? && s.control.book == id && SaveStep(s) == Some(t)
    ensures BookSound(t, id, t.disk[id])
    ensures forall sig :: InTrades(t.disk[id], sig) <==>
      InTrades(s.disk[id], sig) || sig == s.disk[id].pending.value.sig
  {
    InvHasControl(s);
    InvHasBook(s, id);
    hide Inv, Booked, InTrades;
    var d := s.txs[s.disk[id].pending.value.sig].fate.delta;
    BookedKeepsSound(s, id, s.disk[id], d);
    BookFrame(s, t, id, Booked(s.disk[id], s.disk[id].pending.value, d));
  }

  lemma SaveBookedKeepsInv(s: System)
    requires Inv(s) && s.control.SavingBooked? && SaveStep(s).Some?
    ensures Inv(SaveStep(s).value)
  {
    var t, id := SaveStep(s).value, s.control.book;
    BookedIsSound(s, t, id);
    InvHasControl(s);
    hide BookSound, InTrades, Inv, Booked, Dead, MissedSound;
    forall sig | sig in t.owner && t.owner[sig] == id
      ensures Accounted(t, sig) && (sig in t.missed ==> MissedSound(t, sig))
    {
      BookedAccounts(s, t, id, sig);
    }
    hide Accounted;
    SaveFrame(s, t, id);
  }

  lemma BookedAccounts(s: System, t: System, id: BookId, sig: Sig)
    requires Inv(s) && s.control.SavingBooked? && s.control.book == id && SaveStep(s) == Some(t)
    requires id in s.disk && s.disk[id].pending.Some? && id in t.disk && t.disk[id].pending.None?
    requires forall other :: InTrades(t.disk[id], other) <==>
      InTrades(s.disk[id], other) || other == s.disk[id].pending.value.sig
    requires sig in s.owner && s.owner[sig] == id
    ensures Accounted(t, sig) && (sig in t.missed ==> MissedSound(t, sig))
  {
    InvAccounts(s, sig);
    if sig in s.missed {
      InvHasMissed(s, sig);
    }
    hide Inv, InTrades, Booked;
  }

  // A save of a cleared swap, which is dead or now recorded as missed.
  ghost predicate Drops(s: System, t: System, id: BookId) {
    && id in s.disk && s.disk[id].pending.Some?
    && t.disk == s.disk[id := s.disk[id].(pending := None)]
    && t.owner == s.owner && t.txs == s.txs && t.height == s.height && t.control.Idle?
    && (var sig := s.disk[id].pending.value.sig;
        && sig in s.owner && s.owner[sig] == id && !InTrades(s.disk[id], sig) && sig in s.txs
        && ((Dead(t, sig) && t.missed == s.missed)
            || (s.txs[sig].fate.Landed? && sig in t.missed && t.missed == s.missed[sig := t.missed[sig]]
                && (t.missed[sig].MetaLookupThrew? || t.missed[sig].ExpiredUnseen?))))
  }

  lemma DroppedIsSound(s: System, t: System, id: BookId)
    requires Inv(s) && s.control.SavingDropped? && s.control.book == id && SaveStep(s) == Some(t)
    ensures Drops(s, t, id) && BookSound(t, id, t.disk[id])
  {
    InvHasControl(s);
    InvHasBook(s, id);
    hide Inv, Accounted;
    PendingReplaced(s, t, id, s.disk[id], None);
  }

  lemma DroppedAccounts(s: System, t: System, id: BookId, sig: Sig)
    requires Inv(s) && Drops(s, t, id) && sig in t.owner && t.owner[sig] == id
    ensures Accounted(t, sig)
    ensures sig in t.missed ==> MissedSound(t, sig)
  {
    InvAccounts(s, sig);
    SameTrades(s.disk[id], t.disk[id], sig);
    if sig in s.missed {
      InvHasMissed(s, sig);
    }
    hide Inv, InTrades;
  }

  lemma DropRewrites(s: System, t: System, id: BookId)
    requires Drops(s, t, id) && s.disk[id].pending.value.sig !in s.missed && t.everOpened == s.everOpened
    ensures Rewrites(s, t, id)
  {
    hide InTrades, Dead;
  }

  lemma SaveDroppedKeepsInv(s: System)
    requires Inv(s) && s.control.SavingDropped? && SaveStep(s).Some?
    ensures Inv(SaveStep(s).value)
  {
    var t, id := SaveStep(s).value, s.control.book;
    DroppedIsSound(s, t, id);
    NotMissedYet(s, s.disk[id].pending.value.sig);
    DropRewrites(s, t, id);
    hide Inv, BookSound, Accounted, MissedSound, Drops, Rewrites;
    forall sig | sig in t.owner && t.owner[sig] == id
      ensures Accounted(t, sig) && (sig in t.missed ==> MissedSound(t, sig))
    {
      DroppedAccounts(s, t, id, sig);
    }
    SaveFrame(s, t, id);
  }

  // A swap that is still pending in the state file has not been missed.
  lemma NotMissedYet(s: System, sig: Sig)
    requires Inv(s) && sig in s.owner && s.owner[sig] in s.disk
    requires s.disk[s.owner[sig]].pending.Some? && s.disk[s.owner[sig]].pending.value.sig == sig
    ensures sig !in s.missed
  {
  }

  lemma SaveOpenedKeepsInv(s: System)
    requires Inv(s) && s.control.SavingOpened? && SaveStep(s).Some?
    ensures Inv(SaveStep(s).value)
  {
    SaveFrame(s, SaveStep(s).value, s.control.book);
  }

  lemma SaveClosedKeepsInv(s: System)
    requires Inv(s) && s.control.SavingClosed? && SaveStep(s).Some?
    ensures Inv(SaveStep(s).value)
  {
    var t := SaveStep(s).value;
    forall j | j in t.disk ensures BookSound(t, j, t.disk[j]) {
      assert BookSound(s, j, s.disk[j]);
    }
    forall sig | sig in t.owner && t.owner[sig] in t.disk ensures Accounted(t, sig) {
      assert Accounted(s, sig);
    }
  }

  // ---------- every step, every run ----------

  lemma StepKeepsInv(s: System, step: Step)
    requires Inv(s) && Next(s, step).Some?
    ensures Inv(Next(s, step).value)
  {
    hide Inv;
    match step
    case OpenBook(id, principal) => OpenKeepsInv(s, id, principal);
    case CloseBook(id) => CloseKeepsInv(s, id);
    case SignSwap(id, swap) => SignKeepsInv(s, id, swap);
    case SaveState =>
      if s.control.SavingSigned? { SaveSignedKeepsInv(s); }
      else if s.control.SavingBooked? { SaveBookedKeepsInv(s); }
      else if s.control.SavingDropped? { SaveDroppedKeepsInv(s); }
      else if s.control.SavingOpened? { SaveOpenedKeepsInv(s); }
      else { SaveClosedKeepsInv(s); }
    case Send(sent, reached) => SendKeepsInv(s, sent, reached);
    case Confirm(confirmed) => ConfirmKeepsInv(s, confirmed);
    case FetchMeta(found) => MetaKeepsInv(s, found);
    case Resolve(id, status, height, meta) => ResolveKeepsInv(s, id, status, height, meta);
    case Crash => CrashKeepsInv(s);
    case Land(sig, fate) => LandKeepsInv(s, sig, fate);
    case NextBlock => BlockKeepsInv(s);
  }

  lemma {:induction false} RunKeepsInv(s: System, run: seq<Step>)
    requires Inv(s) && Run(s, run).Some?
    ensures Inv(Run(s, run).value)
  {
    hide Inv;
    if run != [] {
      RunKeepsInv(s, run[..|run| - 1]);
      StepKeepsInv(Run(s, run[..|run| - 1]).value, run[|run| - 1]);
    }
  }

  lemma StartSatisfiesInv(s: System)
    requires Start(s)
    ensures Inv(s)
  {
  }

  // ---------- exactly-once booking ----------

  // The two lookups that can lose a landed swap: the balance changes of a confirmed swap could not be read because
  // the lookup itself failed, or the last look at an expired, unseen swap that did land found nothing.
  predicate FailedLookup(s: System, step: Step) {
    || (step.FetchMeta? && step.found.Threw?)
    || (step.Resolve? && step.status.Unseen? && Pending(s.memory, step.book).Some?
        && (var swap := s.memory[step.book].pending.value;
            && step.height > swap.lastValidBlockHeight && !step.meta.Found?
            && swap.sig in s.txs && s.txs[swap.sig].fate.Landed?))
  }

  // No step of the run is such a lookup.
  ghost predicate LookupsWork(s: System, run: seq<Step>) {
    run == [] ||
    (LookupsWork(s, run[..|run| - 1])
     && match Run(s, run[..|run| - 1]) case Some(t) => !FailedLookup(t, run[|run| - 1]) case None => true)
  }

  // Nothing is lost, or about to be.
  ghost predicate NothingLost(s: System) {
    && s.missed == map[]
    && (s.control.SavingDropped? ==>
          Pending(s.disk, s.control.book).Some? && Dead(s, s.disk[s.control.book].pending.value.sig))
  }

  lemma ResolveLosesNothing(s: System, step: Step)
    requires Inv(s) && NothingLost(s) && step.Resolve? && Next(s, step).Some? && !FailedLookup(s, step)
    ensures NothingLost(Next(s, step).value)
  {
    InvHasControl(s);
    InvHasBook(s, step.book);
    hide Inv;
  }

  lemma SendLosesNothing(s: System, step: Step)
    requires ControlSound(s) && NothingLost(s) && Next(s, step).Some? && !FailedLookup(s, step)
    requires step.Send? || step.Confirm? || step.FetchMeta?
    ensures NothingLost(Next(s, step).value)
  {
  }

  lemma StepLosesNothing(s: System, step: Step)
    requires Inv(s) && NothingLost(s) && Next(s, step).Some?
    requires !FailedLookup(s, step)
    ensures NothingLost(Next(s, step).value)
  {
    InvHasControl(s);
    hide Inv, FailedLookup, ResolveStep, SendStep, ConfirmStep, MetaStep;
    match step
    case Land(sig, fate) =>
      if s.control.SavingDropped? { LandingSparesDead(s, sig, fate, s.disk[s.control.book].pending.value.sig); }
    case Resolve(_, _, _, _) => ResolveLosesNothing(s, step);
    case Send(_, _) => SendLosesNothing(s, step);
    case Confirm(_) => SendLosesNothing(s, step);
    case FetchMeta(_) => SendLosesNothing(s, step);
    case _ =>
  }

  lemma {:induction false} RunLosesNothing(s: System, run: seq<Step>)
    requires Start(s) && Run(s, run).Some? && LookupsWork(s, run)
    ensures NothingLost(Run(s, run).value)
  {
    if run != [] {
      var before := run[..|run| - 1];
      RunLosesNothing(s, before);
      StartSatisfiesInv(s);
      RunKeepsInv(s, before);
      StepLosesNothing(Run(s, before).value, run[|run| - 1]);
    }
  }

  predicate IsPending(s: System, id: BookId, sig: Sig) {
    Pending(s.disk, id).Some? && s.disk[id].pending.value.sig == sig
  }

  // Booked exactly once, and on the chain.
  ghost predicate BookedOnce(s: System, id: BookId, sig: Sig) {
    && id in s.disk && sig in s.txs && s.txs[sig].fate.Landed?
    && exists i :: 0 <= i < |s.disk[id].trades| && s.disk[id].trades[i].sig == sig
         && forall j :: 0 <= j < |s.disk[id].trades| && s.disk[id].trades[j].sig == sig ==> j == i
  }

  // Dropped, and unable ever to land: rejected by the chain, expired, or never sent by anyone.
  ghost predicate DroppedDead(s: System, id: BookId, sig: Sig) {
    !IsPending(s, id, sig) && Dead(s, sig) && !Held(s, sig)
  }

  lemma TradeIsBookedOnce(s: System, id: BookId, sig: Sig)
    requires id in s.disk && BookSound(s, id, s.disk[id]) && InTrades(s.disk[id], sig)
    ensures BookedOnce(s, id, sig) && !IsPending(s, id, sig)
  {
  }

  // Across any interleaving of the runner, the chain, crashes and restarts: every swap ever saved for a book still
  // in the state file is there exactly one of pending, booked once and landed, or dropped and unable to land,
  // provided the two lookups above work.
  lemma ExactlyOnce(start: System, run: seq<Step>, sig: Sig)
    requires Start(start) && Run(start, run).Some? && LookupsWork(start, run)
    requires var s := Run(start, run).value; sig in s.owner && s.owner[sig] in s.disk
    ensures
      var s := Run(start, run).value;
      var id := s.owner[sig];
      || (IsPending(s, id, sig) && !BookedOnce(s, id, sig) && !DroppedDead(s, id, sig))
      || (!IsPending(s, id, sig) && BookedOnce(s, id, sig) && !DroppedDead(s, id, sig))
      || (!IsPending(s, id, sig) && !BookedOnce(s, id, sig) && DroppedDead(s, id, sig))
  {
    StartSatisfiesInv(start);
    RunKeepsInv(start, run);
    RunLosesNothing(start, run);
    Classified(Run(start, run).value, sig);
  }

  // Without that proviso there is exactly one more possibility: landed, cleared, and recorded as missed.
  lemma Classified(s: System, sig: Sig)
    requires Inv(s)
    requires sig in s.owner && s.owner[sig] in s.disk
    ensures
      var id := s.owner[sig];
      || (IsPending(s, id, sig) && !BookedOnce(s, id, sig) && !DroppedDead(s, id, sig) && sig !in s.missed)
      || (!IsPending(s, id, sig) && BookedOnce(s, id, sig) && !DroppedDead(s, id, sig) && sig !in s.missed)
      || (!IsPending(s, id, sig) && !BookedOnce(s, id, sig) && DroppedDead(s, id, sig) && sig !in s.missed)
      || (!IsPending(s, id, sig) && !BookedOnce(s, id, sig) && !DroppedDead(s, id, sig) && sig in s.missed
          && s.txs[sig].fate.Landed?)
  {
    var id := s.owner[sig];
    InvHasBook(s, id);
    InvAccounts(s, sig);
    if BookedOnce(s, id, sig) {
      BookedOnceIsTrade(s, id, sig);
    }
    if InTrades(s.disk[id], sig) {
      TradeIsBookedOnce(s, id, sig);
    }
  }

  lemma BookedOnceIsTrade(s: System, id: BookId, sig: Sig)
    requires BookedOnce(s, id, sig)
    ensures InTrades(s.disk[id], sig)
  {
  }

  // ---------- exactly which swaps are lost ----------

  // The swap a failed lookup was about.
  function LookedUp(s: System, step: Step): Option<Sig> {
    var pending := if step.FetchMeta? && s.control.FetchingMeta? then Pending(s.memory, s.control.book)
                   else if step.Resolve? then Pending(s.memory, step.book)
                   else None;
    if FailedLookup(s, step) && pending.Some? then Some(pending.value.sig) else None
  }

  // A landed swap is cleared in memory, and the save of that is under way.
  predicate Losing(s: System, sig: Sig) {
    s.control.SavingDropped? && IsPending(s, s.control.book, sig) && sig in s.txs && s.txs[sig].fate.Landed?
  }

  // The step completes a save, or a crash forgets it.
  predicate EndsSave(step: Step) {
    step.SaveState? || step.Crash?
  }

  lemma LookupStartsLosing(s: System, step: Step, sig: Sig)
    requires ControlSound(s) && Next(s, step).Some? && (step.FetchMeta? || step.Resolve?)
    ensures Losing(Next(s, step).value, sig) <==> LookedUp(s, step) == Some(sig)
    ensures Next(s, step).value.missed == s.missed && !Losing(s, sig)
  {
  }

  lemma SendLosesNone(s: System, step: Step, sig: Sig)
    requires ControlSound(s) && Next(s, step).Some? && (step.Send? || step.Confirm?)
    ensures !Losing(Next(s, step).value, sig) && Next(s, step).value.missed == s.missed && !Losing(s, sig)
  {
  }

  lemma StepLoses(s: System, step: Step, sig: Sig)
    requires Inv(s) && Next(s, step).Some?
    ensures var t := Next(s, step).value;
      && (Losing(t, sig) <==> LookedUp(s, step) == Some(sig) || (Losing(s, sig) && !EndsSave(step)))
      && (sig in t.missed <==> sig in s.missed || (Losing(s, sig) && step.SaveState?))
  {
    InvHasControl(s);
    hide Inv;
    if step.Resolve? || step.FetchMeta? {
      hide Next, FailedLookup;
      LookupStartsLosing(s, step, sig);
    } else if step.Send? || step.Confirm? {
      hide Next;
      SendLosesNone(s, step, sig);
    } else if step.Land? {
      LandingLoses(s, step, sig);
    }
  }

  lemma LandingLoses(s: System, step: Step, sig: Sig)
    requires ControlSound(s) && Next(s, step).Some? && step.Land?
    ensures var t := Next(s, step).value; (Losing(t, sig) <==> Losing(s, sig)) && t.missed == s.missed
  {
    if s.control.SavingDropped? {
      LandingSparesDead(s, step.sig, step.fate, s.disk[s.control.book].pending.value.sig);
    }
  }

  // The lookup at step i of the run failed, and no save or crash ended between it and step j.
  ghost predicate LostSince(start: System, run: seq<Step>, sig: Sig, i: nat, j: nat)
    requires i < j <= |run|
  {
    && Run(start, run[..i]).Some? && LookedUp(Run(start, run[..i]).value, run[i]) == Some(sig)
    && forall k :: i < k < j ==> !EndsSave(run[k])
  }

  // A lookup of the swap failed, and the next save completed with no crash in between.
  ghost predicate WasLost(start: System, run: seq<Step>, sig: Sig) {
    exists i: nat, j: nat :: i < j < |run| && LostSince(start, run, sig, i, j) && run[j].SaveState?
  }

  ghost predicate IsBeingLost(start: System, run: seq<Step>, sig: Sig) {
    exists i: nat :: i < |run| && LostSince(start, run, sig, i, |run|)
  }

  // One more step of a run.
  lemma LostSinceExtends(start: System, run: seq<Step>, step: Step, sig: Sig, i: nat, j: nat)
    requires i < j <= |run|
    ensures LostSince(start, run + [step], sig, i, j) == LostSince(start, run, sig, i, j)
  {
    var longer := run + [step];
    assert longer[..i] == run[..i] && longer[i] == run[i];
    assert forall k :: i < k < j ==> longer[k] == run[k];
    assert LostSince(start, longer, sig, i, j) ==> forall k :: i < k < j ==> !EndsSave(longer[k]) && longer[k] == run[k];
  }

  lemma BeingLostExtends(start: System, run: seq<Step>, step: Step, sig: Sig)
    requires Run(start, run).Some?
    ensures IsBeingLost(start, run + [step], sig) <==>
      LookedUp(Run(start, run).value, step) == Some(sig) || (IsBeingLost(start, run, sig) && !EndsSave(step))
  {
    var longer := run + [step];
    assert longer[..|run|] == run && longer[|run|] == step;
    hide Run, LookedUp, EndsSave;
    if IsBeingLost(start, longer, sig) {
      var i: nat :| i < |longer| && LostSince(start, longer, sig, i, |longer|);
      if i < |run| {
        assert LostSince(start, longer, sig, i, |run|);
        LostSinceExtends(start, run, step, sig, i, |run|);
        assert !EndsSave(longer[|run|]);
      }
    }
    if IsBeingLost(start, run, sig) {
      var i: nat :| i < |run| && LostSince(start, run, sig, i, |run|);
      LostSinceExtends(start, run, step, sig, i, |run|);
      assert !EndsSave(step) ==> LostSince(start, longer, sig, i, |longer|);
    }
    if LookedUp(Run(start, run).value, step) == Some(sig) {
      assert LostSince(start, longer, sig, |run|, |longer|);
    }
  }

  lemma WasLostExtends(start: System, run: seq<Step>, step: Step, sig: Sig)
    ensures WasLost(start, run + [step], sig) <==>
      WasLost(start, run, sig) || (IsBeingLost(start, run, sig) && step.SaveState?)
  {
    var longer := run + [step];
    hide LostSince;
    if i: nat, j: nat :| i < j < |longer| && LostSince(start, longer, sig, i, j) && longer[j].SaveState? {
      LostSinceExtends(start, run, step, sig, i, j);
    }
    if i: nat, j: nat :| i < j < |run| && LostSince(start, run, sig, i, j) && run[j].SaveState? {
      LostSinceExtends(start, run, step, sig, i, j);
      assert longer[j].SaveState?;
    }
    if i: nat :| i < |run| && LostSince(start, run, sig, i, |run|) && step.SaveState? {
      LostSinceExtends(start, run, step, sig, i, |run|);
      assert longer[|run|].SaveState?;
    }
  }

  // Over every run a swap is missed exactly if one of the two lookups of it failed and the save that follows the
  // lookup completed; a crash before that save undoes the loss.
  lemma {:induction false} LostExactly(start: System, run: seq<Step>, sig: Sig)
    requires Start(start) && Run(start, run).Some?
    ensures sig in Run(start, run).value.missed <==> WasLost(start, run, sig)
    ensures Losing(Run(start, run).value, sig) <==> IsBeingLost(start, run, sig)
  {
    hide Inv, Next, WasLost, IsBeingLost, Losing;
    if run == [] {
      NothingLostYet(start, sig);
    } else {
      var before, step := run[..|run| - 1], run[|run| - 1];
      LostExactly(start, before, sig);
      StartSatisfiesInv(start);
      RunKeepsInv(start, before);
      StepLoses(Run(start, before).value, step, sig);
      assert run == before + [step];
      BeingLostExtends(start, before, step, sig);
      WasLostExtends(start, before, step, sig);
    }
  }

  lemma NothingLostYet(start: System, sig: Sig)
    requires Start(start)
    ensures !Losing(start, sig) && !IsBeingLost(start, [], sig) && !WasLost(start, [], sig)
  {
  }

  // So of a swap saved for a book still in the state file, exactly one of the three holds if and only if it was not
  // lost that way.
  lemma ExactlyOnceUnlessLost(start: System, run: seq<Step>, sig: Sig)
    requires Start(start) && Run(start, run).Some?
    requires var s := Run(start, run).value; sig in s.owner && s.owner[sig] in s.disk
    ensures
      var s := Run(start, run).value;
      var id := s.owner[sig];
      IsPending(s, id, sig) || BookedOnce(s, id, sig) || DroppedDead(s, id, sig) <==> !WasLost(start, run, sig)
  {
    StartSatisfiesInv(start);
    RunKeepsInv(start, run);
    LostExactly(start, run, sig);
    hide Inv, BookedOnce, DroppedDead, WasLost;
    Classified(Run(start, run).value, sig);
  }

  // And a swap once missed is lost for good: whatever happens next, it has landed and its book, as long as it is in
  // the state file, neither books it nor has it pending.
  lemma {:induction false} LostForever(s: System, run: seq<Step>, sig: Sig)
    requires Inv(s) && sig in s.missed && Run(s, run).Some?
    ensures var t := Run(s, run).value;
      && sig in t.missed && sig in t.txs && t.txs[sig].fate.Landed?
      && (sig in t.owner && t.owner[sig] in t.disk ==>
            !IsPending(t, t.owner[sig], sig) && !BookedOnce(t, t.owner[sig], sig))
  {
    var t := Run(s, run).value;
    RunKeepsInv(s, run);
    if run != [] {
      var before := run[..|run| - 1];
      LostForever(s, before, sig);
      RunKeepsInv(s, before);
      StepLoses(Run(s, before).value, run[|run| - 1], sig);
    }
    InvHasMissed(t, sig);
    hide Inv, Run;
    if sig in t.owner && t.owner[sig] in t.disk && BookedOnce(t, t.owner[sig], sig) {
      BookedOnceIsTrade(t, t.owner[sig], sig);
    }
  }

  lemma {:induction false} RunExtends(s: System, run: seq<Step>, step: Step)
    ensures Run(s, run + [step]) == match Run(s, run) case None => None case Some(t) => Next(t, step)
  {
  }

  const LOST_SWAP := PendingSwap(7, 0, SOL, 40, true)
  const EMPTY_BOOK := Book(100, 100, 0, 0, [], None)

  lemma LostSwapIsSaved(start: System) returns (run: seq<Step>, s: System)
    requires Start(start) && start.height == 0
    ensures Run(start, run) == Some(s)
    ensures s.control == Sending(0) && s.height == 0 && s.txs == map[7 := Tx(LOST_SWAP, Waiting, false)]
    ensures s.memory == s.disk == map[0 := EMPTY_BOOK.(pending := Some(LOST_SWAP))]
  {
    hide Run, Replay;
    RunNothing(start);
    run, s := Extend(start, [], start, OpenBook(0, 100));
    run, s := Extend(start, run, s, SaveState);
    run, s := Extend(start, run, s, SignSwap(0, LOST_SWAP));
    run, s := Extend(start, run, s, SaveState);
  }

  // A run in which the chain sold 40 of the book's 100 for 9, and the book never hears of it.
  lemma LostSwap(start: System) returns (run: seq<Step>, s: System)
    requires Start(start) && start.height == 0
    ensures Run(start, run) == Some(s)
    ensures s.txs == map[7 := Tx(LOST_SWAP, Landed(Delta(-40, 9)), true)]
    ensures s.memory == s.disk == map[0 := EMPTY_BOOK]
  {
    hide Run, Replay;
    run, s := LostSwapIsSaved(start);
    run, s := Extend(start, run, s, Send(Accepted, true));
    run, s := Extend(start, run, s, Land(7, Landed(Delta(-40, 9))));
    run, s := Extend(start, run, s, Confirm(Confirmed));
    run, s := Extend(start, run, s, FetchMeta(Threw));
    run, s := Extend(start, run, s, SaveState);
  }

  // And one that loses it at the other lookup: the send went out but was not answered, the swap landed, its blockhash
  // expired, a lagging node has not seen it, and the last look at it threw.
  lemma LostAtTheLastLook(start: System) returns (run: seq<Step>, s: System)
    requires Start(start) && start.height == 0
    ensures Run(start, run) == Some(s)
    ensures s.txs == map[7 := Tx(LOST_SWAP, Landed(Delta(-40, 9)), true)]
    ensures s.memory == s.disk == map[0 := EMPTY_BOOK]
  {
    hide Run, Replay;
    run, s := LostSwapIsSaved(start);
    run, s := Extend(start, run, s, Send(SendThrew, true));
    run, s := Extend(start, run, s, Land(7, Landed(Delta(-40, 9))));
    run, s := Extend(start, run, s, NextBlock);
    run, s := Extend(start, run, s, Resolve(0, Unseen, 1, Threw));
    run, s := Extend(start, run, s, SaveState);
  }

  lemma RunNothing(s: System)
    ensures Run(s, []) == Some(s)
  {
  }

  lemma Extend(start: System, run: seq<Step>, s: System, step: Step) returns (longer: seq<Step>, t: System)
    requires Run(start, run) == Some(s)
    requires Next(s, step).Some?
    ensures Next(s, step) == Some(t) && Run(start, longer) == Some(t) && longer == run + [step]
  {
    RunExtends(start, run, step);
    longer, t := run + [step], Next(s, step).value;
  }

  // The protocol's steps change memory exactly as the runner's own code does.
  lemma StepsFollowTheCode(s: System, step: Step, t: System)
    requires Next(s, step) == Some(t)
    ensures step.Resolve? ==> Pending(s.memory, step.book).Some?
    ensures step.Resolve? ==>
      var swap := s.memory[step.book].pending.value;
      t.memory == s.memory[step.book := AfterResolution(
        s.memory[step.book], swap, ResolveSwap(step.status, step.height, swap.lastValidBlockHeight, step.meta))]
    ensures step.Send? || step.Confirm? || step.FetchMeta? ==>
      && (s.control.Sending? || s.control.Confirming? || s.control.FetchingMeta?)
      && Pending(s.memory, s.control.book).Some?
    ensures step.Send? && !step.sent.Accepted? ==>
      t.memory == s.memory[s.control.book := AfterSwap(
        s.memory[s.control.book], s.memory[s.control.book].pending.value, SwapExactIn(step.sent, ConfirmThrew, Missing))]
    ensures step.Confirm? && !step.confirmed.Confirmed? ==>
      t.memory == s.memory[s.control.book := AfterSwap(
        s.memory[s.control.book], s.memory[s.control.book].pending.value, SwapExactIn(Accepted, step.confirmed, Missing))]
    ensures step.FetchMeta? ==>
      t.memory == s.memory[s.control.book := AfterSwap(
        s.memory[s.control.book], s.memory[s.control.book].pending.value, SwapExactIn(Accepted, Confirmed, step.found))]
  {
    if step.Resolve? {
      assert s.memory == s.memory[step.book := s.memory[step.book]];
    } else if step.Send? || step.Confirm? || step.FetchMeta? {
      assert s.memory == s.memory[s.control.book := s.memory[s.control.book]];
    }
  }

  // At most one swap of a book can still land, and it is the one the state file calls pending.
  lemma AtMostOneInFlight(start: System, run: seq<Step>, sig: Sig)
    requires Start(start) && Run(start, run).Some?
    requires var s := Run(start, run).value;
      && sig in s.owner && s.owner[sig] in s.disk && sig in s.txs
      && s.txs[sig].fate.Waiting? && s.txs[sig].released && s.height <= s.txs[sig].swap.lastValidBlockHeight
    ensures var s := Run(start, run).value; IsPending(s, s.owner[sig], sig)
  {
    var s := Run(start, run).value;
    StartSatisfiesInv(start);
    RunKeepsInv(start, run);
    InvHasBook(s, s.owner[sig]);
    InvAccounts(s, sig);
    if sig in s.missed {
      InvHasMissed(s, sig);
    }
    hide Run, Inv, Start, Replay;
  }

  // The book's swaps replayed are its amounts, whatever replaying one comes to.
  lemma BooksReplay(start: System, run: seq<Step>, id: BookId)
    requires Start(start) && Run(start, run).Some? && id in Run(start, run).value.disk
    ensures var s := Run(start, run).value;
      && s.disk[id].(pending := None) == Replay(s.disk[id].principal, s.disk[id].trades, s.txs)
      && TradesSound(s, id, s.disk[id])
  {
    StartSatisfiesInv(start);
    RunKeepsInv(start, run);
    InvHasBook(Run(start, run).value, id);
    hide Run, Inv, Start, Replay;
  }

  // ---------- what a book's amounts are ----------

  // A balance that starts here and takes these changes in turn, never shown below zero.
  function Running(start: nat, changes: seq<int>): nat {
    if changes == [] then start
    else
      var sum := Running(start, changes[..|changes| - 1]) + changes[|changes| - 1];
      if sum >= 0 then sum else 0
  }

  function Sum(changes: seq<int>): int {
    if changes == [] then 0 else Sum(changes[..|changes| - 1]) + changes[|changes| - 1]
  }

  // While the changes never overdraw it, it is the plain sum.
  lemma {:induction false} RunningIsSum(start: nat, changes: seq<int>)
    requires forall n :: 0 <= n <= |changes| ==> start + Sum(changes[..n]) >= 0
    ensures Running(start, changes) == start + Sum(changes)
  {
    if changes != [] {
      var before := changes[..|changes| - 1];
      forall n | 0 <= n <= |before| ensures start + Sum(before[..n]) >= 0 {
        assert before[..n] == changes[..n];
      }
      RunningIsSum(start, before);
      assert changes[..|changes|] == changes && start + Sum(changes[..|changes|]) >= 0;
    }
  }

  // What the chain changed in each of the wallet's two balances, swap by swap.
  function SolChanges(trades: seq<Trade>, txs: map<Sig, Tx>): seq<int>
    requires AllLanded(trades, txs)
  {
    seq(|trades|, i requires 0 <= i < |trades| => txs[trades[i].sig].fate.delta.sol)
  }

  function UsdcChanges(trades: seq<Trade>, txs: map<Sig, Tx>): seq<int>
    requires AllLanded(trades, txs)
  {
    seq(|trades|, i requires 0 <= i < |trades| => txs[trades[i].sig].fate.delta.usdc)
  }

  predicate AllLanded(trades: seq<Trade>, txs: map<Sig, Tx>) {
    forall i :: 0 <= i < |trades| ==> trades[i].sig in txs && txs[trades[i].sig].fate.Landed?
  }

  // How many of the swaps end a cycle.
  function Cycles(trades: seq<Trade>, txs: map<Sig, Tx>): nat
    requires AllLanded(trades, txs)
  {
    |set i | 0 <= i < |trades| && txs[trades[i].sig].swap.bumpCycle|
  }

  // A trade says what was signed, and as proceeds what the chain added in the currency that was bought.
  predicate TradeSays(t: Trade, tx: Tx)
    requires tx.fate.Landed?
  {
    && t.side == tx.swap.side && t.amount == tx.swap.amount
    && (t.side == SOL ==> t.out == tx.fate.delta.usdc)
    && (t.side == USDC ==> t.out == tx.fate.delta.sol)
  }

  lemma OneMoreCycle(trades: seq<Trade>, txs: map<Sig, Tx>)
    requires trades != [] && AllLanded(trades, txs)
    ensures var last := |trades| - 1;
      Cycles(trades, txs) == Cycles(trades[..last], txs) + if txs[trades[last].sig].swap.bumpCycle then 1 else 0
  {
    var last := |trades| - 1;
    var all := set i | 0 <= i < |trades| && txs[trades[i].sig].swap.bumpCycle;
    var before := set i | 0 <= i < last && txs[trades[..last][i].sig].swap.bumpCycle;
    assert all == before + if txs[trades[last].sig].swap.bumpCycle then {last} else {};
  }

  lemma {:induction false} ReplayComesTo(principal: nat, trades: seq<Trade>, txs: map<Sig, Tx>)
    requires AllLanded(trades, txs)
    ensures var b := Replay(principal, trades, txs);
      && b.principal == principal && b.pending.None?
      && b.sol == Running(principal, SolChanges(trades, txs))
      && b.usdc == Running(0, UsdcChanges(trades, txs))
      && b.cycles == Cycles(trades, txs)
      && |b.trades| == |trades|
      && forall i :: 0 <= i < |trades| ==>
           b.trades[i].sig == txs[trades[i].sig].swap.sig && TradeSays(b.trades[i], txs[trades[i].sig])
  {
    if trades != [] {
      var last := |trades| - 1;
      ReplayComesTo(principal, trades[..last], txs);
      OneMoreCycle(trades, txs);
      assert SolChanges(trades, txs)[..last] == SolChanges(trades[..last], txs);
      assert UsdcChanges(trades, txs)[..last] == UsdcChanges(trades[..last], txs);
      hide Cycles;
    }
  }

  // The amounts a saved book carries are what its landed swaps made of its principal on the chain: its SOL the running
  // sum of their changes to the wallet's SOL, its USDC that of their changes to the USDC; its cycles are the swaps that
  // end one; and every trade says what was signed and what it brought.
  lemma BooksMatchChain(start: System, run: seq<Step>, id: BookId)
    requires Start(start) && Run(start, run).Some? && id in Run(start, run).value.disk
    ensures
      var s := Run(start, run).value;
      var book := s.disk[id];
      && AllLanded(book.trades, s.txs)
      && book.sol == Running(book.principal, SolChanges(book.trades, s.txs))
      && book.usdc == Running(0, UsdcChanges(book.trades, s.txs))
      && book.cycles == Cycles(book.trades, s.txs)
      && forall i :: 0 <= i < |book.trades| ==> TradeSays(book.trades[i], s.txs[book.trades[i].sig])
  {
    var s := Run(start, run).value;
    BooksReplay(start, run, id);
    hide Run, Running, SolChanges, UsdcChanges, Cycles, TradeSays, Replay;
    ReplayComesTo(s.disk[id].principal, s.disk[id].trades, s.txs);
  }

  // The draw or adoption that opened a book.
  ghost predicate OpenedWith(run: seq<Step>, id: BookId, principal: nat) {
    exists j :: 0 <= j < |run| && run[j] == OpenBook(id, principal)
  }

  // And the principal of a book, in memory or saved, is the one it was opened with.
  lemma {:induction false} PrincipalIsAsOpened(start: System, run: seq<Step>, id: BookId)
    requires Start(start) && Run(start, run).Some?
    ensures var s := Run(start, run).value;
      && (id in s.memory ==> OpenedWith(run, id, s.memory[id].principal))
      && (id in s.disk ==> OpenedWith(run, id, s.disk[id].principal))
  {
    if run != [] {
      var before, step := run[..|run| - 1], run[|run| - 1];
      PrincipalIsAsOpened(start, before, id);
      hide Run;
      var s, t := Run(start, before).value, Run(start, run).value;
      StepKeepsPrincipal(s, step, id);
      forall principal | OpenedWith(before, id, principal) ensures OpenedWith(run, id, principal) {
        var j :| 0 <= j < |before| && before[j] == OpenBook(id, principal);
        assert run[j] == before[j];
      }
      assert run[|run| - 1] == step;
    }
  }

  lemma StepKeepsPrincipal(s: System, step: Step, id: BookId)
    requires Next(s, step).Some?
    ensures var t := Next(s, step).value;
      && (id in t.memory ==>
           || step == OpenBook(id, t.memory[id].principal)
           || (id in s.memory && t.memory[id].principal == s.memory[id].principal)
           || (id in s.disk && t.memory[id].principal == s.disk[id].principal))
      && (id in t.disk ==>
           || (id in s.memory && t.disk[id].principal == s.memory[id].principal)
           || (id in s.disk && t.disk[id].principal == s.disk[id].principal))
  {
  }

  // ---------- swaps do get booked ----------

  // The look-up found the swap landed, and what it changed.
  predicate LooksLanded(status: StatusAnswer, height: nat, lastValidBlockHeight: nat, meta: MetaAnswer) {
    || (status == Succeeded && meta.Found?)
    || (status == Unseen && height > lastValidBlockHeight && meta.Found? && !meta.failed)
  }

  // It found that the swap did not land, or nothing of it after its expiry.
  predicate LooksDead(status: StatusAnswer, height: nat, lastValidBlockHeight: nat, meta: MetaAnswer) {
    || status == Failed
    || (status == Unseen && height > lastValidBlockHeight && (meta.Found? ==> meta.failed))
  }

  // Whatever happened before, a pending swap that is looked up is booked by the save after it if it looks landed,
  // dropped if it looks dead, and otherwise left as it is for the next tick.
  lemma LookedUpIsBooked(s: System, id: BookId, status: StatusAnswer, height: nat, meta: MetaAnswer, t: System)
    requires Inv(s) && Pending(s.disk, id).Some? && Next(s, Resolve(id, status, height, meta)) == Some(t)
    ensures
      var swap := s.disk[id].pending.value;
      if LooksLanded(status, height, swap.lastValidBlockHeight, meta) then
        Next(t, SaveState).Some? && BooksOnSave(t, id, swap.sig)
      else if LooksDead(status, height, swap.lastValidBlockHeight, meta) then
        Next(t, SaveState).Some? && DropsOnSave(t, id, swap.sig)
      else t == s
  {
    InvHasControl(s);
    InvHasBook(s, id);
    StepKeepsInv(s, Resolve(id, status, height, meta));
    hide Inv, BooksOnSave, DropsOnSave;
    LookedUpGoes(s, id, status, height, meta, t);
    hide ControlSound, BookSound, Next, LooksLanded, LooksDead;
    if t.control.SavingBooked? {
      SavedIsBooked(t, id);
    } else if t.control.SavingDropped? {
      SavedIsDropped(t, id);
    }
  }

  lemma LookedUpGoes(s: System, id: BookId, status: StatusAnswer, height: nat, meta: MetaAnswer, t: System)
    requires ControlSound(s) && Pending(s.disk, id).Some? && BookSound(s, id, s.disk[id])
    requires Next(s, Resolve(id, status, height, meta)) == Some(t)
    ensures
      var last := s.disk[id].pending.value.lastValidBlockHeight;
      if LooksLanded(status, height, last, meta) then t.control == SavingBooked(id) && t.disk == s.disk
      else if LooksDead(status, height, last, meta) then
        t.control.SavingDropped? && t.control.book == id && t.disk == s.disk
      else t == s && t.control == Idle
  {
    hide BookSound;
  }

  // Saving what is in memory leaves the swap booked once and nothing pending,
  ghost predicate BooksOnSave(s: System, id: BookId, sig: Sig) {
    Next(s, SaveState).Some? &&
    var t := Next(s, SaveState).value;
    t.control.Idle? && BookedOnce(t, id, sig) && t.disk[id].pending.None?
  }

  // or neither booked nor pending.
  ghost predicate DropsOnSave(s: System, id: BookId, sig: Sig) {
    Next(s, SaveState).Some? &&
    var t := Next(s, SaveState).value;
    t.control.Idle? && id in t.disk && !BookedOnce(t, id, sig) && t.disk[id].pending.None?
  }

  lemma SavedIsBooked(s: System, id: BookId)
    requires Inv(s) && s.control == SavingBooked(id)
    ensures Pending(s.disk, id).Some? && BooksOnSave(s, id, s.disk[id].pending.value.sig)
  {
    InvHasControl(s);
    var t := Next(s, SaveState).value;
    StepKeepsInv(s, SaveState);
    InvHasBook(t, id);
    var swap := s.disk[id].pending.value;
    BookedInTrades(s.disk[id], swap, s.txs[swap.sig].fate.delta, swap.sig);
    hide Inv, BookSound, InTrades, BookedOnce;
    TradeIsBookedOnce(t, id, swap.sig);
  }

  lemma SavedIsDropped(s: System, id: BookId)
    requires Inv(s) && s.control.SavingDropped? && s.control.book == id
    ensures Pending(s.disk, id).Some? && DropsOnSave(s, id, s.disk[id].pending.value.sig)
  {
    InvHasControl(s);
    InvHasBook(s, id);
    var t := Next(s, SaveState).value;
    var sig := s.disk[id].pending.value.sig;
    SameTrades(s.disk[id], t.disk[id], sig);
    hide Inv, BookSound, InTrades;
    if BookedOnce(t, id, sig) {
      BookedOnceIsTrade(t, id, sig);
    }
  }

  // A swap on its way: refused by the node it is dropped by the next save, and so it is if it failed on-chain;
  // confirmed and found it is booked; and whenever an answer did not come it stays pending.
  lemma SentIsBooked(s: System, step: Step, t: System)
    requires Inv(s) && Next(s, step) == Some(t) && (step.Send? || step.Confirm? || step.FetchMeta?)
    ensures Pending(s.disk, s.control.book).Some?
    ensures
      var id := s.control.book;
      var sig := s.disk[id].pending.value.sig;
      match step
      case Send(Refused, _) => DropsOnSave(t, id, sig)
      case Send(Accepted, _) => t.control == Confirming(id) && t.disk == s.disk
      case Send(SendThrew, _) => t.control == Idle && t.memory == t.disk == s.disk
      case Confirm(ConfirmedError) => DropsOnSave(t, id, sig)
      case Confirm(Confirmed) => t.control == FetchingMeta(id) && t.disk == s.disk
      case Confirm(ConfirmThrew) => t.control == Idle && t.memory == t.disk == s.disk
      case FetchMeta(Found(_, _)) => BooksOnSave(t, id, sig)
      case FetchMeta(Missing) => t.control == Idle && t.memory == t.disk == s.disk
      case _ => true
  {
    InvHasControl(s);
    StepKeepsInv(s, step);
    hide Inv, BooksOnSave, DropsOnSave;
    SentGoes(s, step, t);
    hide ControlSound, Next;
    if t.control.SavingBooked? {
      SavedIsBooked(t, t.control.book);
    } else if t.control.SavingDropped? {
      SavedIsDropped(t, t.control.book);
    }
  }

  lemma SentGoes(s: System, step: Step, t: System)
    requires ControlSound(s) && Next(s, step) == Some(t) && (step.Send? || step.Confirm? || step.FetchMeta?)
    ensures Pending(s.disk, s.control.book).Some? && t.disk == s.disk
    ensures
      var id := s.control.book;
      match step
      case Send(Refused, _) => t.control == SavingDropped(id, NodeRefused)
      case Send(Accepted, _) => t.control == Confirming(id)
      case Send(SendThrew, _) => t.control == Idle && t.memory == t.disk
      case Confirm(ConfirmedError) => t.control == SavingDropped(id, FailedOnChain)
      case Confirm(Confirmed) => t.control == FetchingMeta(id)
      case Confirm(ConfirmThrew) => t.control == Idle && t.memory == t.disk
      case FetchMeta(Found(_, _)) => t.control == SavingBooked(id)
      case FetchMeta(Missing) => t.control == Idle && t.memory == t.disk
      case _ => true
  {
  }
}
