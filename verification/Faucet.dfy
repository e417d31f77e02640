// The devnet faucet: any number of requests, on any number of server instances, interleaving their blob
// operations, dying anywhere, and stepping over midnight.
module Faucet {
  import opened Numbers
  import Sums

  type Wallet = nat
  type Day = nat
  type RequestId = nat

  // One recount of a day's markers. It reads page by page, so it only promises to see the markers that are there
  // throughout: `floor` are those so far. `began` orders recounts by when they started.
  datatype Scan = Scan(began: nat, day: Day, floor: set<Wallet>)

  // Where one request is. A request that stopped, by answering, failing or dying, does nothing more.
  datatype Phase =
    | Checking(wallet: Wallet)                                    // the faucet's balance and today's budget
    | Claiming(wallet: Wallet)
    | Marking(wallet: Wallet)                                     // holds the wallet marker
    | Marked(wallet: Wallet, day: Day)                            // and has written its day marker
    | Counting(wallet: Wallet, day: Day, scan: Scan)              // recounting
    | Sending(wallet: Wallet, day: Day, scan: Scan, sameDay: bool)
    | Paid(wallet: Wallet, day: Day, scan: Scan, sameDay: bool)   // the transfer may have reached the wallet
    | Releasing(wallet: Wallet, day: Day)                         // backing out: nothing deleted yet
    | ReleasingWallet(wallet: Wallet)                             // the day marker is deleted
    | ReleasingDay(wallet: Wallet, day: Day)                      // the wallet marker was deleted first
    | Stopped

  // `markers` are the day markers, `wallets` the wallet markers; `scans` counts recounts begun.
  datatype System = System(
    maxDrops: nat,
    today: Day,
    wallets: set<Wallet>,
    markers: set<(Day, Wallet)>,
    requests: map<RequestId, Phase>,
    scans: nat)

  // How a put that must not overwrite can end: created; refused since the blob exists; or an unclear failure,
  // which a look at the blob turns into a refusal if it is there and an error if it is not.
  datatype ClaimAnswer = Created | Exists | Unclear(wrote: bool)

  // How a send can end. Only a transfer the node refused, or one that failed on chain, certainly moved nothing.
  datatype SendAnswer = NotSent | FailedOnChain | Delivered | Unknown(moved: bool)

  datatype Step =
    | Arrive(request: RequestId, wallet: Wallet)
    | Check(request: RequestId, funded: bool, count: nat)  // `count` is whatever the listing returned
    | Claim(request: RequestId, answer: ClaimAnswer)
    | MarkDay(request: RequestId)
    | MarkDayFails(request: RequestId, wrote: bool)
    | BeginCount(request: RequestId)
    | EndCount(request: RequestId, count: nat)
    | SendFunds(request: RequestId, sent: SendAnswer)
    | DeleteDay(request: RequestId)
    | DeleteWallet(request: RequestId)
    | DeleteWalletFirst(request: RequestId)
    | Die(request: RequestId)                              // a timeout, a failed list or delete, a restart
    | Midnight

  function With(s: System, r: RequestId, phase: Phase): System {
    s.(requests := s.requests[r := phase])
  }

  // Deleting a day marker takes its wallet out of the floor of every recount of that day under way.
  function Unfloored(phase: Phase, day: Day, wallet: Wallet): Phase {
    if phase.Counting? && phase.scan.day == day
    then Counting(phase.wallet, phase.day, Scan(phase.scan.began, day, phase.scan.floor - {wallet}))
    else phase
  }

  function WithoutMarker(s: System, day: Day, wallet: Wallet): System {
    s.(markers := s.markers - {(day, wallet)},
       requests := map r | r in s.requests :: Unfloored(s.requests[r], day, wallet))
  }

  function ClaimStep(s: System, r: RequestId, wallet: Wallet, answer: ClaimAnswer): Option<System> {
    match answer
    case Created =>
      if wallet in s.wallets then None else Some(With(s, r, Marking(wallet)).(wallets := s.wallets + {wallet}))
    case Exists => if wallet in s.wallets then Some(With(s, r, Stopped)) else None
    case Unclear(wrote) => Some(With(s, r, Stopped).(wallets := if wrote then s.wallets + {wallet} else s.wallets))
  }

  function BeginCountStep(s: System, r: RequestId, wallet: Wallet, day: Day): System {
    var floor := set m | m in s.markers && m.0 == s.today :: m.1;
    With(s, r, Counting(wallet, day, Scan(s.scans, s.today, floor))).(scans := s.scans + 1)
  }

  // Each page is listed under the day it is then, so a recount is of one day only if no midnight came between; and
  // only then is it sure to have seen every marker of its floor.
  function EndCountStep(s: System, r: RequestId, wallet: Wallet, day: Day, scan: Scan, count: nat): Option<System> {
    if scan.day == s.today && count < |scan.floor| then None
    else if count > s.maxDrops then Some(With(s, r, Releasing(wallet, day)))
    else Some(With(s, r, Sending(wallet, day, scan, day == scan.day == s.today)))
  }

  function SendStep(s: System, r: RequestId, wallet: Wallet, day: Day, scan: Scan, sameDay: bool, sent: SendAnswer)
    : System
  {
    match sent
    case NotSent => With(s, r, Releasing(wallet, day))
    case FailedOnChain => With(s, r, Releasing(wallet, day))
    case Delivered => With(s, r, Paid(wallet, day, scan, sameDay))
    case Unknown(moved) => With(s, r, if moved then Paid(wallet, day, scan, sameDay) else Stopped)
  }

  // One step of a request that has arrived.
  function RequestStep(s: System, r: RequestId, phase: Phase, step: Step): Option<System> {
    match (step, phase)
    case (Check(_, funded, count), Checking(wallet)) =>
      Some(With(s, r, if funded && count < s.maxDrops then Claiming(wallet) else Stopped))
    case (Claim(_, answer), Claiming(wallet)) => ClaimStep(s, r, wallet, answer)
    case (MarkDay(_), Marking(wallet)) =>
      Some(With(s, r, Marked(wallet, s.today)).(markers := s.markers + {(s.today, wallet)}))
    case (MarkDayFails(_, wrote), Marking(wallet)) =>
      Some(With(s, r, Stopped).(markers := if wrote then s.markers + {(s.today, wallet)} else s.markers))
    case (BeginCount(_), Marked(wallet, day)) => Some(BeginCountStep(s, r, wallet, day))
    case (EndCount(_, count), Counting(wallet, day, scan)) => EndCountStep(s, r, wallet, day, scan, count)
    case (SendFunds(_, sent), Sending(wallet, day, scan, sameDay)) =>
      Some(SendStep(s, r, wallet, day, scan, sameDay, sent))
    case (DeleteDay(_), Releasing(wallet, day)) => Some(With(WithoutMarker(s, day, wallet), r, ReleasingWallet(wallet)))
    case (DeleteDay(_), ReleasingDay(wallet, day)) => Some(With(WithoutMarker(s, day, wallet), r, Stopped))
    case (DeleteWallet(_), ReleasingWallet(wallet)) => Some(With(s, r, Stopped).(wallets := s.wallets - {wallet}))
    case (DeleteWalletFirst(_), Releasing(wallet, day)) =>
      Some(With(s, r, ReleasingDay(wallet, day)).(wallets := s.wallets - {wallet}))
    case (Die(_), Paid(_, _, _, _)) => None
    case (Die(_), _) => Some(With(s, r, Stopped))
    case _ => None
  }

  function Next(s: System, step: Step): Option<System> {
    match step
    case Midnight => Some(s.(today := s.today + 1))
    case Arrive(r, wallet) => if r in s.requests then None else Some(With(s, r, Checking(wallet)))
    case _ =>
      if step.request in s.requests then RequestStep(s, step.request, s.requests[step.request], step) else None
  }

  ghost predicate Start(s: System) {
    s.requests == map[]
  }

  function Run(s: System, run: seq<Step>): Option<System> {
    if run == [] then Some(s)
    else
      match Run(s, run[..|run| - 1])
      case None => None
      case Some(t) => Next(t, run[|run| - 1])
  }

  // ---------- once per wallet ----------

  // The phases in which a request has a claim on its wallet's marker, or has paid under it.
  predicate Holds(phase: Phase) {
    phase.Marking? || phase.Marked? || phase.Counting? || phase.Sending? || phase.Paid? || phase.Releasing?
    || phase.ReleasingWallet?
  }

  // Every holder's marker is there, and no two requests hold one wallet.
  ghost predicate OneHolder(s: System) {
    && (forall r :: r in s.requests && Holds(s.requests[r]) ==> s.requests[r].wallet in s.wallets)
    && (forall r, q :: r in s.requests && q in s.requests && r != q && Holds(s.requests[r]) && Holds(s.requests[q])
          ==> s.requests[r].wallet != s.requests[q].wallet)
  }

  // Another request's phase is unchanged, but perhaps for the floor of its recount.
  predicate Untouched(before: Phase, after: Phase) {
    && Holds(after) == Holds(before)
    && (Holds(before) ==> after.wallet == before.wallet)
  }

  // A step that moves only one request keeps the claim discipline if that request claims nothing it does not hold,
  // short of creating the marker, and unmarks nothing but its own.
  lemma MoveKeepsOneHolder(s: System, t: System, r: RequestId)
    requires OneHolder(s) && r in t.requests && t.requests.Keys == s.requests.Keys + {r}
    requires forall q :: q in s.requests && q != r ==> Untouched(s.requests[q], t.requests[q])
    requires Holds(t.requests[r]) ==>
      && t.requests[r].wallet in t.wallets
      && ((r in s.requests && Holds(s.requests[r]) && s.requests[r].wallet == t.requests[r].wallet)
          || t.requests[r].wallet !in s.wallets)
    requires forall w :: w in s.wallets && w !in t.wallets ==>
      r in s.requests && Holds(s.requests[r]) && s.requests[r].wallet == w
    ensures OneHolder(t)
  {
  }

  lemma RequestStepKeepsOneHolder(s: System, r: RequestId, step: Step, t: System)
    requires OneHolder(s) && r in s.requests && RequestStep(s, r, s.requests[r], step) == Some(t)
    ensures OneHolder(t)
  {
    MoveKeepsOneHolder(s, t, r);
  }

  lemma StepKeepsOneHolder(s: System, step: Step)
    requires OneHolder(s) && Next(s, step).Some?
    ensures OneHolder(Next(s, step).value)
  {
    hide RequestStep;
    match step
    case Midnight =>
    case Arrive(r, wallet) => MoveKeepsOneHolder(s, Next(s, step).value, r);
    case _ => RequestStepKeepsOneHolder(s, step.request, step, Next(s, step).value);
  }

  lemma {:induction false} RunKeepsOneHolder(s: System, run: seq<Step>)
    requires OneHolder(s) && Run(s, run).Some?
    ensures OneHolder(Run(s, run).value)
  {
    if run != [] {
      RunKeepsOneHolder(s, run[..|run| - 1]);
      StepKeepsOneHolder(Run(s, run[..|run| - 1]).value, run[|run| - 1]);
    }
  }

  // However requests interleave, fail or die, no wallet is paid twice.
  lemma PaidOncePerWallet(start: System, run: seq<Step>, r: RequestId, q: RequestId)
    requires Start(start) && Run(start, run).Some?
    requires var s := Run(start, run).value;
      r in s.requests && q in s.requests && s.requests[r].Paid? && s.requests[q].Paid?
    ensures var s := Run(start, run).value; s.requests[r].wallet == s.requests[q].wallet ==> r == q
  {
    RunKeepsOneHolder(start, run);
  }

  // ---------- the daily cap ----------

  // Past the start of its recount and not backing out.
  predicate Counted(phase: Phase) {
    phase.Counting? || phase.Sending? || phase.Paid?
  }

  predicate HasMarker(phase: Phase) {
    phase.Marked? || phase.Releasing? || Counted(phase)
  }

  // A recount whose floor still speaks for its day: under way, or finished without a midnight in between.
  predicate Watches(phase: Phase) {
    phase.Counting? || ((phase.Sending? || phase.Paid?) && phase.sameDay)
  }

  // Whoever's recount of a day began later has seen the marker of everyone whose recount began earlier.
  ghost predicate Sees(watcher: Phase, other: Phase)
    requires Watches(watcher) && Counted(other)
  {
    other.day == watcher.scan.day && other.scan.began <= watcher.scan.began ==> other.wallet in watcher.scan.floor
  }

  ghost predicate MarkerSound(s: System, phase: Phase) {
    && !phase.ReleasingDay?
    && (HasMarker(phase) ==> (phase.day, phase.wallet) in s.markers)
    && (Counted(phase) ==> phase.scan.began < s.scans)
    && ((phase.Sending? || phase.Paid?) && phase.sameDay ==>
          phase.day == phase.scan.day && |phase.scan.floor| <= s.maxDrops)
  }

  ghost predicate CapInv(s: System) {
    && OneHolder(s)
    && (forall r :: r in s.requests ==> MarkerSound(s, s.requests[r]))
    && AllSee(s.requests)
  }

  ghost predicate AllSee(requests: map<RequestId, Phase>) {
    forall r, q :: r in requests && q in requests && Watches(requests[r]) && Counted(requests[q])
      ==> Sees(requests[r], requests[q])
  }

  // What a request's step does to another: at most its marker leaves the other's floor, and no other marker goes.
  lemma StepSparesOthers(s: System, r: RequestId, step: Step, t: System, q: RequestId)
    requires OneHolder(s) && r in s.requests && q in s.requests && q != r
    requires RequestStep(s, r, s.requests[r], step) == Some(t) && !s.requests[r].ReleasingDay?
    ensures q in t.requests && s.scans <= t.scans && t.maxDrops == s.maxDrops
    ensures t.requests[q] == s.requests[q] ||
      (s.requests[q].Counting? && s.requests[r].Releasing?
       && t.requests[q] == Unfloored(s.requests[q], s.requests[r].day, s.requests[r].wallet))
    ensures HasMarker(s.requests[q]) && (s.requests[q].day, s.requests[q].wallet) in s.markers ==>
      (s.requests[q].day, s.requests[q].wallet) in t.markers
  {
  }

  lemma OwnMarkerSound(s: System, r: RequestId, step: Step, t: System)
    requires r in s.requests && MarkerSound(s, s.requests[r]) && !step.DeleteWalletFirst?
    requires RequestStep(s, r, s.requests[r], step) == Some(t)
    ensures r in t.requests && MarkerSound(t, t.requests[r])
  {
  }

  lemma RequestStepKeepsMarkers(s: System, r: RequestId, step: Step, t: System)
    requires CapInv(s) && r in s.requests && RequestStep(s, r, s.requests[r], step) == Some(t)
    requires !step.DeleteWalletFirst? && t.requests.Keys == s.requests.Keys
    ensures forall q :: q in t.requests ==> MarkerSound(t, t.requests[q])
  {
    assert MarkerSound(s, s.requests[r]);
    forall q | q in t.requests ensures MarkerSound(t, t.requests[q]) {
      assert MarkerSound(s, s.requests[q]);
      if q == r {
        OwnMarkerSound(s, r, step, t);
      } else {
        StepSparesOthers(s, r, step, t, q);
        hide RequestStep;
      }
    }
  }

  lemma StepKeepsRequests(s: System, r: RequestId, step: Step, t: System)
    requires r in s.requests && RequestStep(s, r, s.requests[r], step) == Some(t)
    ensures t.requests.Keys == s.requests.Keys
  {
  }

  lemma RequestStepKeepsSight(s: System, r: RequestId, step: Step, t: System)
    requires CapInv(s) && r in s.requests && RequestStep(s, r, s.requests[r], step) == Some(t)
    requires !step.DeleteWalletFirst?
    ensures AllSee(t.requests)
  {
    forall p, q | p in t.requests && q in t.requests && Watches(t.requests[p]) && Counted(t.requests[q])
      ensures Sees(t.requests[p], t.requests[q])
    {
      assert MarkerSound(s, s.requests[p]) && MarkerSound(s, s.requests[q]);
      assert Watches(s.requests[p]) && Counted(s.requests[q]) ==> Sees(s.requests[p], s.requests[q]);
    }
  }

  lemma StepKeepsCapInv(s: System, step: Step)
    requires CapInv(s) && Next(s, step).Some? && !step.DeleteWalletFirst?
    ensures CapInv(Next(s, step).value)
  {
    var t := Next(s, step).value;
    StepKeepsOneHolder(s, step);
    hide RequestStep, OneHolder;
    if !step.Midnight? && !step.Arrive? {
      StepKeepsRequests(s, step.request, step, t);
      RequestStepKeepsMarkers(s, step.request, step, t);
      RequestStepKeepsSight(s, step.request, step, t);
    }
  }

  lemma {:induction false} RunKeepsCapInv(start: System, run: seq<Step>)
    requires Start(start) && Run(start, run).Some?
    requires forall i :: 0 <= i < |run| ==> !run[i].DeleteWalletFirst?
    ensures CapInv(Run(start, run).value)
  {
    if run != [] {
      RunKeepsCapInv(start, run[..|run| - 1]);
      StepKeepsCapInv(Run(start, run[..|run| - 1]).value, run[|run| - 1]);
    }
  }

  // The requests that are about to pay or have paid on a day, with no midnight between marking and recounting.
  function PayingOn(s: System, day: Day): set<RequestId> {
    set r | r in s.requests && (s.requests[r].Sending? || s.requests[r].Paid?) && s.requests[r].sameDay
            && s.requests[r].day == day
  }

  lemma {:induction false} LatestRecount(s: System, paying: set<RequestId>) returns (m: RequestId)
    requires paying != {}
    requires forall r :: r in paying ==> r in s.requests && Counted(s.requests[r])
    ensures m in paying && Counted(s.requests[m])
    ensures forall r :: r in paying ==>
      r in s.requests && Counted(s.requests[r]) && s.requests[r].scan.began <= s.requests[m].scan.began
    decreases |paying|
  {
    m :| m in paying;
    var rest := paying - {m};
    if rest == {} {
      assert paying == {m};
    } else {
      var n := LatestRecount(s, rest);
      var first := m;
      if s.requests[n].scan.began >= s.requests[m].scan.began {
        m := n;
      }
      forall r | r in paying ensures Counted(s.requests[r]) && s.requests[r].scan.began <= s.requests[m].scan.began {
        assert r == first || r in rest;
      }
    }
  }

  // Distinct requests holding distinct wallets inside a set are no more than the set.
  lemma {:induction false} NoMoreThanWallets(s: System, paying: set<RequestId>, wallets: set<Wallet>)
    requires forall r :: r in paying ==> r in s.requests && Holds(s.requests[r]) && s.requests[r].wallet in wallets
    requires forall r, q :: r in paying && q in paying && r != q ==>
      Holds(s.requests[r]) && Holds(s.requests[q]) && s.requests[r].wallet != s.requests[q].wallet
    ensures |paying| <= |wallets|
    decreases |paying|
  {
    if paying != {} {
      var r :| r in paying;
      NoMoreThanWallets(s, paying - {r}, wallets - {s.requests[r].wallet});
    }
  }

  // However requests interleave, fail or die, the payouts whose marker and recount fall on one day never exceed the
  // daily number of drops, as long as a release never deletes the wallet's marker before the day's.
  lemma DailyCap(start: System, run: seq<Step>, day: Day)
    requires Start(start) && Run(start, run).Some?
    requires forall i :: 0 <= i < |run| ==> !run[i].DeleteWalletFirst?
    ensures |PayingOn(Run(start, run).value, day)| <= start.maxDrops
  {
    RunKeepsCapInv(start, run);
    RunKeepsMax(start, run);
    var s := Run(start, run).value;
    var paying := PayingOn(s, day);
    if paying != {} {
      var m := LatestRecount(s, paying);
      assert MarkerSound(s, s.requests[m]);
      forall r | r in paying ensures s.requests[r].wallet in s.requests[m].scan.floor {
        assert Sees(s.requests[m], s.requests[r]);
      }
      NoMoreThanWallets(s, paying, s.requests[m].scan.floor);
    }
  }

  // The paid requests whose marker is of a day, and those of them whose recount fell on another.
  function PaidOn(s: System, day: Day): set<RequestId> {
    set r | r in s.requests && s.requests[r].Paid? && s.requests[r].day == day
  }

  function Straddling(s: System, day: Day): set<RequestId> {
    set r | r in s.requests && s.requests[r].Paid? && s.requests[r].day == day && !s.requests[r].sameDay
  }

  // So a day's payouts are at most the drops of a day and those that straddled a midnight.
  lemma OverCapIsStraddling(start: System, run: seq<Step>, day: Day)
    requires Start(start) && Run(start, run).Some?
    requires forall i :: 0 <= i < |run| ==> !run[i].DeleteWalletFirst?
    ensures var s := Run(start, run).value; |PaidOn(s, day)| <= start.maxDrops + |Straddling(s, day)|
  {
    var s := Run(start, run).value;
    DailyCap(start, run, day);
    var within := PaidOn(s, day) - Straddling(s, day);
    Sums.SubsetIsNoLarger(within, PayingOn(s, day));
    assert PaidOn(s, day) == within + Straddling(s, day);
  }

  // All markers listed, page after page.
  function Listing(pages: seq<seq<Wallet>>): seq<Wallet> {
    if pages == [] then [] else Listing(pages[..|pages| - 1]) + pages[|pages| - 1]
  }

  // The recount, page by page: exactly as many as are listed, which is at least every marker that is on some page.
  method CountToday(pages: seq<seq<Wallet>>, ghost floor: set<Wallet>) returns (n: nat)
    requires forall w :: w in floor ==> exists i :: 0 <= i < |pages| && w in pages[i]
    ensures n == |Listing(pages)| && n >= |floor|
  {
    n := 0;
    var cursor := 0;
    while cursor < |pages|
      invariant 0 <= cursor <= |pages| && n == |Listing(pages[..cursor])|
    {
      assert pages[..cursor + 1][..cursor] == pages[..cursor];
      n := n + |pages[cursor]|;
      cursor := cursor + 1;
    }
    assert pages[..cursor] == pages;
    forall w | w in floor ensures w in OnPage(Listing(pages)) {
      var i :| 0 <= i < |pages| && w in pages[i];
      ListingHolds(pages, i, w);
    }
    PageIsNoLarger(Listing(pages));
    Sums.SubsetIsNoLarger(floor, OnPage(Listing(pages)));
  }

  lemma {:induction false} ListingHolds(pages: seq<seq<Wallet>>, i: nat, w: Wallet)
    requires i < |pages| && w in pages[i]
    ensures w in Listing(pages)
  {
    if i < |pages| - 1 {
      ListingHolds(pages[..|pages| - 1], i, w);
    }
  }

  function OnPage(page: seq<Wallet>): set<Wallet> {
    set w | w in page
  }

  lemma {:induction false} PageIsNoLarger(page: seq<Wallet>)
    ensures |OnPage(page)| <= |page|
  {
    if page != [] {
      PageIsNoLarger(page[1..]);
      assert OnPage(page) == OnPage(page[1..]) + {page[0]};
    }
  }

  lemma {:induction false} RunKeepsMax(s: System, run: seq<Step>)
    requires Run(s, run).Some?
    ensures Run(s, run).value.maxDrops == s.maxDrops
  {
    if run != [] {
      RunKeepsMax(s, run[..|run| - 1]);
    }
  }

  // ---------- how a request gets on ----------

  // A request gets into each phase in one way only. It claims once the faucet is funded and fewer drops than the day
  // has are listed; it marks the day once its wallet's marker is its own; it sends only after a recount within the day's
  // drops, and has paid only if the send went out; and it backs out after a recount over them, or a send that certainly
  // moved nothing.
  lemma EntersBy(s: System, step: Step, r: RequestId)
    requires Next(s, step).Some? && !step.Midnight? && step.request == r && r in s.requests
    ensures
      var t := Next(s, step).value;
      && r in t.requests
      && var was, now := s.requests[r], t.requests[r];
         && (now.Claiming? ==>
              step.Check? && step.funded && step.count < s.maxDrops && was == Checking(now.wallet))
         && (was.Checking? && step.Check? && step.funded && step.count < s.maxDrops ==> now.Claiming?)
         && (now.Marking? ==>
              && step == Claim(r, Created) && was == Claiming(now.wallet)
              && now.wallet !in s.wallets && t.wallets == s.wallets + {now.wallet})
         && (now.Marked? ==>
              && step == MarkDay(r) && was == Marking(now.wallet) && now.day == s.today
              && t.markers == s.markers + {(s.today, now.wallet)})
         && (now.Counting? ==> step == BeginCount(r) && was == Marked(now.wallet, now.day))
         && (now.Sending? ==>
              && step.EndCount? && step.count <= s.maxDrops && was.Counting?
              && was.wallet == now.wallet && was.day == now.day && (now.sameDay ==> now.day == s.today))
         && (now.Paid? ==>
              && step.SendFunds? && (step.sent == Delivered || step.sent == Unknown(true)) && was.Sending?
              && was == Sending(now.wallet, now.day, now.scan, now.sameDay))
         && (now.Releasing? ==>
              && (was.Counting? || was.Sending?) && was.wallet == now.wallet && was.day == now.day
              && (was.Counting? ==> step.EndCount? && step.count > s.maxDrops)
              && (was.Sending? ==> step.SendFunds? && (step.sent == NotSent || step.sent == FailedOnChain)))
  {
  }

  // And what is asked of it always takes it there: nothing is refused but for those reasons.
  lemma Goes(s: System, step: Step, r: RequestId)
    requires Next(s, step).Some? && !step.Midnight? && step.request == r && r in s.requests
    ensures
      var was, now := s.requests[r], Next(s, step).value.requests[r];
      && (step.Check? && !(step.funded && step.count < s.maxDrops) ==> now.Stopped?)
      && (step == Claim(r, Created) ==> now == Marking(was.wallet))
      && (step == Claim(r, Exists) ==> now.Stopped? && was.wallet in s.wallets)
      && (step == MarkDay(r) ==> now == Marked(was.wallet, s.today))
      && (step == BeginCount(r) ==> now.Counting? && now.wallet == was.wallet && now.day == was.day)
      && (step.EndCount? && step.count <= s.maxDrops ==> now.Sending? && now.wallet == was.wallet)
      && (step.EndCount? && step.count > s.maxDrops ==> now == Releasing(was.wallet, was.day))
      && (step == SendFunds(r, Delivered) || step == SendFunds(r, Unknown(true)) ==> now.Paid?)
      && (step == SendFunds(r, NotSent) || step == SendFunds(r, FailedOnChain) ==>
            now == Releasing(was.wallet, was.day))
      && (step == SendFunds(r, Unknown(false)) ==> now.Stopped?)
  {
  }

  // Backing out undoes both markers, in either order, so the wallet can claim again.
  lemma ReleaseUndoes(s: System, r: RequestId, wallet: Wallet, day: Day, walletFirst: bool)
    returns (t: System, u: System)
    requires r in s.requests && s.requests[r] == Releasing(wallet, day)
    ensures Next(s, if walletFirst then DeleteWalletFirst(r) else DeleteDay(r)) == Some(t)
    ensures Next(t, if walletFirst then DeleteDay(r) else DeleteWallet(r)) == Some(u)
    ensures u.wallets == s.wallets - {wallet} && u.markers == s.markers - {(day, wallet)}
    ensures u.requests.Keys == s.requests.Keys && u.requests[r] == Stopped
    ensures if walletFirst then t.wallets == u.wallets && t.markers == s.markers
            else t.wallets == s.wallets && t.markers == u.markers
  {
    t := Next(s, if walletFirst then DeleteWalletFirst(r) else DeleteDay(r)).value;
    u := Next(t, if walletFirst then DeleteDay(r) else DeleteWallet(r)).value;
  }

  // ---------- where the cap does not hold ----------

  // How many releases delete the wallet's marker first.
  function WalletFirsts(run: seq<Step>): nat {
    if run == [] then 0
    else WalletFirsts(run[..|run| - 1]) + if run[|run| - 1].DeleteWalletFirst? then 1 else 0
  }

  // A run that reaches a state, with so many wallet-first releases.
  ghost predicate Leads(start: System, run: seq<Step>, s: System, walletFirsts: nat) {
    Run(start, run) == Some(s) && WalletFirsts(run) == walletFirsts
  }

  lemma Extend(start: System, run: seq<Step>, s: System, n: nat, step: Step) returns (longer: seq<Step>, t: System)
    requires Leads(start, run, s, n) && Next(s, step).Some?
    ensures Next(s, step) == Some(t)
    ensures Leads(start, longer, t, n + if step.DeleteWalletFirst? then 1 else 0)
  {
    longer, t := run + [step], Next(s, step).value;
    assert longer[..|longer| - 1] == run;
  }

  // Requests 0 to n - 1, each for a wallet of its own, find no marker today and pass their checks.
  function Admitted(n: nat, wallet: RequestId -> Wallet): map<RequestId, Phase> {
    map r | 0 <= r < n :: Claiming(wallet(r))
  }

  lemma {:induction false} AdmitAll(start: System, n: nat, wallet: RequestId -> Wallet)
    returns (run: seq<Step>, s: System)
    requires start.requests == map[] && start.markers == {} && start.maxDrops > 0
    ensures Leads(start, run, s, 0) && s == start.(requests := Admitted(n, wallet))
  {
    hide Next;
    if n == 0 {
      run, s := [], start;
      assert Admitted(0, wallet) == map[];
    } else {
      run, s := AdmitAll(start, n - 1, wallet);
      run, s := AdmitOne(start, run, s, n - 1, wallet(n - 1));
      assert Admitted(n, wallet) == Admitted(n - 1, wallet)[n - 1 := Claiming(wallet(n - 1))];
    }
  }

  lemma AdmitOne(start: System, run: seq<Step>, s: System, r: RequestId, wallet: Wallet)
    returns (longer: seq<Step>, t: System)
    requires Leads(start, run, s, 0) && r !in s.requests && s.maxDrops > 0
    ensures Leads(start, longer, t, 0) && t == s.(requests := s.requests[r := Claiming(wallet)])
  {
    hide Leads;
    longer, t := Extend(start, run, s, 0, Arrive(r, wallet));
    longer, t := Extend(start, longer, t, 0, Check(r, true, 0));
  }

  // An admitted request up to its day marker.
  lemma MarkRequest(start: System, run: seq<Step>, s: System, n: nat, r: RequestId, wallet: Wallet)
    returns (longer: seq<Step>, t: System)
    requires Leads(start, run, s, n)
    requires r in s.requests && s.requests[r] == Claiming(wallet) && wallet !in s.wallets
    ensures Leads(start, longer, t, n)
    ensures t == s.(requests := s.requests[r := Marked(wallet, s.today)], wallets := s.wallets + {wallet},
                    markers := s.markers + {(s.today, wallet)})
  {
    hide Leads;
    longer, t := Extend(start, run, s, n, Claim(r, Created));
    longer, t := Extend(start, longer, t, n, MarkDay(r));
  }

  function TodaysMarkers(s: System): set<Wallet> {
    set m | m in s.markers && m.0 == s.today :: m.1
  }

  // A marked request through an exact recount.
  lemma RecountRequest(start: System, run: seq<Step>, s: System, n: nat, r: RequestId)
    returns (longer: seq<Step>, t: System)
    requires Leads(start, run, s, n)
    requires r in s.requests && s.requests[r].Marked? && |TodaysMarkers(s)| <= s.maxDrops
    ensures Leads(start, longer, t, n)
    ensures var wallet, day := s.requests[r].wallet, s.requests[r].day;
      t == s.(requests := s.requests[r :=
                Sending(wallet, day, Scan(s.scans, s.today, TodaysMarkers(s)), day == s.today)],
              scans := s.scans + 1)
  {
    hide Leads;
    longer, t := Extend(start, run, s, n, BeginCount(r));
    longer, t := Extend(start, longer, t, n, EndCount(r, |TodaysMarkers(s)|));
  }

  // And to its send.
  lemma SendRequest(start: System, run: seq<Step>, s: System, n: nat, r: RequestId, sent: SendAnswer)
    returns (longer: seq<Step>, t: System)
    requires Leads(start, run, s, n)
    requires r in s.requests && s.requests[r].Marked? && |TodaysMarkers(s)| <= s.maxDrops
    requires sent.Delivered? || sent.NotSent?
    ensures Leads(start, longer, t, n)
    ensures var wallet, day := s.requests[r].wallet, s.requests[r].day;
      t == s.(requests := s.requests[r :=
                if sent.Delivered? then Paid(wallet, day, Scan(s.scans, s.today, TodaysMarkers(s)), day == s.today)
                else Releasing(wallet, day)],
              scans := s.scans + 1)
  {
    hide Leads;
    longer, t := RecountRequest(start, run, s, n, r);
    longer, t := Extend(start, longer, t, n, SendFunds(r, sent));
  }

  function Below(n: nat): set<nat> {
    if n == 0 then {} else Below(n - 1) + {n - 1}
  }

  lemma {:induction false} BelowHolds(n: nat)
    ensures |Below(n)| == n && forall i: nat :: i in Below(n) <==> i < n
  {
    if n > 0 {
      BelowHolds(n - 1);
    }
  }

  lemma BelowNext(n: nat)
    ensures Below(n + 1) == Below(n) + {n} && n !in Below(n) && |Below(n)| == n
  {
    BelowHolds(n);
    BelowHolds(n + 1);
  }

  lemma InBelow(i: nat, n: nat)
    requires i < n
    ensures i in Below(n)
  {
    BelowHolds(n);
  }

  // The day's markers of these wallets.
  function MarkersOf(day: Day, wallets: set<Wallet>): set<(Day, Wallet)> {
    set w | w in wallets :: (day, w)
  }

  lemma TodaysMarkersOf(s: System, wallets: set<Wallet>)
    requires s.markers == MarkersOf(s.today, wallets)
    ensures TodaysMarkers(s) == wallets
  {
    forall w ensures w in TodaysMarkers(s) <==> w in wallets {
      assert w in wallets ==> (s.today, w) in s.markers;
    }
  }

  lemma OneMoreMarker(day: Day, wallets: set<Wallet>, w: Wallet)
    ensures MarkersOf(day, wallets) + {(day, w)} == MarkersOf(day, wallets + {w})
  {
  }

  // An admitted request from its claim through an exact recount to its send.
  lemma ServeRequest(start: System, run: seq<Step>, s: System, n: nat, r: RequestId, wallet: Wallet,
                     wallets: set<Wallet>, sent: SendAnswer)
    returns (longer: seq<Step>, t: System)
    requires Leads(start, run, s, n) && (sent.Delivered? || sent.NotSent?)
    requires r in s.requests && s.requests[r] == Claiming(wallet) && wallet !in s.wallets
    requires s.markers == MarkersOf(s.today, wallets) && |wallets| < s.maxDrops
    ensures Leads(start, longer, t, n)
    ensures t == s.(requests := s.requests[r :=
                      if sent.Delivered? then Paid(wallet, s.today, Scan(s.scans, s.today, wallets + {wallet}), true)
                      else Releasing(wallet, s.today)],
                    wallets := s.wallets + {wallet}, markers := MarkersOf(s.today, wallets + {wallet}),
                    scans := s.scans + 1)
  {
    hide Leads, MarkersOf, Next;
    longer, t := MarkRequest(start, run, s, n, r, wallet);
    OneMoreMarker(s.today, wallets, wallet);
    TodaysMarkersOf(t, wallets + {wallet});
    assert |wallets + {wallet}| <= |wallets| + 1;
    longer, t := SendRequest(start, longer, t, n, r, sent);
  }

  // The first n requests, of wallets 0 to n - 1, are paid today; the others still wait.
  ghost predicate Paying(start: System, s: System, n: nat, all: nat, wallet: RequestId -> Wallet) {
    && s.maxDrops == start.maxDrops && s.today == start.today
    && s.requests.Keys == Below(all)
    && (forall r :: r in s.requests ==>
          if r < n then s.requests[r].Paid? && s.requests[r].day == start.today && s.requests[r].sameDay
          else s.requests[r] == Claiming(wallet(r)))
    && s.wallets == Below(n) && s.markers == MarkersOf(start.today, Below(n))
  }

  lemma PayNext(start: System, run: seq<Step>, s: System, n: nat, all: nat, wallet: RequestId -> Wallet)
    returns (longer: seq<Step>, t: System)
    requires Leads(start, run, s, 0) && Paying(start, s, n, all, wallet)
    requires n < all && n < start.maxDrops && wallet(n) == n
    ensures Leads(start, longer, t, 0) && Paying(start, t, n + 1, all, wallet)
  {
    BelowNext(n);
    InBelow(n, all);
    hide Leads, Below, MarkersOf, Next;
    longer, t := ServeRequest(start, run, s, 0, n, n, Below(n), Delivered);
    StillPaying(start, s, t, n, all, wallet, Scan(s.scans, s.today, Below(n) + {n}));
  }

  lemma StillPaying(start: System, s: System, t: System, n: nat, all: nat, wallet: RequestId -> Wallet, scan: Scan)
    requires Paying(start, s, n, all, wallet) && n in s.requests
    requires t == s.(requests := s.requests[n := Paid(n, s.today, scan, true)], wallets := s.wallets + {n},
                     markers := MarkersOf(s.today, Below(n) + {n}), scans := s.scans + 1)
    requires Below(n + 1) == Below(n) + {n}
    ensures Paying(start, t, n + 1, all, wallet)
  {
    hide Below, MarkersOf;
    assert t.requests.Keys == s.requests.Keys;
    forall r | r in t.requests && r != n ensures t.requests[r] == s.requests[r] {
    }
  }

  // Of any number of admitted requests, the first n with wallets of their own are all paid, if a day has n drops.
  lemma {:induction false} PayAll(start: System, n: nat, all: nat, wallet: RequestId -> Wallet)
    returns (run: seq<Step>, s: System)
    requires start.requests == map[] && start.markers == {} && start.wallets == {}
    requires n <= all && n <= start.maxDrops && 0 < start.maxDrops
    requires forall r: nat :: r < n ==> wallet(r) == r
    ensures Leads(start, run, s, 0) && Paying(start, s, n, all, wallet)
  {
    hide Leads;
    if n == 0 {
      run, s := AdmitAll(start, all, wallet);
      BelowHolds(all);
    } else {
      run, s := PayAll(start, n - 1, all, wallet);
      run, s := PayNext(start, run, s, n - 1, all, wallet);
    }
  }

  lemma SomePaid(start: System, s: System, n: nat, all: nat, wallet: RequestId -> Wallet)
    requires Paying(start, s, n, all, wallet) && n <= all
    ensures PaidOn(s, start.today) == Below(n) && Straddling(s, start.today) == {}
  {
    BelowHolds(n);
    BelowHolds(all);
  }

  // However many drops a day has and however many straddlers there are to be: as many requests as drops are paid, the
  // others mark the day, midnight passes, and their recounts, of the new day, let them all be paid too. No release
  // deletes a wallet's marker first, so the bound above is reached for every number of straddlers.
  lemma MidnightSlipsThrough(start: System, straddlers: nat) returns (run: seq<Step>, s: System)
    requires start.requests == map[] && start.markers == {} && start.wallets == {} && start.maxDrops > 0
    ensures Leads(start, run, s, 0)
    ensures |PaidOn(s, start.today)| == start.maxDrops + straddlers && |Straddling(s, start.today)| == straddlers
  {
    var n, all := start.maxDrops, start.maxDrops + straddlers;
    run, s := MarkAll(start, n, all, all);
    run, s := MidnightPasses(start, run, s, n, all);
    run, s := StraddleAll(start, run, s, n, all, all);
    AllPaid(start, s, n, all);
    BelowHolds(n);
    BelowHolds(all);
    hide Below, Leads, Straddled, PaidOn, Straddling;
    TakeAway(Below(all), Below(n));
  }

  lemma TakeAway(all: set<nat>, part: set<nat>)
    requires part <= all
    ensures |all - part| == |all| - |part|
  {
    assert all == part + (all - part);
  }

  // Of all requests the first n are paid today, the next up to m have marked today, and the others still wait.
  ghost predicate AllMarked(start: System, s: System, n: nat, m: nat, all: nat) {
    && s.maxDrops == start.maxDrops && s.today == start.today && s.requests.Keys == Below(all)
    && (forall r :: r in s.requests ==> MarkingPhase(s.requests[r], start.today, r, n, m))
    && s.wallets == Below(m) && s.markers == MarkersOf(start.today, Below(m))
  }

  predicate MarkingPhase(p: Phase, day: Day, r: RequestId, n: nat, m: nat) {
    if r < n then p.Paid? && p.day == day && p.sameDay else p == if r < m then Marked(r, day) else Claiming(r)
  }

  lemma {:induction false} MarkAll(start: System, n: nat, m: nat, all: nat) returns (run: seq<Step>, s: System)
    requires start.requests == map[] && start.markers == {} && start.wallets == {}
    requires n <= m <= all && n <= start.maxDrops && 0 < start.maxDrops
    ensures Leads(start, run, s, 0) && AllMarked(start, s, n, m, all)
  {
    hide Leads, Below, MarkersOf;
    if m == n {
      run, s := PayAll(start, n, all, r => r);
    } else {
      run, s := MarkAll(start, n, m - 1, all);
      run, s := MarkNext(start, run, s, n, m - 1, all);
    }
  }

  lemma MarkNext(start: System, run: seq<Step>, s: System, n: nat, m: nat, all: nat)
    returns (longer: seq<Step>, t: System)
    requires Leads(start, run, s, 0) && AllMarked(start, s, n, m, all) && n <= m < all
    ensures Leads(start, longer, t, 0) && AllMarked(start, t, n, m + 1, all)
  {
    BelowNext(m);
    InBelow(m, all);
    hide Leads, Below, MarkersOf, Next;
    longer, t := MarkRequest(start, run, s, 0, m, m);
    OneMoreMarker(start.today, Below(m), m);
    assert t.requests.Keys == s.requests.Keys;
    forall r | r in t.requests ensures MarkingPhase(t.requests[r], start.today, r, n, m + 1) {
      assert r != m ==> t.requests[r] == s.requests[r];
    }
  }

  // Past midnight: the next up to m are paid with a recount of the new day, of which there is no marker.
  ghost predicate Straddled(start: System, s: System, n: nat, m: nat, all: nat) {
    && s.maxDrops == start.maxDrops && s.today == start.today + 1 && s.requests.Keys == Below(all)
    && (forall r :: r in s.requests ==> StraddledPhase(s.requests[r], start.today, r, n, m))
    && (forall x :: x in s.markers ==> x.0 == start.today)
  }

  predicate StraddledPhase(p: Phase, day: Day, r: RequestId, n: nat, m: nat) {
    if r < m then p.Paid? && p.day == day && (p.sameDay <==> r < n) else p == Marked(r, day)
  }

  lemma MidnightPasses(start: System, run: seq<Step>, s: System, n: nat, all: nat)
    returns (longer: seq<Step>, t: System)
    requires Leads(start, run, s, 0) && AllMarked(start, s, n, all, all) && n <= all
    ensures Leads(start, longer, t, 0) && Straddled(start, t, n, n, all)
  {
    BelowHolds(all);
    hide Leads;
    longer, t := Extend(start, run, s, 0, Midnight);
  }

  lemma {:induction false} StraddleAll(start: System, run: seq<Step>, s: System, n: nat, m: nat, all: nat)
    returns (longer: seq<Step>, t: System)
    requires Leads(start, run, s, 0) && Straddled(start, s, n, n, all) && n <= m <= all
    ensures Leads(start, longer, t, 0) && Straddled(start, t, n, m, all)
  {
    hide Leads, Straddled;
    if m == n {
      longer, t := run, s;
    } else {
      longer, t := StraddleAll(start, run, s, n, m - 1, all);
      longer, t := StraddleNext(start, longer, t, n, m - 1, all);
    }
  }

  lemma StraddleNext(start: System, run: seq<Step>, s: System, n: nat, m: nat, all: nat)
    returns (longer: seq<Step>, t: System)
    requires Leads(start, run, s, 0) && Straddled(start, s, n, m, all) && n <= m < all
    ensures Leads(start, longer, t, 0) && Straddled(start, t, n, m + 1, all)
  {
    InBelow(m, all);
    assert TodaysMarkers(s) == {};
    hide Leads, Below, Next;
    longer, t := SendRequest(start, run, s, 0, m, Delivered);
    assert t.requests.Keys == s.requests.Keys;
    forall r | r in t.requests ensures StraddledPhase(t.requests[r], start.today, r, n, m + 1) {
      assert r != m ==> t.requests[r] == s.requests[r];
    }
  }

  lemma AllPaid(start: System, s: System, n: nat, all: nat)
    requires Straddled(start, s, n, all, all) && n <= all
    ensures PaidOn(s, start.today) == Below(all) && Straddling(s, start.today) == Below(all) - Below(n)
  {
    BelowHolds(n);
    BelowHolds(all);
  }

  // The second half of a release that deleted the wallet's marker first, while no recount is under way.
  lemma DeleteDayLate(start: System, run: seq<Step>, s: System, n: nat, r: RequestId, wallet: Wallet, day: Day)
    returns (longer: seq<Step>, t: System)
    requires Leads(start, run, s, n) && r in s.requests && s.requests[r] == ReleasingDay(wallet, day)
    requires forall q :: q in s.requests ==> !s.requests[q].Counting?
    ensures Leads(start, longer, t, n)
    ensures t == s.(requests := s.requests[r := Stopped], markers := s.markers - {(day, wallet)})
  {
    hide Leads;
    longer, t := Extend(start, run, s, n, DeleteDay(r));
    assert WithoutMarker(s, day, wallet).requests == s.requests;
  }

  // A request is refused and deletes its wallet's marker first; another request claims the wallet and marks the day.
  lemma WalletClaimsAgain(start: System, run: seq<Step>, s: System, r: RequestId, q: RequestId, wallet: Wallet,
                          wallets: set<Wallet>)
    returns (longer: seq<Step>, t: System)
    requires Leads(start, run, s, 0) && s.markers == MarkersOf(s.today, wallets) && |wallets| < s.maxDrops
    requires r in s.requests && q in s.requests && r != q && wallet !in s.wallets
    requires s.requests[r] == Claiming(wallet) && s.requests[q] == Claiming(wallet)
    ensures Leads(start, longer, t, 1)
    ensures t == s.(requests := s.requests[r := ReleasingDay(wallet, s.today)][q := Marked(wallet, s.today)],
                    wallets := s.wallets + {wallet}, markers := MarkersOf(s.today, wallets + {wallet}),
                    scans := s.scans + 1)
  {
    hide Leads, MarkersOf, Next;
    longer, t := ServeRequest(start, run, s, 0, r, wallet, wallets, NotSent);
    HasMarkerOf(s.today, wallets + {wallet}, wallet);
    longer, t := ReleaseWalletFirst(start, longer, t, r, q, wallet);
    assert t.requests == s.requests[r := ReleasingDay(wallet, s.today)][q := Marked(wallet, s.today)];
    assert t.wallets == s.wallets + {wallet};
  }

  // That request is paid before the refused one deletes the day marker, so a further wallet is counted out and paid.
  lemma PaidWithoutAMarker(start: System, run: seq<Step>, s: System, r: RequestId, q: RequestId, c: RequestId,
                           wallet: Wallet, next: Wallet, wallets: set<Wallet>)
    returns (longer: seq<Step>, t: System)
    requires Leads(start, run, s, 1) && s.markers == MarkersOf(s.today, wallets + {wallet})
    requires |wallets| < s.maxDrops && wallet !in wallets
    requires forall p :: p in s.requests ==> !s.requests[p].Counting?
    requires r in s.requests && q in s.requests && c in s.requests && r != q && q != c && c != r
    requires s.requests[r] == ReleasingDay(wallet, s.today) && s.requests[q] == Marked(wallet, s.today)
    requires s.requests[c] == Claiming(next) && next !in s.wallets
    ensures Leads(start, longer, t, 1)
    ensures t.requests.Keys == s.requests.Keys && t.requests[r] == Stopped
    ensures t.requests[q].Paid? && t.requests[q].day == s.today && t.requests[q].sameDay
    ensures t.requests[c].Paid? && t.requests[c].day == s.today && t.requests[c].sameDay
    ensures forall p :: p in s.requests && p != r && p != q && p != c ==> t.requests[p] == s.requests[p]
  {
    hide Leads, MarkersOf, Next;
    TodaysMarkersOf(s, wallets + {wallet});
    assert |wallets + {wallet}| <= |wallets| + 1;
    longer, t := SendRequest(start, run, s, 1, q, Delivered);
    longer, t := DeleteDayLate(start, longer, t, 1, r, wallet, s.today);
    OneLessMarker(s.today, wallets, wallet);
    longer, t := ServeRequest(start, longer, t, 1, c, next, wallets, Delivered);
  }

  lemma HasMarkerOf(day: Day, wallets: set<Wallet>, w: Wallet)
    requires w in wallets
    ensures (day, w) in MarkersOf(day, wallets)
  {
  }

  // A refused request deletes its wallet's marker, and another request for the wallet claims and marks it again.
  lemma ReleaseWalletFirst(start: System, run: seq<Step>, s: System, r: RequestId, q: RequestId, wallet: Wallet)
    returns (longer: seq<Step>, t: System)
    requires Leads(start, run, s, 0) && r in s.requests && s.requests[r] == Releasing(wallet, s.today)
    requires r != q && q in s.requests && s.requests[q] == Claiming(wallet) && (s.today, wallet) in s.markers
    ensures Leads(start, longer, t, 1)
    ensures t == s.(requests := s.requests[r := ReleasingDay(wallet, s.today)][q := Marked(wallet, s.today)],
                    wallets := s.wallets - {wallet} + {wallet})
  {
    hide Leads;
    longer, t := Extend(start, run, s, 0, DeleteWalletFirst(r));
    longer, t := MarkRequest(start, longer, t, 1, q, wallet);
    assert t.markers == s.markers;
  }

  // Together: of three waiting requests, two of them for one wallet, the first is refused and the other two are paid.
  lemma RefuseAndPayTwo(start: System, run: seq<Step>, s: System, r: RequestId, q: RequestId, c: RequestId,
                        wallet: Wallet, next: Wallet, wallets: set<Wallet>)
    returns (longer: seq<Step>, t: System)
    requires Leads(start, run, s, 0) && s.markers == MarkersOf(s.today, wallets) && |wallets| < s.maxDrops
    requires r in s.requests && q in s.requests && c in s.requests && r != q && q != c && c != r
    requires s.requests[r] == Claiming(wallet) && s.requests[q] == Claiming(wallet) && s.requests[c] == Claiming(next)
    requires wallet != next && wallet !in wallets && wallet !in s.wallets && next !in s.wallets
    requires forall p :: p in s.requests ==> !s.requests[p].Counting?
    ensures Leads(start, longer, t, 1)
    ensures PaidOn(t, s.today) == PaidOn(s, s.today) + {q} + {c} && Straddling(t, s.today) == Straddling(s, s.today)
  {
    hide Leads, MarkersOf, Next;
    var u;
    longer, u := WalletClaimsAgain(start, run, s, r, q, wallet, wallets);
    assert u.requests.Keys == s.requests.Keys;
    forall p | p in s.requests && p != r && p != q ensures u.requests[p] == s.requests[p] {
    }
    longer, t := PaidWithoutAMarker(start, longer, u, r, q, c, wallet, next, wallets);
    TwoMorePaid(s, t, r, q, c, s.today);
  }

  lemma TwoMorePaid(s: System, t: System, r: RequestId, q: RequestId, c: RequestId, day: Day)
    requires r in s.requests && q in s.requests && c in s.requests && s.requests.Keys == t.requests.Keys
    requires !s.requests[r].Paid? && !s.requests[q].Paid? && !s.requests[c].Paid? && t.requests[r] == Stopped
    requires t.requests[q].Paid? && t.requests[q].day == day && t.requests[q].sameDay
    requires t.requests[c].Paid? && t.requests[c].day == day && t.requests[c].sameDay
    requires forall p :: p in s.requests && p != r && p != q && p != c ==> t.requests[p] == s.requests[p]
    ensures PaidOn(t, day) == PaidOn(s, day) + {q} + {c} && Straddling(t, day) == Straddling(s, day)
  {
  }

  // All but one of a day's drops are paid, and three requests wait, two of them for one wallet.
  lemma AllButOnePaid(start: System, k: nat) returns (run: seq<Step>, s: System)
    requires start.requests == map[] && start.markers == {} && start.wallets == {} && start.maxDrops == k + 1
    ensures Leads(start, run, s, 0) && s.today == start.today && s.maxDrops == start.maxDrops
    ensures s.wallets == Below(k) && s.markers == MarkersOf(s.today, Below(k))
    ensures forall r :: r in s.requests ==> !s.requests[r].Counting?
    ensures k in s.requests && k + 1 in s.requests && k + 2 in s.requests
    ensures s.requests[k] == Claiming(k) && s.requests[k + 1] == Claiming(k) && s.requests[k + 2] == Claiming(k + 1)
    ensures PaidOn(s, s.today) == Below(k) && Straddling(s, s.today) == {}
  {
    hide Leads, MarkersOf, Below, Next;
    var wallet := (r: RequestId) => if r <= k then r else r - 1;
    run, s := PayAll(start, k, k + 3, wallet);
    SomePaid(start, s, k, k + 3, wallet);
    InBelow(k, k + 3);
    InBelow(k + 1, k + 3);
    InBelow(k + 2, k + 3);
  }

  // However many drops a day has: all but one of them are paid. The next wallet's request is refused, and its release
  // deletes the wallet's marker first; the wallet claims again and is paid; the late deletion takes its day marker away,
  // and another wallet is paid as well. None straddles, and one release deleted a wallet's marker first.
  lemma WalletFirstSlipsThrough(start: System) returns (run: seq<Step>, s: System)
    requires start.requests == map[] && start.markers == {} && start.wallets == {} && start.maxDrops > 0
    ensures Leads(start, run, s, 1)
    ensures |PaidOn(s, start.today)| == start.maxDrops + 1 && Straddling(s, start.today) == {}
  {
    var k := start.maxDrops - 1;
    var s0;
    run, s0 := AllButOnePaid(start, k);
    BelowHolds(k);
    hide Leads, MarkersOf, Next, Below;
    run, s := RefuseAndPayTwo(start, run, s0, k, k + 1, k + 2, k, k + 1, Below(k));
    assert PaidOn(s, start.today) == Below(k) + {k + 1} + {k + 2};
  }

  lemma OneLessMarker(day: Day, wallets: set<Wallet>, w: Wallet)
    requires w !in wallets
    ensures MarkersOf(day, wallets + {w}) - {(day, w)} == MarkersOf(day, wallets)
  {
  }
}
