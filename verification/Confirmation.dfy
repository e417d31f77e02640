// Sending a transaction until it confirms: the same signed bytes again and again while its blockhash lives, then a
// fresh signing, against a cluster that may drop, delay or land anything it was sent.
module Confirmation {
  import opened Numbers

  // The n-th signing is transaction n.
  type Sig = nat

  // What the cluster knows. `lastValid` is each signing's last valid block height, `sent` the signings that may have
  // reached it, `landed` those in a confirmed block and whether they failed there.
  datatype Chain = Chain(height: nat, lastValid: seq<nat>, sent: set<Sig>, landed: map<Sig, bool>)

  datatype Query = LatestBlockhash | Send(sig: Sig) | StatusOf(sig: Sig, history: bool) | BlockHeight

  datatype Answer =
    | Threw
    | Blockhash(lastValid: nat)
    | Sent
    | Failed                 // a status with an error
    | Landed                 // confirmed or finalized, without one
    | NotYet                 // no status, or one that is not confirmed
    | Height(height: nat)

  // The cluster's side of one call: what happened on the chain meanwhile, and what the call answers.
  datatype Reply = Reply(chain: Chain, answer: Answer)

  type Cluster = nat -> Reply

  // How an attempt that confirmed nothing ended: whether the blockhash was seen to expire, and whether the last look
  // through the history was answered.
  datatype End = End(expired: bool, answered: bool)

  // One call, with its answer.
  datatype Asked = Asked(query: Query, answer: Answer)

  datatype Progress = Progress(chain: Chain, calls: nat, sends: nat, ends: seq<End>, asked: seq<Asked>)

  datatype Poll = Done | FailedOnChain | Expired | RanOut | Again

  datatype Outcome = Confirmed(sig: Sig) | FailedWith(sig: Sig) | Error | Unconfirmed

  // ---------- the cluster ----------

  predicate Valid(c: Chain) {
    && (forall s :: s in c.sent ==> s < |c.lastValid|)
    && (forall s :: s in c.landed ==> s in c.sent)
  }

  // Blocks go by, and a transaction it has may land as long as its blockhash has not expired.
  predicate Moves(c: Chain, d: Chain) {
    && c.height <= d.height
    && d.lastValid == c.lastValid && d.sent == c.sent
    && (forall s :: s in c.landed ==> s in d.landed && d.landed[s] == c.landed[s])
    && (forall s :: s in d.landed && s !in c.landed ==>
          s in c.sent && s < |c.lastValid| && c.height <= c.lastValid[s])
  }

  // Statuses and heights may lag, but do not lie; a search through the history finds what landed once the
  // transaction can no longer land.
  predicate Truthful(c: Chain, q: Query, a: Answer) {
    match q
    case LatestBlockhash => a.Blockhash?
    case Send(_) => a.Sent?
    case BlockHeight => a.Height? && a.height <= c.height
    case StatusOf(sig, history) =>
      || (a.Failed? && sig in c.landed && c.landed[sig])
      || (a.Landed? && sig in c.landed && !c.landed[sig])
      || (a.NotYet? && (history && sig < |c.lastValid| && c.lastValid[sig] < c.height ==> sig !in c.landed))
  }

  // A call is answered, the chain being at `d` by then.
  function Answered(w: Progress, d: Chain, q: Query, a: Answer): Progress {
    Progress(d, w.calls + 1, if q.Send? then w.sends + 1 else w.sends, w.ends, w.asked + [Asked(q, a)])
  }

  // One call. Whatever the cluster would answer, it moves only as a chain can, and answers truthfully or not at all.
  // A send that throws may have reached it all the same.
  function Ask(env: Cluster, w: Progress, q: Query): (Progress, Answer) {
    var reply := env(w.calls);
    var c := if q.Send? then w.chain.(sent := w.chain.sent + {q.sig}) else w.chain;
    var d := if Moves(c, reply.chain) then reply.chain else c;
    var a := if Truthful(d, q, reply.answer) then reply.answer else Threw;
    (Answered(w, d, q, a), a)
  }

  // ---------- the specification of a run ----------

  // One turn of the polling loop; a call that throws only ends the turn.
  function PollOnce(env: Cluster, w: Progress, sig: Sig, lastValid: nat): (Progress, Poll) {
    var (w1, status) := Ask(env, w, StatusOf(sig, false));
    if status.Failed? then (w1, FailedOnChain)
    else if status.Landed? then (w1, Done)
    else if status.Threw? then (w1, Again)
    else
      var (w2, height) := Ask(env, w1, BlockHeight);
      if height.Height? then
        if height.height > lastValid then (w2, Expired) else (Ask(env, w2, Send(sig)).0, Again)
      else (w2, Again)
  }

  function Polls(env: Cluster, w: Progress, sig: Sig, lastValid: nat, polls: int): (Progress, Poll)
    decreases polls
  {
    if polls <= 0 then (w, RanOut)
    else
      var (w1, poll) := PollOnce(env, w, sig, lastValid);
      if poll.Again? then Polls(env, w1, sig, lastValid, polls - 1) else (w1, poll)
  }

  function Signed(w: Progress, lastValid: nat): Progress {
    w.(chain := w.chain.(lastValid := w.chain.lastValid + [lastValid]))
  }

  // One build, its sends and its polls: an outcome, or none if it is time for a fresh signing.
  function Attempt(env: Cluster, w: Progress, maxPolls: int): (Progress, Outcome) {
    var (w1, hash) := Ask(env, w, LatestBlockhash);
    if !hash.Blockhash? then (w1, Error)
    else
      var sig := |w1.chain.lastValid|;
      var (w2, sent) := Ask(env, Signed(w1, hash.lastValid), Send(sig));
      if !sent.Sent? then (w2, Error)
      else
        var (w3, poll) := Polls(env, w2, sig, hash.lastValid, maxPolls);
        if poll.Done? then (w3, Confirmed(sig))
        else if poll.FailedOnChain? then (w3, FailedWith(sig))
        else
          var (w4, last) := Ask(env, w3, StatusOf(sig, true));
          if last.Failed? then (w4, FailedWith(sig))
          else if last.Landed? then (w4, Confirmed(sig))
          else (w4.(ends := w4.ends + [End(poll.Expired?, !last.Threw?)]), Unconfirmed)
  }

  function Builds(env: Cluster, w: Progress, maxBuilds: int, maxPolls: int): (Progress, Outcome)
    decreases maxBuilds
  {
    if maxBuilds <= 0 then (w, Unconfirmed)
    else
      var (w1, outcome) := Attempt(env, w, maxPolls);
      if outcome.Unconfirmed? then Builds(env, w1, maxBuilds - 1, maxPolls) else (w1, outcome)
  }

  // ---------- the code itself ----------

  // `sendUntilConfirmed`: `w` is where the chain and the counters stand, `Error` an exception that says nothing.
  method SendUntilConfirmed(env: Cluster, start: Progress, maxBuilds: int, maxPolls: int)
    returns (w: Progress, outcome: Outcome)
    ensures (w, outcome) == Builds(env, start, maxBuilds, maxPolls)
  {
    hide Ask;
    w := start;
    var attempt := 1;
    while attempt <= maxBuilds
      invariant Builds(env, start, maxBuilds, maxPolls) == Builds(env, w, maxBuilds - attempt + 1, maxPolls)
    {
      ghost var before := w;
      var (w1, hash) := Ask(env, w, LatestBlockhash);
      if !hash.Blockhash? {
        return w1, Error;
      }
      var sig := |w1.chain.lastValid|;
      var (w2, sent) := Ask(env, Signed(w1, hash.lastValid), Send(sig));
      if !sent.Sent? {
        return w2, Error;
      }
      w := w2;
      var poll, expired := 0, false;
      while poll < maxPolls && !expired
        invariant Polls(env, w2, sig, hash.lastValid, maxPolls) ==
          if expired then (w, Expired) else Polls(env, w, sig, hash.lastValid, maxPolls - poll)
        decreases maxPolls - poll, !expired
      {
        var (ws, status) := Ask(env, w, StatusOf(sig, false));
        w := ws;
        if status.Failed? {
          return w, FailedWith(sig);
        } else if status.Landed? {
          return w, Confirmed(sig);
        } else if !status.Threw? {
          var (wh, height) := Ask(env, w, BlockHeight);
          w := wh;
          if height.Height? {
            if height.height > hash.lastValid {
              expired := true;
            } else {
              w := Ask(env, w, Send(sig)).0;
            }
          }
        }
        if !expired {
          poll := poll + 1;
        }
      }
      var (w4, last) := Ask(env, w, StatusOf(sig, true));
      if last.Failed? {
        return w4, FailedWith(sig);
      } else if last.Landed? {
        return w4, Confirmed(sig);
      }
      w := w4.(ends := w4.ends + [End(expired, !last.Threw?)]);
      attempt := attempt + 1;
    }
    outcome := Unconfirmed;
  }

  // ---------- what may still land ----------

  predicate CanLand(c: Chain, sig: Sig) {
    sig in c.landed || (sig in c.sent && sig < |c.lastValid| && c.height <= c.lastValid[sig])
  }

  // Two signings can both end up landed exactly when each can.
  lemma BothLandExactly(c: Chain, a: Sig, b: Sig)
    requires Valid(c)
    ensures (exists d :: Moves(c, d) && a in d.landed && b in d.landed) <==> CanLand(c, a) && CanLand(c, b)
  {
    if CanLand(c, a) && CanLand(c, b) {
      var l1 := if a in c.landed then c.landed else c.landed[a := false];
      var l2 := if b in l1 then l1 else l1[b := false];
      assert Moves(c, c.(landed := l2));
    }
  }

  // What a call leaves alone, whatever it asks.
  ghost predicate Keeps(w: Progress, v: Progress) {
    && Valid(v.chain)
    && w.chain.height <= v.chain.height
    && v.chain.lastValid == w.chain.lastValid
    && v.ends == w.ends
    && (forall s :: s in w.chain.landed ==> s in v.chain.landed && v.chain.landed[s] == w.chain.landed[s])
  }

  // Nothing but `sig` becomes able to land.
  ghost predicate OnlySends(w: Progress, v: Progress, sig: Sig) {
    forall s :: s != sig && CanLand(v.chain, s) ==> CanLand(w.chain, s)
  }

  lemma AskKeeps(env: Cluster, w: Progress, q: Query, sig: Sig)
    requires Valid(w.chain) && (q.Send? ==> q.sig == sig && sig < |w.chain.lastValid|)
    ensures Keeps(w, Ask(env, w, q).0) && OnlySends(w, Ask(env, w, q).0, sig)
    ensures Ask(env, w, q).0.sends == w.sends + if q.Send? then 1 else 0
    ensures Ask(env, w, q).1.Threw? || Truthful(Ask(env, w, q).0.chain, q, Ask(env, w, q).1)
  {
  }

  lemma KeepsOn(u: Progress, v: Progress, w: Progress, sig: Sig)
    requires Keeps(u, v) && Keeps(v, w) && OnlySends(u, v, sig) && OnlySends(v, w, sig)
    ensures Keeps(u, w) && OnlySends(u, w, sig)
  {
  }

  lemma PollOnceKeeps(env: Cluster, w: Progress, sig: Sig, lastValid: nat)
    requires Valid(w.chain) && sig < |w.chain.lastValid| && w.chain.lastValid[sig] == lastValid
    ensures var (v, poll) := PollOnce(env, w, sig, lastValid);
      && Keeps(w, v) && OnlySends(w, v, sig)
      && v.sends <= w.sends + 1
      && (poll.Done? ==> sig in v.chain.landed && !v.chain.landed[sig])
      && (poll.FailedOnChain? ==> sig in v.chain.landed && v.chain.landed[sig])
      && (poll.Expired? ==> lastValid < v.chain.height)
  {
    var (w1, status) := Ask(env, w, StatusOf(sig, false));
    AskKeeps(env, w, StatusOf(sig, false), sig);
    var (w2, height) := Ask(env, w1, BlockHeight);
    AskKeeps(env, w1, BlockHeight, sig);
    AskKeeps(env, w2, Send(sig), sig);
    hide Ask, Valid, CanLand;
  }

  // A run of polls: how many sends it makes, and what its verdict says of the chain.
  lemma {:induction false} PollsKeep(env: Cluster, w: Progress, sig: Sig, lastValid: nat, polls: int)
    requires Valid(w.chain) && sig < |w.chain.lastValid| && w.chain.lastValid[sig] == lastValid
    ensures var (v, poll) := Polls(env, w, sig, lastValid, polls);
      && Keeps(w, v) && OnlySends(w, v, sig)
      && v.sends <= w.sends + Positive(polls)
      && (poll.Done? ==> sig in v.chain.landed && !v.chain.landed[sig])
      && (poll.FailedOnChain? ==> sig in v.chain.landed && v.chain.landed[sig])
      && (poll.Expired? ==> lastValid < v.chain.height)
    decreases polls
  {
    if polls > 0 {
      PollOnceKeeps(env, w, sig, lastValid);
      var (v, poll) := PollOnce(env, w, sig, lastValid);
      assert Valid(v.chain) && v.chain.lastValid == w.chain.lastValid;
      hide PollOnce, Valid, Keeps, OnlySends;
      if poll.Again? {
        PollsKeep(env, v, sig, lastValid, polls - 1);
        KeepsOn(w, v, Polls(env, v, sig, lastValid, polls - 1).0, sig);
      }
    }
  }

  function Positive(n: int): nat {
    if n > 0 then n else 0
  }

  // A fresh signing adds one transaction that nobody has been sent.
  lemma SigningKeeps(w: Progress, lastValid: nat)
    requires Valid(w.chain)
    ensures Valid(Signed(w, lastValid).chain)
    ensures forall s :: CanLand(Signed(w, lastValid).chain, s) ==> CanLand(w.chain, s)
  {
  }

  // One attempt: at most one new signing, which is the only one that becomes able to land, and which no longer can
  // once its blockhash was seen to expire and the history was searched.
  ghost predicate AttemptSound(w: Progress, v: Progress, outcome: Outcome, maxPolls: int) {
    var sig := |w.chain.lastValid|;
    && Valid(v.chain)
    && sig <= |v.chain.lastValid| <= sig + 1
    && OnlySends(w, v, sig)
    && v.sends <= w.sends + Positive(maxPolls) + 1
    && (outcome.Confirmed? ==> outcome.sig == sig && sig in v.chain.landed && !v.chain.landed[sig])
    && (outcome.FailedWith? ==> outcome.sig == sig && sig in v.chain.landed && v.chain.landed[sig])
    && (!outcome.Unconfirmed? ==> v.ends == w.ends)
    && (outcome.Unconfirmed? ==>
          && |v.chain.lastValid| == sig + 1
          && |v.ends| == |w.ends| + 1 && v.ends[..|w.ends|] == w.ends
          && (Careful(v.ends[|w.ends|]) ==> !CanLand(v.chain, sig)))
  }

  predicate Careful(end: End) {
    end.expired && end.answered
  }

  // Signing and the first send.
  lemma FirstSend(env: Cluster, w: Progress, lastValid: nat)
    requires Valid(w.chain)
    ensures var sig := |w.chain.lastValid|;
      var v := Ask(env, Signed(w, lastValid), Send(sig)).0;
      && Valid(v.chain) && v.chain.lastValid == w.chain.lastValid + [lastValid] && v.ends == w.ends
      && OnlySends(w, v, sig) && v.sends == w.sends + 1
  {
    SigningKeeps(w, lastValid);
    AskKeeps(env, Signed(w, lastValid), Send(|w.chain.lastValid|), |w.chain.lastValid|);
    hide Ask, Valid, CanLand;
  }

  // The polls and the last look through the history.
  lemma PollAndLook(env: Cluster, w: Progress, sig: Sig, lastValid: nat, maxPolls: int)
    requires Valid(w.chain) && sig < |w.chain.lastValid| && w.chain.lastValid[sig] == lastValid
    ensures var (u, poll) := Polls(env, w, sig, lastValid, maxPolls);
      var (v, last) := Ask(env, u, StatusOf(sig, true));
      && Keeps(w, u) && OnlySends(w, u, sig) && Keeps(w, v) && OnlySends(w, v, sig)
      && v.sends == u.sends <= w.sends + Positive(maxPolls)
      && (poll.Done? ==> sig in u.chain.landed && !u.chain.landed[sig])
      && (poll.FailedOnChain? ==> sig in u.chain.landed && u.chain.landed[sig])
      && (last.Landed? ==> sig in v.chain.landed && !v.chain.landed[sig])
      && (last.Failed? ==> sig in v.chain.landed && v.chain.landed[sig])
      && (poll.Expired? && last.NotYet? ==> !CanLand(v.chain, sig))
      && (last.Failed? || last.Landed? || last.NotYet? || last.Threw?)
  {
    PollsKeep(env, w, sig, lastValid, maxPolls);
    var u := Polls(env, w, sig, lastValid, maxPolls).0;
    AskKeeps(env, u, StatusOf(sig, true), sig);
    KeepsOn(w, u, Ask(env, u, StatusOf(sig, true)).0, sig);
    hide Ask, Polls, Valid;
  }

  lemma AttemptIsSound(env: Cluster, w: Progress, maxPolls: int)
    requires Valid(w.chain)
    ensures Valid(Attempt(env, w, maxPolls).0.chain)
    ensures AttemptSound(w, Attempt(env, w, maxPolls).0, Attempt(env, w, maxPolls).1, maxPolls)
  {
    var sig := |w.chain.lastValid|;
    var (w1, hash) := Ask(env, w, LatestBlockhash);
    AskKeeps(env, w, LatestBlockhash, sig);
    if hash.Blockhash? {
      FirstSend(env, w1, hash.lastValid);
      PollAndLook(env, Ask(env, Signed(w1, hash.lastValid), Send(sig)).0, sig, hash.lastValid, maxPolls);
    }
    hide Ask, Polls, Valid, CanLand, Signed;
  }

  // ---------- the whole call ----------

  // The signings of one call are those from `first` on.
  ghost predicate CallSound(w: Progress, v: Progress, outcome: Outcome, maxBuilds: int, maxPolls: int) {
    var first, done := |w.chain.lastValid|, |w.ends|;
    && Valid(v.chain)
    && first <= |v.chain.lastValid| <= first + Positive(maxBuilds)
    && v.sends <= w.sends + Positive(maxBuilds) * (Positive(maxPolls) + 1)
    && done <= |v.ends| && v.ends[..done] == w.ends
    && |v.ends| - done <= |v.chain.lastValid| - first <= |v.ends| - done + 1
    && (outcome.Unconfirmed? ==> |v.ends| - done == |v.chain.lastValid| - first)
    && (outcome.Confirmed? ==>
          && first <= outcome.sig == |v.chain.lastValid| - 1
          && outcome.sig in v.chain.landed && !v.chain.landed[outcome.sig])
    && (outcome.FailedWith? ==>
          && first <= outcome.sig == |v.chain.lastValid| - 1
          && outcome.sig in v.chain.landed && v.chain.landed[outcome.sig])
    && (forall s: Sig :: s < first && CanLand(v.chain, s) ==> CanLand(w.chain, s))
    && (forall s: Sig :: first <= s < first + |v.ends| - done && Careful(v.ends[done + s - first])
          ==> !CanLand(v.chain, s))
  }

  // An attempt that asks for a fresh signing, and what the rest of the call does.
  lemma AttemptThenCall(w: Progress, u: Progress, v: Progress, outcome: Outcome, maxBuilds: int, maxPolls: int)
    requires maxBuilds > 0
    requires AttemptSound(w, u, Unconfirmed, maxPolls) && CallSound(u, v, outcome, maxBuilds - 1, maxPolls)
    ensures CallSound(w, v, outcome, maxBuilds, maxPolls)
  {
  }

  // One turn of the loop over builds.
  lemma BuildsUnrolled(env: Cluster, w: Progress, maxBuilds: int, maxPolls: int)
    ensures Builds(env, w, maxBuilds, maxPolls) ==
      if maxBuilds <= 0 then (w, Unconfirmed)
      else if Attempt(env, w, maxPolls).1.Unconfirmed? then Builds(env, Attempt(env, w, maxPolls).0, maxBuilds - 1, maxPolls)
      else Attempt(env, w, maxPolls)
  {
    hide Attempt;
  }

  lemma {:induction false} CallIsSound(env: Cluster, w: Progress, maxBuilds: int, maxPolls: int)
    requires Valid(w.chain)
    ensures var (v, outcome) := Builds(env, w, maxBuilds, maxPolls);
      CallSound(w, v, outcome, maxBuilds, maxPolls)
    decreases maxBuilds
  {
    hide Builds, Attempt, CallSound, AttemptSound, Valid;
    BuildsUnrolled(env, w, maxBuilds, maxPolls);
    if maxBuilds <= 0 {
      NoAttempt(w, maxBuilds, maxPolls);
    } else {
      AttemptIsSound(env, w, maxPolls);
      var (u, outcome) := Attempt(env, w, maxPolls);
      if outcome.Unconfirmed? {
        CallIsSound(env, u, maxBuilds - 1, maxPolls);
        var (v, final) := Builds(env, u, maxBuilds - 1, maxPolls);
        AttemptThenCall(w, u, v, final, maxBuilds, maxPolls);
      } else {
        LastAttempt(w, u, outcome, maxBuilds, maxPolls);
      }
    }
  }

  lemma NoAttempt(w: Progress, maxBuilds: int, maxPolls: int)
    requires Valid(w.chain) && maxBuilds <= 0
    ensures CallSound(w, w, Unconfirmed, maxBuilds, maxPolls)
  {
    hide Valid, CanLand;
  }

  lemma LastAttempt(w: Progress, u: Progress, outcome: Outcome, maxBuilds: int, maxPolls: int)
    requires maxBuilds > 0 && !outcome.Unconfirmed? && AttemptSound(w, u, outcome, maxPolls)
    ensures CallSound(w, u, outcome, maxBuilds, maxPolls)
  {
  }

  // ---------- what the call promises ----------

  // A returned signature is one of this call's own, and it landed without an error.
  lemma ReturnsOnlyLanded(env: Cluster, start: Progress, maxBuilds: int, maxPolls: int, sig: Sig)
    requires Valid(start.chain)
    requires Builds(env, start, maxBuilds, maxPolls).1 == Confirmed(sig)
    ensures var c := Builds(env, start, maxBuilds, maxPolls).0.chain; sig in c.landed && !c.landed[sig]
    ensures |start.chain.lastValid| <= sig
  {
    CallIsSound(env, start, maxBuilds, maxPolls);
  }

  // Whatever the cluster does, a call signs at most `maxBuilds` times and sends at most `maxPolls + 1` times each.
  lemma SendsAreBounded(env: Cluster, start: Progress, maxBuilds: int, maxPolls: int)
    requires Valid(start.chain)
    ensures var w := Builds(env, start, maxBuilds, maxPolls).0;
      && w.sends - start.sends <= Positive(maxBuilds) * (Positive(maxPolls) + 1)
      && |w.chain.lastValid| - |start.chain.lastValid| <= Positive(maxBuilds)
  {
    CallIsSound(env, start, maxBuilds, maxPolls);
  }

  // The attempts of a call that ended in another signing.
  function Resigned(start: Progress, w: Progress): seq<End>
    requires |start.ends| <= |w.ends|
  {
    var ends := w.ends[|start.ends|..];
    if |ends| == |w.chain.lastValid| - |start.chain.lastValid| && ends != [] then ends[..|ends| - 1] else ends
  }

  // If every fresh signing followed an expiry that was seen and a search of the history that was answered, at most one
  // of the call's transactions lands, then or ever.
  lemma AtMostOneLands(env: Cluster, start: Progress, maxBuilds: int, maxPolls: int, later: Chain, a: Sig, b: Sig)
    requires Valid(start.chain)
    requires var w := Builds(env, start, maxBuilds, maxPolls).0;
      && |start.ends| <= |w.ends|
      && (forall end :: end in Resigned(start, w) ==> Careful(end))
      && Moves(w.chain, later)
    requires |start.chain.lastValid| <= a && |start.chain.lastValid| <= b
    requires a in later.landed && b in later.landed
    ensures a == b
  {
    CallIsSound(env, start, maxBuilds, maxPolls);
    var (w, outcome) := Builds(env, start, maxBuilds, maxPolls);
    hide Builds, Valid, Resigned;
    var first, done := |start.chain.lastValid|, |start.ends|;
    forall s: Sig | first <= s < |w.chain.lastValid| - 1 ensures !CanLand(w.chain, s) {
      ResignedHas(start, w, done + s - first);
    }
    assert CanLand(w.chain, a) && CanLand(w.chain, b);
  }

  lemma ResignedHas(start: Progress, w: Progress, i: nat)
    requires |start.ends| <= i < |w.ends|
    requires i - |start.ends| < |w.chain.lastValid| - |start.chain.lastValid| - 1
    ensures w.ends[i] in Resigned(start, w)
  {
  }

  // If the call gives up and every attempt ended so, nothing it signed ever lands.
  lemma GivingUpIsFinal(env: Cluster, start: Progress, maxBuilds: int, maxPolls: int, later: Chain, sig: Sig)
    requires Valid(start.chain)
    requires var (w, outcome) := Builds(env, start, maxBuilds, maxPolls);
      && outcome.Unconfirmed?
      && (forall i :: |start.ends| <= i < |w.ends| ==> Careful(w.ends[i]))
      && Moves(w.chain, later)
    requires |start.chain.lastValid| <= sig
    ensures sig !in later.landed
  {
    CallIsSound(env, start, maxBuilds, maxPolls);
    var w := Builds(env, start, maxBuilds, maxPolls).0;
    hide Builds, Valid;
    var i := |start.ends| + sig - |start.chain.lastValid|;
    if i < |w.ends| {
      assert Careful(w.ends[i]);
      assert !CanLand(w.chain, sig);
    }
  }

  // ---------- what the answers decide ----------

  // What a call comes to at its n-th answer, if that decides it: a status that is in decides it for good, and so does a
  // blockhash that cannot be had or the first send of a signing that throws. Nothing else does.
  function Decides(t: seq<Asked>, n: nat): Option<Outcome>
    requires n < |t|
  {
    var q, a := t[n].query, t[n].answer;
    if q.StatusOf? && a == Landed then Some(Confirmed(q.sig))
    else if q.StatusOf? && a == Failed then Some(FailedWith(q.sig))
    else if q == LatestBlockhash && a == Threw then Some(Error)
    else if q.Send? && n > 0 && t[n - 1].query == LatestBlockhash && a == Threw then Some(Error)
    else None
  }

  // The outcome of a trace: that of its only deciding answer, which is its last, or none.
  ghost predicate OutcomeIs(t: seq<Asked>, outcome: Outcome) {
    && (forall n :: 0 <= n < |t| && Decides(t, n).Some? ==> n == |t| - 1 && outcome == Decides(t, n).value)
    && (!outcome.Unconfirmed? ==> t != [] && Decides(t, |t| - 1) == Some(outcome))
  }

  // Every send and every look-up is of one signing.
  ghost predicate Of(t: seq<Asked>, sig: Sig) {
    forall n :: 0 <= n < |t| && (t[n].query.Send? || t[n].query.StatusOf?) ==> t[n].query.sig == sig
  }

  // What was asked between two points of a call.
  function Since(w: Progress, v: Progress): seq<Asked>
    requires w.asked <= v.asked
  {
    v.asked[|w.asked|..]
  }

  lemma SinceJoins(u: Progress, v: Progress, w: Progress)
    requires u.asked <= v.asked && v.asked <= w.asked
    ensures u.asked <= w.asked && Since(u, w) == Since(u, v) + Since(v, w)
  {
  }

  lemma AskIsOne(env: Cluster, w: Progress, q: Query)
    ensures var (v, a) := Ask(env, w, q); w.asked <= v.asked && Since(w, v) == [Asked(q, a)]
    ensures Ask(env, w, q).1 == Threw || Truthful(Ask(env, w, q).0.chain, q, Ask(env, w, q).1)
  {
  }

  // The polls of one signing: they stop at the first status that is in, or when the height shows the blockhash expired;
  // short of that there are as many as there may be, a status that is not in yet is followed by a look at the height,
  // and a height within the blockhash's by one more send.
  ghost predicate PollsAre(t: seq<Asked>, sig: Sig, lastValid: nat, polls: int, poll: Poll) {
    && Of(t, sig)
    && (forall n :: 0 <= n < |t| ==> PollQuery(t[n].query))
    && (forall n :: 0 <= n < |t| && InAlready(t[n]) ==> n == |t| - 1)
    && (poll == Done <==> t != [] && t[|t| - 1].query.StatusOf? && t[|t| - 1].answer == Landed)
    && (poll == FailedOnChain <==> t != [] && t[|t| - 1].query.StatusOf? && t[|t| - 1].answer == Failed)
    && (forall n :: 0 <= n < |t| && TooHigh(t[n], lastValid) ==> n == |t| - 1)
    && (poll == Expired <==> t != [] && TooHigh(t[|t| - 1], lastValid))
    && (poll == RanOut ==> StatusPolls(t) == Positive(polls))
    && poll != Again && StatusPolls(t) <= Positive(polls)
    && Rebroadcasts(t, lastValid)
  }

  predicate PollQuery(q: Query) {
    (q.StatusOf? && !q.history) || q == BlockHeight || q.Send?
  }

  // A status that is in.
  predicate InAlready(a: Asked) {
    a.query.StatusOf? && (a.answer == Landed || a.answer == Failed)
  }

  predicate TooHigh(a: Asked, lastValid: nat) {
    a.query == BlockHeight && a.answer.Height? && a.answer.height > lastValid
  }

  function StatusPolls(t: seq<Asked>): nat {
    if t == [] then 0
    else
      var last := t[|t| - 1].query;
      StatusPolls(t[..|t| - 1]) + if last.StatusOf? && !last.history then 1 else 0
  }

  ghost predicate Rebroadcasts(t: seq<Asked>, lastValid: nat) {
    && (forall n :: 0 <= n < |t| && t[n].query.StatusOf? && t[n].answer == NotYet ==>
          n + 1 < |t| && t[n + 1].query == BlockHeight)
    && (forall n :: 0 <= n < |t| && t[n].query == BlockHeight && t[n].answer.Height? && !TooHigh(t[n], lastValid) ==>
          n + 1 < |t| && t[n + 1].query.Send?)
  }

  lemma {:induction false} StatusPollsJoin(a: seq<Asked>, b: seq<Asked>)
    ensures StatusPolls(a + b) == StatusPolls(a) + StatusPolls(b)
  {
    if b == [] {
      assert a + b == a;
    } else {
      var before := b[..|b| - 1];
      StatusPollsJoin(a, before);
      assert (a + b)[..|a + b| - 1] == a + before;
    }
  }

  // One turn of the polling loop.
  lemma PollOnceIs(env: Cluster, w: Progress, sig: Sig, lastValid: nat)
    ensures
      var (v, poll) := PollOnce(env, w, sig, lastValid);
      && w.asked <= v.asked
      && (poll != Again ==> PollsAre(Since(w, v), sig, lastValid, 1, poll))
      && (poll == Again ==> PollsAre(Since(w, v), sig, lastValid, 1, RanOut)) && poll != RanOut
  {
    var (w1, status) := Ask(env, w, StatusOf(sig, false));
    AskIsOne(env, w, StatusOf(sig, false));
    var (w2, height) := Ask(env, w1, BlockHeight);
    AskIsOne(env, w1, BlockHeight);
    AskIsOne(env, w2, Send(sig));
    var w3 := Ask(env, w2, Send(sig)).0;
    SinceJoins(w, w1, w2);
    SinceJoins(w, w2, w3);
    hide Ask;
    var s, h, r := Asked(StatusOf(sig, false), status), Asked(BlockHeight, height), Since(w2, w3);
    assert Since(w, w2) == [s, h] && Since(w, w3) == [s, h] + r == [s, h, r[0]];
    hide PollsAre, Since;
    OneStatus(s, sig, lastValid);
    OneStatusAndHeight(s, h, sig, lastValid);
    OneResend(s, h, r[0], sig, lastValid);
  }

  lemma OneStatus(s: Asked, sig: Sig, lastValid: nat)
    requires s.query == StatusOf(sig, false)
    ensures s.answer == Landed ==> PollsAre([s], sig, lastValid, 1, Done)
    ensures s.answer == Failed ==> PollsAre([s], sig, lastValid, 1, FailedOnChain)
    ensures s.answer == Threw ==> PollsAre([s], sig, lastValid, 1, RanOut)
  {
    OnePoll([s]);
    hide StatusPolls;
  }

  lemma OneStatusAndHeight(s: Asked, h: Asked, sig: Sig, lastValid: nat)
    requires s.query == StatusOf(sig, false) && h.query == BlockHeight
    ensures s.answer == NotYet && TooHigh(h, lastValid) ==> PollsAre([s, h], sig, lastValid, 1, Expired)
    ensures s.answer == NotYet && h.answer == Threw ==> PollsAre([s, h], sig, lastValid, 1, RanOut)
  {
    OnePoll([s, h]);
    hide StatusPolls;
  }

  lemma OneResend(s: Asked, h: Asked, r: Asked, sig: Sig, lastValid: nat)
    requires s.query == StatusOf(sig, false) && h.query == BlockHeight && r.query == Send(sig)
    ensures s.answer == NotYet && h.answer.Height? && !TooHigh(h, lastValid) ==>
      PollsAre([s, h, r], sig, lastValid, 1, RanOut)
  {
    OnePoll([s, h, r]);
    hide StatusPolls;
  }

  lemma OnePoll(t: seq<Asked>)
    requires 1 <= |t| <= 3 && t[0].query.StatusOf? && !t[0].query.history
    requires forall n :: 1 <= n < |t| ==> !t[n].query.StatusOf?
    ensures StatusPolls(t) == 1
  {
    assert t[..|t| - 1] != [] ==> t[..|t| - 1][0] == t[0];
    if |t| == 3 {
      assert t[..2][..1] == t[..1];
    }
  }

  lemma {:induction false} PollsAreSo(env: Cluster, w: Progress, sig: Sig, lastValid: nat, polls: int)
    ensures
      var (v, poll) := Polls(env, w, sig, lastValid, polls);
      w.asked <= v.asked && PollsAre(Since(w, v), sig, lastValid, polls, poll)
    decreases polls
  {
    hide PollsAre;
    if polls <= 0 {
      NoPolls(w, sig, lastValid, polls);
    } else {
      PollOnceIs(env, w, sig, lastValid);
      var (u, once) := PollOnce(env, w, sig, lastValid);
      hide PollOnce;
      if once == Again {
        PollsAreSo(env, u, sig, lastValid, polls - 1);
        var (v, poll) := Polls(env, u, sig, lastValid, polls - 1);
        SinceJoins(w, u, v);
        PollsJoin(Since(w, u), Since(u, v), sig, lastValid, polls, poll);
      } else {
        MorePolls(Since(w, u), sig, lastValid, polls, once);
      }
    }
  }

  lemma MorePolls(t: seq<Asked>, sig: Sig, lastValid: nat, polls: int, poll: Poll)
    requires PollsAre(t, sig, lastValid, 1, poll) && poll != RanOut && polls >= 1
    ensures PollsAre(t, sig, lastValid, polls, poll)
  {
  }

  lemma NoPolls(w: Progress, sig: Sig, lastValid: nat, polls: int)
    requires polls <= 0
    ensures PollsAre(Since(w, w), sig, lastValid, polls, RanOut)
  {
  }

  lemma PollsJoin(a: seq<Asked>, b: seq<Asked>, sig: Sig, lastValid: nat, polls: int, poll: Poll)
    requires polls > 0 && PollsAre(a, sig, lastValid, 1, RanOut) && PollsAre(b, sig, lastValid, polls - 1, poll)
    ensures PollsAre(a + b, sig, lastValid, polls, poll)
  {
    StatusPollsJoin(a, b);
    hide StatusPolls;
  }

  // One attempt of a call: a blockhash, the first send, the polls, and one look through the history.
  ghost predicate AttemptAsks(t: seq<Asked>, sig: Sig, maxPolls: int, end: End) {
    && |t| >= 3 && t[0].query == LatestBlockhash && t[0].answer.Blockhash?
    && t[1] == Asked(Send(sig), Sent)
    && var polls, last, lastValid := t[2..|t| - 1], t[|t| - 1], t[0].answer.lastValid;
       && last.query == StatusOf(sig, true) && (end.answered <==> last.answer == NotYet)
       && (end.expired <==> exists n :: 0 <= n < |polls| && TooHigh(polls[n], lastValid))
       && (!end.expired ==> StatusPolls(polls) == Positive(maxPolls))
       && Rebroadcasts(polls, lastValid)
       && forall n :: 0 <= n < |polls| ==> PollQuery(polls[n].query)
  }

  lemma AttemptDecides(env: Cluster, w: Progress, maxPolls: int)
    ensures
      var (v, outcome) := Attempt(env, w, maxPolls);
      && w.asked <= v.asked && Of(Since(w, v), |w.chain.lastValid|) && OutcomeIs(Since(w, v), outcome)
      && Since(w, v) != [] && Since(w, v)[0].query == LatestBlockhash
      && (outcome == Unconfirmed ==>
            v.ends != [] && AttemptAsks(Since(w, v), |w.chain.lastValid|, maxPolls, v.ends[|v.ends| - 1]))
  {
    var sig := |w.chain.lastValid|;
    var (w1, hash) := Ask(env, w, LatestBlockhash);
    AskIsOne(env, w, LatestBlockhash);
    AskSameSigs(env, w, LatestBlockhash);
    if hash.Blockhash? {
      var (w2, sent) := Ask(env, Signed(w1, hash.lastValid), Send(sig));
      AskIsOne(env, Signed(w1, hash.lastValid), Send(sig));
      assert Since(w, w2) == [Asked(LatestBlockhash, hash), Asked(Send(sig), sent)];
      if sent.Sent? {
        var (w3, poll) := Polls(env, w2, sig, hash.lastValid, maxPolls);
        PollsAreSo(env, w2, sig, hash.lastValid, maxPolls);
        var (w4, last) := Ask(env, w3, StatusOf(sig, true));
        AskIsOne(env, w3, StatusOf(sig, true));
        SinceJoins(w, w2, w3);
        SinceJoins(w, w3, w4);
        hide Ask, Polls, Truthful;
        PolledOut(hash.lastValid, sig, Since(w2, w3), Asked(StatusOf(sig, true), last), maxPolls, poll);
        assert Since(w, w3) == [Asked(LatestBlockhash, hash), Asked(Send(sig), Sent)] + Since(w2, w3);
        assert Since(w, w4) == Since(w, w3) + [Asked(StatusOf(sig, true), last)];
        hide OutcomeIs, AttemptAsks, Of;
      }
    }
  }

  lemma AskSameSigs(env: Cluster, w: Progress, q: Query)
    ensures Ask(env, w, q).0.chain.lastValid == w.chain.lastValid
  {
  }

  // The trace of an attempt that signed and sent, so far.
  function SignedAnd(lastValid: nat, sig: Sig, polls: seq<Asked>): seq<Asked> {
    [Asked(LatestBlockhash, Blockhash(lastValid)), Asked(Send(sig), Sent)] + polls
  }

  // In it only a status decides.
  lemma OnlyStatusDecides(lastValid: nat, sig: Sig, more: seq<Asked>, n: nat)
    requires forall m :: 0 <= m < |more| ==> PollQuery(more[m].query) || more[m].query.StatusOf?
    requires n < |SignedAnd(lastValid, sig, more)|
    ensures
      var t := SignedAnd(lastValid, sig, more);
      Decides(t, n) ==
        if !InAlready(t[n]) then None
        else Some(if t[n].answer == Landed then Confirmed(t[n].query.sig) else FailedWith(t[n].query.sig))
  {
    var t := SignedAnd(lastValid, sig, more);
    assert forall m :: 2 <= m < |t| ==> t[m] == more[m - 2];
  }

  // What an attempt comes to, from its polls and its last look.
  lemma PolledOut(lastValid: nat, sig: Sig, polls: seq<Asked>, last: Asked, maxPolls: int, poll: Poll)
    requires PollsAre(polls, sig, lastValid, maxPolls, poll) && last.query == StatusOf(sig, true)
    requires last.answer in {Landed, Failed, NotYet, Threw}
    ensures
      var t := SignedAnd(lastValid, sig, polls);
      && Of(t, sig) && Of(t + [last], sig)
      && (poll == Done ==> OutcomeIs(t, Confirmed(sig)))
      && (poll == FailedOnChain ==> OutcomeIs(t, FailedWith(sig)))
      && (poll == Expired || poll == RanOut ==>
            && OutcomeIs(t + [last], AfterLook(sig, last.answer))
            && (last.answer == NotYet || last.answer == Threw ==>
                  AttemptAsks(t + [last], sig, maxPolls, End(poll == Expired, last.answer == NotYet))))
  {
    var t := SignedAnd(lastValid, sig, polls);
    hide StatusPolls, Rebroadcasts, Decides;
    forall n | 0 <= n < |t| ensures Decides(t, n) ==
      if InAlready(t[n]) then Some(if t[n].answer == Landed then Confirmed(sig) else FailedWith(sig)) else None
    {
      OnlyStatusDecides(lastValid, sig, polls, n);
    }
    assert t + [last] == SignedAnd(lastValid, sig, polls + [last]);
    forall n | 0 <= n < |t + [last]| ensures Decides(t + [last], n) ==
      if InAlready((t + [last])[n]) then
        Some(if (t + [last])[n].answer == Landed then Confirmed(sig) else FailedWith(sig))
      else None
    {
      OnlyStatusDecides(lastValid, sig, polls + [last], n);
    }
    assert forall n :: 2 <= n < |t| ==> t[n] == polls[n - 2];
    Asks(lastValid, sig, polls, last, maxPolls, poll);
    hide AttemptAsks;
  }

  function AfterLook(sig: Sig, a: Answer): Outcome {
    if a == Landed then Confirmed(sig) else if a == Failed then FailedWith(sig) else Unconfirmed
  }

  lemma Asks(lastValid: nat, sig: Sig, polls: seq<Asked>, last: Asked, maxPolls: int, poll: Poll)
    requires PollsAre(polls, sig, lastValid, maxPolls, poll) && last.query == StatusOf(sig, true)
    ensures (poll == Expired || poll == RanOut) && (last.answer == NotYet || last.answer == Threw) ==>
      AttemptAsks(SignedAnd(lastValid, sig, polls) + [last], sig, maxPolls, End(poll == Expired, last.answer == NotYet))
  {
    var t := SignedAnd(lastValid, sig, polls) + [last];
    assert t[2..|t| - 1] == polls;
    hide StatusPolls, Rebroadcasts;
  }

  // An attempt that came to nothing, and what the rest of the call comes to.
  lemma OutcomeJoins(a: seq<Asked>, b: seq<Asked>, outcome: Outcome)
    requires OutcomeIs(a, Unconfirmed) && OutcomeIs(b, outcome) && (b != [] ==> b[0].query == LatestBlockhash)
    ensures OutcomeIs(a + b, outcome)
  {
    var t := a + b;
    forall n | 0 <= n < |t| ensures Decides(t, n) == if n < |a| then Decides(a, n) else Decides(b, n - |a|) {
      assert n < |a| ==> t[n] == a[n] && (n > 0 ==> t[n - 1] == a[n - 1]);
      assert n > |a| ==> t[n - 1] == b[n - |a| - 1];
    }
    hide Decides;
    forall n | 0 <= n < |t| && Decides(t, n).Some? ensures n == |t| - 1 && outcome == Decides(t, n).value {
      assert n < |a| ==> Decides(a, n).Some? && Decides(a, n).value == Unconfirmed;
    }
  }

  // The call is what its answers make it. Its outcome is that of the first answer that decides anything, with which it
  // ends: a status that is in confirms or fails the signing it was asked of. If no answer decides, all builds are used.
  lemma {:induction false} CallDecides(env: Cluster, w: Progress, maxBuilds: int, maxPolls: int)
    requires Valid(w.chain)
    ensures
      var (v, outcome) := Builds(env, w, maxBuilds, maxPolls);
      && w.asked <= v.asked && OutcomeIs(Since(w, v), outcome)
      && (Since(w, v) != [] ==> Since(w, v)[0].query == LatestBlockhash)
      && (outcome == Unconfirmed ==> |v.ends| == |w.ends| + Positive(maxBuilds))
    decreases maxBuilds
  {
    hide Builds, Attempt, Decides, OutcomeIs, Valid, AttemptAsks, Of;
    BuildsUnrolled(env, w, maxBuilds, maxPolls);
    if maxBuilds <= 0 {
      assert Since(w, w) == [];
      NothingAsked();
    } else {
      AttemptDecides(env, w, maxPolls);
      AttemptIsSound(env, w, maxPolls);
      var (u, outcome) := Attempt(env, w, maxPolls);
      if outcome == Unconfirmed {
        CallDecides(env, u, maxBuilds - 1, maxPolls);
        var (v, final) := Builds(env, u, maxBuilds - 1, maxPolls);
        SinceJoins(w, u, v);
        OutcomeJoins(Since(w, u), Since(u, v), final);
      }
    }
  }

  lemma NothingAsked()
    ensures OutcomeIs([], Unconfirmed)
  {
  }

  // So a signature is returned if and only if some status asked for was answered as landed, or reported as failed if
  // and only if one was answered with an error; and it is the latest signing's, which did land so.
  lemma ConfirmedExactly(env: Cluster, start: Progress, maxBuilds: int, maxPolls: int)
    requires Valid(start.chain)
    ensures
      var (w, outcome) := Builds(env, start, maxBuilds, maxPolls);
      && start.asked <= w.asked
      && var t := Since(start, w);
         && (outcome.Confirmed? <==> exists n :: 0 <= n < |t| && t[n].query.StatusOf? && t[n].answer == Landed)
         && (outcome.FailedWith? <==> exists n :: 0 <= n < |t| && t[n].query.StatusOf? && t[n].answer == Failed)
         && (outcome.Confirmed? || outcome.FailedWith? ==>
               && t != [] && t[|t| - 1].query.StatusOf? && t[|t| - 1].query.sig == outcome.sig
               && outcome.sig == |w.chain.lastValid| - 1 >= |start.chain.lastValid|
               && outcome.sig in w.chain.landed && w.chain.landed[outcome.sig] == outcome.FailedWith?)
  {
    CallDecides(env, start, maxBuilds, maxPolls);
    CallIsSound(env, start, maxBuilds, maxPolls);
    var (w, outcome) := Builds(env, start, maxBuilds, maxPolls);
    hide Builds, Decides, OutcomeIs, Valid, CanLand;
    OutcomeShows(Since(start, w), outcome);
  }

  lemma OutcomeShows(t: seq<Asked>, outcome: Outcome)
    requires OutcomeIs(t, outcome)
    ensures outcome.Confirmed? <==> exists n :: 0 <= n < |t| && t[n].query.StatusOf? && t[n].answer == Landed
    ensures outcome.FailedWith? <==> exists n :: 0 <= n < |t| && t[n].query.StatusOf? && t[n].answer == Failed
    ensures outcome.Confirmed? || outcome.FailedWith? ==>
      t != [] && t[|t| - 1].query.StatusOf? && t[|t| - 1].query.sig == outcome.sig
  {
    forall n | 0 <= n < |t| && t[n].query.StatusOf? && (t[n].answer == Landed || t[n].answer == Failed)
      ensures outcome == if t[n].answer == Landed then Confirmed(t[n].query.sig) else FailedWith(t[n].query.sig)
    {
      assert Decides(t, n).Some?;
    }
  }

  // Whatever the budgets, against this cluster, whose first status says that the first signing is in, the call ends
  // with the signature, or with its failure.
  function PromptCluster(failed: bool): Cluster {
    call =>
      if call == 0 then Reply(Chain(0, [], {}, map[]), Blockhash(160))
      else if call == 1 then Reply(Chain(0, [], {}, map[]), Sent)
      else Reply(Chain(10, [160], {0}, map[0 := failed]), if failed then Failed else Landed)
  }

  lemma PromptlyConfirms(failed: bool, maxBuilds: int, maxPolls: int)
    requires maxBuilds > 0
    ensures Builds(PromptCluster(failed), FreshStart(), maxBuilds, maxPolls).1 ==
      if failed then FailedWith(0) else Confirmed(0)
  {
    var env, c := PromptCluster(failed), Chain(10, [160], {0}, map[0 := failed]);
    var w1 := Answered(FreshStart(), Chain(10, [], {}, map[]), LatestBlockhash, Blockhash(160));
    var w2 := Answered(Signed(w1, 160), Chain(10, [160], {0}, map[]), Send(0), Sent);
    assert {} + {0 as Sig} == {0} && [] + [160 as nat] == [160];
    AskStandsStill(env, FreshStart(), LatestBlockhash);
    AskStandsStill(env, Signed(w1, 160), Send(0));
    var answer := if failed then Failed else Landed;
    assert Ask(env, w2, StatusOf(0, false)) == (Answered(w2, c, StatusOf(0, false), answer), answer);
    assert Ask(env, w2, StatusOf(0, true)) == (Answered(w2, c, StatusOf(0, true), answer), answer);
    hide Ask;
    FirstPoll(env, w2, 160, maxPolls, answer);
    hide Polls;
    assert Attempt(env, FreshStart(), maxPolls).1 == if failed then FailedWith(0) else Confirmed(0);
    BuildsUnrolled(env, FreshStart(), maxBuilds, maxPolls);
  }

  lemma FirstPoll(env: Cluster, w: Progress, lastValid: nat, polls: int, answer: Answer)
    requires Ask(env, w, StatusOf(0, false)).1 == answer && (answer == Landed || answer == Failed)
    ensures var poll := Polls(env, w, 0, lastValid, polls).1;
      if polls > 0 then poll == if answer == Landed then Done else FailedOnChain
      else Polls(env, w, 0, lastValid, polls) == (w, RanOut)
  {
    hide Ask;
  }

  // ---------- what a careless end costs ----------

  // Against this cluster the call's first attempt ends with `end`, and its first two signings both land in the end.
  ghost predicate LandsTwice(env: Cluster, start: Progress, end: End, maxBuilds: int, maxPolls: int, later: Chain) {
    var w, first := Builds(env, start, maxBuilds, maxPolls).0, |start.chain.lastValid|;
    && Valid(start.chain) && start.ends == []
    && w.ends != [] && w.ends[0] == end
    && Moves(w.chain, later) && first in later.landed && first + 1 in later.landed
  }

  // For every budget of builds and polls, and every way an attempt can end in another signing, some cluster lands both
  // exactly if the blockhash was not seen to expire or the search of the history was not answered.
  lemma CarelessEndsLandTwice(end: End, maxBuilds: int, maxPolls: int)
    requires maxBuilds >= 2 && (end.expired ==> maxPolls > 0)
    ensures (exists env: Cluster, start, later :: LandsTwice(env, start, end, maxBuilds, maxPolls, later))
      <==> !Careful(end)
  {
    if Careful(end) {
      forall env: Cluster, start, later ensures !LandsTwice(env, start, end, maxBuilds, maxPolls, later) {
        CarefulLandsOnce(env, start, end, maxBuilds, maxPolls, later);
      }
    } else {
      var env, start, later := SomeClusterLandsBoth(end, maxBuilds, maxPolls);
    }
  }

  lemma CarefulLandsOnce(env: Cluster, start: Progress, end: End, maxBuilds: int, maxPolls: int, later: Chain)
    requires Careful(end)
    ensures !LandsTwice(env, start, end, maxBuilds, maxPolls, later)
  {
    if Valid(start.chain) {
      CallIsSound(env, start, maxBuilds, maxPolls);
    }
    var w, first := Builds(env, start, maxBuilds, maxPolls).0, |start.chain.lastValid|;
    hide Builds, Valid;
    if Moves(w.chain, later) && first in later.landed {
      assert CanLand(w.chain, first);
    }
  }

  function FreshStart(): Progress {
    Progress(Chain(10, [], {}, map[]), 0, 0, [], [])
  }

  // A cluster for each careless end. It answers the two signings and little else: it throws on every status poll; or,
  // so that the blockhash is seen to expire, it lands the first signing unseen and throws on the search.
  function CarelessCluster(end: End, polls: nat): Cluster {
    var idle := Chain(0, [], {}, map[]);
    if end.expired then
      call =>
        if call == 0 then Reply(idle, Blockhash(160))
        else if call == 2 then Reply(Chain(200, [160], {0}, map[0 := false]), NotYet)
        else if call == 3 then Reply(idle, Height(200))
        else if call == 5 then Reply(idle, Blockhash(400))
        else if call == 1 || call == 6 then Reply(idle, Sent)
        else Reply(idle, Threw)
    else
      call =>
        if call == 0 then Reply(idle, Blockhash(160))
        else if call == polls + 2 then Reply(idle, if end.answered then NotYet else Threw)
        else if call == polls + 3 then Reply(idle, Blockhash(400))
        else if call == 1 || call == polls + 4 then Reply(idle, Sent)
        else Reply(idle, Threw)
  }

  lemma {:induction false} PollsThrow(env: Cluster, w: Progress, sig: Sig, lastValid: nat, polls: int)
    requires forall n :: w.calls <= n < w.calls + Positive(polls) ==>
      env(n).answer.Threw? && env(n).chain.height < w.chain.height
    ensures Polls(env, w, sig, lastValid, polls) == (Unpolled(w, sig, Positive(polls)), RanOut)
    decreases polls
  {
    if polls > 0 {
      var v := Answered(w, w.chain, StatusOf(sig, false), Threw);
      assert PollOnce(env, w, sig, lastValid) == (v, Again) by {
        assert env(w.calls).answer.Threw?;
      }
      PollsThrow(env, v, sig, lastValid, polls - 1);
      assert Unpolled(v, sig, polls - 1).asked == Unpolled(w, sig, polls).asked;
    } else {
      assert Unpolled(w, sig, 0).asked == w.asked;
    }
  }

  // After so many polls that threw.
  function Unpolled(w: Progress, sig: Sig, polls: nat): Progress {
    w.(calls := w.calls + polls, asked := w.asked + seq(polls, _ => Asked(StatusOf(sig, false), Threw)))
  }

  // A call during which the chain stands still.
  lemma AskStandsStill(env: Cluster, w: Progress, q: Query)
    requires env(w.calls).chain.height < w.chain.height
    ensures var c := if q.Send? then w.chain.(sent := w.chain.sent + {q.sig}) else w.chain;
      var a := if Truthful(c, q, env(w.calls).answer) then env(w.calls).answer else Threw;
      Ask(env, w, q) == (Answered(w, c, q, a), a)
  {
  }

  lemma AttemptEnds(env: Cluster, w: Progress, w1: Progress, hash: nat, w2: Progress, w3: Progress, poll: Poll,
                    w4: Progress, last: Answer, maxPolls: int)
    requires Ask(env, w, LatestBlockhash) == (w1, Blockhash(hash))
    requires Ask(env, Signed(w1, hash), Send(|w1.chain.lastValid|)) == (w2, Sent)
    requires Polls(env, w2, |w1.chain.lastValid|, hash, maxPolls) == (w3, poll) && (poll.RanOut? || poll.Expired?)
    requires Ask(env, w3, StatusOf(|w1.chain.lastValid|, true)) == (w4, last) && (last.NotYet? || last.Threw?)
    ensures Attempt(env, w, maxPolls) == (w4.(ends := w4.ends + [End(poll.Expired?, !last.Threw?)]), Unconfirmed)
  {
    hide Ask, Polls;
  }

  // A first attempt that runs out of polls, each of which throws.
  lemma RunsOut(answered: bool, maxPolls: int) returns (w: Progress)
    ensures Attempt(CarelessCluster(End(false, answered), Positive(maxPolls)), FreshStart(), maxPolls) == (w, Unconfirmed)
    ensures w.ends == [End(false, answered)] && w.calls == Positive(maxPolls) + 3
    ensures w.chain == Chain(10, [160], {0}, map[])
  {
    var polls := Positive(maxPolls);
    var env := CarelessCluster(End(false, answered), polls);
    var w1 := Answered(FreshStart(), Chain(10, [], {}, map[]), LatestBlockhash, Blockhash(160));
    var w2 := Answered(Signed(w1, 160), Chain(10, [160], {0}, map[]), Send(0), Sent);
    assert {} + {0 as Sig} == {0} && [] + [160 as nat] == [160];
    AskStandsStill(env, FreshStart(), LatestBlockhash);
    AskStandsStill(env, Signed(w1, 160), Send(0));
    PollsThrow(env, w2, 0, 160, maxPolls);
    var last := if answered then NotYet else Threw;
    var w3 := Unpolled(w2, 0, polls);
    var w4 := Answered(w3, w3.chain, StatusOf(0, true), last);
    AskStandsStill(env, w3, StatusOf(0, true));
    hide Ask, Polls;
    AttemptEnds(env, FreshStart(), w1, 160, w2, w3, RanOut, w4, last, maxPolls);
    w := w4.(ends := [End(false, answered)]);
    assert [] + [End(false, answered)] == w.ends;
  }

  // A first attempt that sees its blockhash expire after the transaction has landed, and whose search throws.
  lemma SearchThrows(maxPolls: int) returns (w: Progress)
    requires maxPolls > 0
    ensures Attempt(CarelessCluster(End(true, false), Positive(maxPolls)), FreshStart(), maxPolls) == (w, Unconfirmed)
    ensures w.ends == [End(true, false)] && w.calls == 5
    ensures w.chain == Chain(200, [160], {0}, map[0 := false])
  {
    var env, c := CarelessCluster(End(true, false), Positive(maxPolls)), Chain(200, [160], {0}, map[0 := false]);
    var w1 := Answered(FreshStart(), Chain(10, [], {}, map[]), LatestBlockhash, Blockhash(160));
    var w2 := Answered(Signed(w1, 160), Chain(10, [160], {0}, map[]), Send(0), Sent);
    assert {} + {0 as Sig} == {0} && [] + [160 as nat] == [160];
    AskStandsStill(env, FreshStart(), LatestBlockhash);
    AskStandsStill(env, Signed(w1, 160), Send(0));
    var w3 := Answered(w2, c, StatusOf(0, false), NotYet);
    var w4 := Answered(w3, c, BlockHeight, Height(200));
    var w5 := Answered(w4, c, StatusOf(0, true), Threw);
    assert Ask(env, w2, StatusOf(0, false)) == (w3, NotYet);
    AskStandsStill(env, w3, BlockHeight);
    AskStandsStill(env, w4, StatusOf(0, true));
    hide Ask;
    assert Polls(env, w2, 0, 160, maxPolls) == (w4, Expired);
    hide Polls;
    AttemptEnds(env, FreshStart(), w1, 160, w2, w4, Expired, w5, Threw, maxPolls);
    w := w5.(ends := [End(true, false)]);
    assert [] + [End(true, false)] == w.ends;
  }

  // An attempt that signs and sends, and hears nothing more.
  lemma UnheardAttempt(env: Cluster, w: Progress, maxPolls: int) returns (v: Progress)
    requires 0 < w.chain.height < 400
    requires env(w.calls).answer == Blockhash(400) && env(w.calls + 1).answer == Sent
    requires forall n :: w.calls + 2 <= n ==> env(n).answer.Threw?
    requires forall n :: w.calls <= n ==> env(n).chain.height == 0
    ensures Attempt(env, w, maxPolls) == (v, Unconfirmed)
    ensures v.chain == Signed(w, 400).chain.(sent := w.chain.sent + {|w.chain.lastValid|})
    ensures v.calls >= w.calls + 2 && v.ends == w.ends + [End(false, false)]
  {
    var sig := |w.chain.lastValid|;
    var w1 := Answered(w, w.chain, LatestBlockhash, Blockhash(400));
    AskStandsStill(env, w, LatestBlockhash);
    AskStandsStill(env, Signed(w1, 400), Send(sig));
    var w2 := Ask(env, Signed(w1, 400), Send(sig)).0;
    PollsThrow(env, w2, sig, 400, maxPolls);
    var w3 := Unpolled(w2, sig, Positive(maxPolls));
    AskStandsStill(env, w3, StatusOf(sig, true));
    var w4 := Answered(w3, w3.chain, StatusOf(sig, true), Threw);
    hide Ask, Polls;
    AttemptEnds(env, w, w1, 400, w2, w3, RanOut, w4, Threw, maxPolls);
    v := w4.(ends := w4.ends + [End(false, false)]);
  }

  // Whatever builds are left after it, such an attempt's signing is the call's last.
  lemma NothingMore(env: Cluster, w: Progress, maxBuilds: int, maxPolls: int)
    requires w.chain.height > 0 && env(w.calls).answer.Threw? && env(w.calls).chain.height == 0
    ensures var v := Builds(env, w, maxBuilds, maxPolls).0; v.chain == w.chain && v.ends == w.ends
  {
    BuildsUnrolled(env, w, maxBuilds, maxPolls);
    AskStandsStill(env, w, LatestBlockhash);
    hide Builds, Ask, Polls;
  }

  // A call whose first two attempts ask for another signing, and that then hears nothing.
  lemma TwoAttempts(env: Cluster, start: Progress, w1: Progress, w2: Progress, maxBuilds: int, maxPolls: int)
    requires maxBuilds >= 2 && w2.chain.height > 0 && env(w2.calls).answer.Threw? && env(w2.calls).chain.height == 0
    requires Attempt(env, start, maxPolls) == (w1, Unconfirmed) && Attempt(env, w1, maxPolls) == (w2, Unconfirmed)
    ensures var w := Builds(env, start, maxBuilds, maxPolls).0; w.chain == w2.chain && w.ends == w2.ends
  {
    BuildsUnrolled(env, start, maxBuilds, maxPolls);
    BuildsUnrolled(env, w1, maxBuilds - 1, maxPolls);
    NothingMore(env, w2, maxBuilds - 2, maxPolls);
    hide Builds, Attempt;
  }

  lemma BothStillLand(c: Chain)
    requires Valid(c) && c.sent == {0, 1} && |c.lastValid| == 2
    requires 0 in c.landed || c.height <= c.lastValid[0]
    requires c.height <= c.lastValid[1]
    ensures exists later :: Moves(c, later) && 0 in later.landed && 1 in later.landed
  {
    BothLandExactly(c, 0, 1);
  }

  lemma SecondSigningUnheard(end: End, polls: nat)
    ensures var env, calls := CarelessCluster(end, polls), if end.expired then 5 else polls + 3;
      && env(calls).answer == Blockhash(400) && env(calls + 1).answer == Sent
      && (forall n :: calls + 2 <= n ==> env(n).answer.Threw?)
      && (forall n :: calls <= n ==> env(n).chain.height == 0)
  {
  }

  lemma SomeClusterLandsBoth(end: End, maxBuilds: int, maxPolls: int)
    returns (env: Cluster, start: Progress, later: Chain)
    requires !Careful(end) && maxBuilds >= 2 && (end.expired ==> maxPolls > 0)
    ensures LandsTwice(env, start, end, maxBuilds, maxPolls, later)
  {
    hide CarelessCluster, Attempt, Builds, Moves;
    env, start := CarelessCluster(end, Positive(maxPolls)), FreshStart();
    SecondSigningUnheard(end, Positive(maxPolls));
    var w1;
    if end.expired {
      w1 := SearchThrows(maxPolls);
    } else {
      w1 := RunsOut(end.answered, maxPolls);
    }
    var w2 := UnheardAttempt(env, w1, maxPolls);
    TwoAttempts(env, start, w1, w2, maxBuilds, maxPolls);
    BothStillLand(w2.chain);
    later :| Moves(w2.chain, later) && 0 in later.landed && 1 in later.landed;
    assert w2.ends[0] == end;
  }
}
