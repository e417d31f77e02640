// Storing waitlist submissions in a blob store that never overwrites, and loading them back with a pool of workers.
module WaitlistStore {
  import opened Numbers
  import opened Waitlist

  // The first submission of an email, and the later ones beside it; all submissions without one share a path.
  datatype Path = First(email: Option<Address>) | Later(email: Option<Address>, at: int, id: nat)

  type RequestId = nat

  // Where one `saveEntry` is.
  datatype Phase =
    | Claiming(entry: Submission)     // about to put the first-submission blob
    | Looking(entry: Submission)      // that put failed: is the blob there?
    | PuttingAside(entry: Submission)
    | Saved(entry: Submission)
    | SaveThrew(entry: Submission)

  datatype System = System(blobs: map<Path, Submission>, requests: map<RequestId, Phase>)

  // How a put that must not overwrite ends. An unclear failure may have written the blob all the same.
  datatype PutAnswer = Created | Exists | Unclear(wrote: bool)

  datatype Step =
    | Submit(request: RequestId, entry: Submission)
    | Put(request: RequestId, answer: PutAnswer)
    | Look(request: RequestId, answered: bool)

  // A put never changes a blob that exists.
  function Stored(blobs: map<Path, Submission>, path: Path, entry: Submission, answer: PutAnswer)
    : Option<map<Path, Submission>>
  {
    match answer
    case Created => if path in blobs then None else Some(blobs[path := entry])
    case Exists => if path in blobs then Some(blobs) else None
    case Unclear(wrote) => Some(if wrote && path !in blobs then blobs[path := entry] else blobs)
  }

  function AsidePath(entry: Submission): Path {
    Later(entry.email, entry.at, entry.id)
  }

  function Next(s: System, step: Step): Option<System> {
    match step
    case Submit(r, entry) =>
      if r in s.requests then None else Some(s.(requests := s.requests[r := Claiming(entry)]))
    case Put(r, answer) =>
      if r !in s.requests then None
      else
        (match s.requests[r]
         case Claiming(entry) =>
           (match Stored(s.blobs, First(entry.email), entry, answer)
            case None => None
            case Some(blobs) =>
              Some(System(blobs, s.requests[r := if answer.Created? then Saved(entry) else Looking(entry)])))
         case PuttingAside(entry) =>
           (match Stored(s.blobs, AsidePath(entry), entry, answer)
            case None => None
            case Some(blobs) =>
              Some(System(blobs, s.requests[r := if answer.Created? then Saved(entry) else SaveThrew(entry)])))
         case _ => None)
    case Look(r, answered) =>
      if r !in s.requests then None
      else
        match s.requests[r]
        case Looking(entry) =>
          Some(s.(requests := s.requests[r :=
            if answered && First(entry.email) in s.blobs then PuttingAside(entry) else SaveThrew(entry)]))
        case _ => None
  }

  function Run(s: System, run: seq<Step>): Option<System> {
    if run == [] then Some(s)
    else
      match Run(s, run[..|run| - 1])
      case None => None
      case Some(t) => Next(t, run[|run| - 1])
  }

  predicate SubmittedIn(requests: map<RequestId, Phase>, entry: Submission) {
    exists r :: r in requests && requests[r].entry == entry
  }

  predicate InStore(blobs: map<Path, Submission>, entry: Submission) {
    exists p :: p in blobs && blobs[p] == entry
  }

  predicate Placed(path: Path, entry: Submission) {
    path == First(entry.email) || path == AsidePath(entry)
  }

  // ---------- what any interleaving keeps ----------

  // Every blob holds a submission somebody made, under its own path; whoever was told it is saved has a blob.
  ghost predicate Inv(s: System) {
    && (forall p :: p in s.blobs ==>
          SubmittedIn(s.requests, s.blobs[p]) && Placed(p, s.blobs[p]))
    && (forall r :: r in s.requests && s.requests[r].Saved? ==> InStore(s.blobs, s.requests[r].entry))
  }

  // Blobs are never overwritten, and requests keep their submission.
  ghost predicate Grows(s: System, t: System) {
    && (forall p :: p in s.blobs ==> p in t.blobs && t.blobs[p] == s.blobs[p])
    && (forall r :: r in s.requests ==> r in t.requests && t.requests[r].entry == s.requests[r].entry)
    && (forall r :: r in s.requests && s.requests[r].Saved? ==> t.requests[r].Saved?)
  }

  lemma StepGrows(s: System, step: Step)
    requires Next(s, step).Some?
    ensures Grows(s, Next(s, step).value)
  {
  }

  // A step writes at most one blob, under the path of the request's own submission, and saves at most that request.
  lemma StepWrites(s: System, step: Step, t: System)
    requires Next(s, step) == Some(t)
    ensures step.request in t.requests
    ensures forall p :: p in t.blobs && p !in s.blobs ==>
      t.blobs[p] == t.requests[step.request].entry && Placed(p, t.blobs[p])
    ensures forall r :: r in t.requests && t.requests[r].Saved? && !(r in s.requests && s.requests[r].Saved?) ==>
      InStore(t.blobs, t.requests[r].entry)
  {
  }

  lemma StepKeepsInv(s: System, step: Step)
    requires Inv(s) && Next(s, step).Some?
    ensures Inv(Next(s, step).value)
  {
    var t := Next(s, step).value;
    StepGrows(s, step);
    StepWrites(s, step, t);
    hide Next, Placed;
    forall p | p in t.blobs ensures SubmittedIn(t.requests, t.blobs[p]) && Placed(p, t.blobs[p]) {
      if p in s.blobs {
        var r :| r in s.requests && s.requests[r].entry == s.blobs[p];
        assert t.requests[r].entry == t.blobs[p];
      } else {
        assert t.requests[step.request].entry == t.blobs[p];
      }
    }
    forall r | r in t.requests && t.requests[r].Saved? ensures InStore(t.blobs, t.requests[r].entry) {
      if r in s.requests && s.requests[r].Saved? {
        var p :| p in s.blobs && s.blobs[p] == s.requests[r].entry;
        assert t.blobs[p] == t.requests[r].entry;
      }
    }
  }

  lemma {:induction false} RunKeepsInv(s: System, run: seq<Step>)
    requires Inv(s) && Run(s, run).Some?
    ensures Inv(Run(s, run).value)
  {
    if run != [] {
      RunKeepsInv(s, run[..|run| - 1]);
      StepKeepsInv(Run(s, run[..|run| - 1]).value, run[|run| - 1]);
    }
  }

  // However saves interleave, no blob is ever overwritten.
  lemma {:induction false} NeverOverwritten(s: System, run: seq<Step>, path: Path)
    requires Run(s, run).Some? && path in s.blobs
    ensures path in Run(s, run).value.blobs && Run(s, run).value.blobs[path] == s.blobs[path]
  {
    if run != [] {
      NeverOverwritten(s, run[..|run| - 1], path);
      StepGrows(Run(s, run[..|run| - 1]).value, run[|run| - 1]);
    }
  }

  const EMPTY: System := System(map[], map[])

  // Nothing acknowledged is lost, nothing is stored that nobody submitted, and a submission is stored at most twice.
  lemma NothingLostNothingInvented(run: seq<Step>)
    requires Run(EMPTY, run).Some?
    ensures var s := Run(EMPTY, run).value;
      && (forall r :: r in s.requests && s.requests[r].Saved? ==> InStore(s.blobs, s.requests[r].entry))
      && (forall p :: p in s.blobs ==> SubmittedIn(s.requests, s.blobs[p]))
      && (forall p :: p in s.blobs ==> p == First(s.blobs[p].email) || p == AsidePath(s.blobs[p]))
  {
    RunKeepsInv(EMPTY, run);
  }

  // A put that wrote but reported failure stores the same submission a second time.
  lemma StoredTwice(entry: Submission)
    ensures var run := [Submit(0, entry), Put(0, Unclear(true)), Look(0, true), Put(0, Created)];
      Run(EMPTY, run) == Some(System(
        map[First(entry.email) := entry, AsidePath(entry) := entry], map[0 := Saved(entry)]))
  {
    var first := map[First(entry.email) := entry];
    var s0, s1, s2, s3 := System(map[], map[0 := Claiming(entry)]), System(first, map[0 := Looking(entry)]),
      System(first, map[0 := PuttingAside(entry)]),
      System(first[AsidePath(entry) := entry], map[0 := Saved(entry)]);
    TwiceSteps(entry, first);
    hide Next;
    var run := [Submit(0, entry), Put(0, Unclear(true)), Look(0, true), Put(0, Created)];
    Extend(run, 0, EMPTY, s0);
    Extend(run, 1, s0, s1);
    Extend(run, 2, s1, s2);
    Extend(run, 3, s2, s3);
    assert run[..4] == run;
  }

  lemma TwiceSteps(entry: Submission, first: map<Path, Submission>)
    requires first == map[First(entry.email) := entry]
    ensures Next(EMPTY, Submit(0, entry)) == Some(System(map[], map[0 := Claiming(entry)]))
    ensures Next(System(map[], map[0 := Claiming(entry)]), Put(0, Unclear(true))) ==
      Some(System(first, map[0 := Looking(entry)]))
    ensures Next(System(first, map[0 := Looking(entry)]), Look(0, true)) ==
      Some(System(first, map[0 := PuttingAside(entry)]))
    ensures Next(System(first, map[0 := PuttingAside(entry)]), Put(0, Created)) ==
      Some(System(first[AsidePath(entry) := entry], map[0 := Saved(entry)]))
  {
    assert map[0 := Claiming(entry)][0 := Looking(entry)] == map[0 := Looking(entry)];
    assert map[0 := Looking(entry)][0 := PuttingAside(entry)] == map[0 := PuttingAside(entry)];
    assert map[0 := PuttingAside(entry)][0 := Saved(entry)] == map[0 := Saved(entry)];
  }

  lemma Extend(run: seq<Step>, i: nat, s: System, t: System)
    requires i < |run| && Run(EMPTY, run[..i]) == Some(s) && Next(s, run[i]) == Some(t)
    ensures Run(EMPTY, run[..i + 1]) == Some(t)
  {
    assert run[..i + 1][..i] == run[..i];
  }

  // A save whose first path is free takes it; one whose first path is taken goes beside it, under its own time and id;
  // and it throws exactly if that put fails too, or no blob is found at the first path after all.
  lemma TakenGoesAside(s: System, r: RequestId, entry: Submission)
    requires r in s.requests
    ensures s.requests[r] == Claiming(entry) && First(entry.email) !in s.blobs ==>
      Next(s, Put(r, Created)) == Some(System(s.blobs[First(entry.email) := entry], s.requests[r := Saved(entry)]))
    ensures s.requests[r] == Claiming(entry) && First(entry.email) in s.blobs ==>
      && Next(s, Put(r, Exists)) == Some(System(s.blobs, s.requests[r := Looking(entry)]))
      && Next(s, Put(r, Created)) == None
    ensures s.requests[r] == Looking(entry) ==>
      forall answered :: Next(s, Look(r, answered)) == Some(System(s.blobs, s.requests[r :=
        if answered && First(entry.email) in s.blobs then PuttingAside(entry) else SaveThrew(entry)]))
    ensures s.requests[r] == PuttingAside(entry) ==>
      var beside := Later(entry.email, entry.at, entry.id);
      && (beside !in s.blobs ==>
            Next(s, Put(r, Created)) == Some(System(s.blobs[beside := entry], s.requests[r := Saved(entry)])))
      && (beside in s.blobs ==> Next(s, Put(r, Exists)) == Some(System(s.blobs, s.requests[r := SaveThrew(entry)])))
  {
  }

  // ---------- loading ----------

  function Mapped<T, R>(items: seq<T>, fn: T -> R): (out: seq<R>) {
    seq(|items|, i requires 0 <= i < |items| => fn(items[i]))
  }

  // `mapLimit`: the workers share `next`, and whichever the scheduler picks takes the next item or delivers the one it
  // has in flight. However they interleave, the results keep the order of the items.
  method MapLimit<T, R(0)>(items: seq<T>, limit: nat, fn: T -> R) returns (out: array<R>)
    requires limit > 0
    ensures fresh(out) && out[..] == Mapped(items, fn)
  {
    out := new R[|items|];
    var next := 0;
    var workers := if limit < |items| then limit else |items|;
    var inFlight: set<nat> := {};
    while next < |items| || inFlight != {}
      invariant 0 <= next <= |items| == out.Length && |inFlight| <= workers
      invariant forall i :: i in inFlight ==> i < next
      invariant forall i :: 0 <= i < next && i !in inFlight ==> out[i] == fn(items[i])
      decreases 2 * (|items| - next) + |inFlight|
    {
      var idle: bool := *;
      if inFlight == {} || (idle && |inFlight| < workers && next < |items|) {
        inFlight := inFlight + {next};
        next := next + 1;
      } else {
        var i :| i in inFlight;
        out[i] := fn(items[i]);
        inFlight := inFlight - {i};
      }
    }
  }

  // What a download gives: an entry, a file that does not decrypt, or nothing after three attempts.
  datatype Download = Entry(entry: Submission) | Unreadable | DownloadFailed

  function Entries(results: seq<Download>): seq<Submission> {
    if results == [] then []
    else
      var last := results[|results| - 1];
      Entries(results[..|results| - 1]) + if last.Entry? then [last.entry] else []
  }

  // `loadEntries`, for the blobs in whatever order they were listed: every readable entry, or none at all if any file
  // could not be downloaded.
  method LoadEntries(blobs: seq<Path>, download: Path -> Download) returns (rows: Option<seq<Submission>>)
    ensures rows.None? <==> exists i :: 0 <= i < |blobs| && download(blobs[i]).DownloadFailed?
    ensures rows.Some? ==> rows.value == Sorted(Entries(Mapped(blobs, download)))
  {
    var results := MapLimit(blobs, 8, download);
    var n, kept, failed := 0, [], false;
    while n < results.Length
      invariant 0 <= n <= results.Length && kept == Entries(results[..n])
      invariant failed <==> exists i :: 0 <= i < n && download(blobs[i]).DownloadFailed?
    {
      match results[n] {
        case Entry(entry) => kept := kept + [entry];
        case Unreadable =>
        case DownloadFailed => failed := true;
      }
      assert results[..n + 1][..n] == results[..n];
      n := n + 1;
    }
    assert results[..n] == results[..];
    rows := if failed then None else Some(Sorted(kept));
  }

  lemma {:induction false} EntriesHold(results: seq<Download>, entry: Submission)
    ensures entry in Entries(results) <==> Entry(entry) in results
  {
    if results != [] {
      EntriesHold(results[..|results| - 1], entry);
      assert results == results[..|results| - 1] + [results[|results| - 1]];
    }
  }

  // In whatever order the store lists its blobs, the export is that of the submissions it holds, each taken once.
  lemma ExportsTheSet(blobs: map<Path, Submission>, listed: seq<Path>, download: Path -> Download, unique: seq<Submission>)
    requires forall p :: p in listed <==> p in blobs
    requires forall p :: p in blobs ==> download(p) == Entry(blobs[p])
    requires TimesDiffer(unique) && forall x :: x in unique <==> InStore(blobs, x)
    ensures Grouped(Sorted(Sorted(Entries(Mapped(listed, download))))) == Grouped(Sorted(unique))
  {
    var rows := Entries(Mapped(listed, download));
    forall x ensures x in Sorted(rows) <==> x in unique {
      SortedAscends(rows);
      EntriesHold(Mapped(listed, download), x);
      if InStore(blobs, x) {
        var p :| p in blobs && blobs[p] == x;
        var i :| 0 <= i < |listed| && listed[i] == p;
        assert Mapped(listed, download)[i] == Entry(x);
      }
      if Entry(x) in Mapped(listed, download) {
        var i :| 0 <= i < |listed| && Mapped(listed, download)[i] == Entry(x);
        assert listed[i] in blobs;
      }
    }
    ExportIgnoresOrder(unique, Sorted(rows));
  }

  // Whoever was told their submission is saved finds what it says in the export, under their email.
  lemma SavedIsExported(run: seq<Step>, r: RequestId, listed: seq<Path>, download: Path -> Download)
    requires Run(EMPTY, run).Some?
    requires var s := Run(EMPTY, run).value;
      && r in s.requests && s.requests[r].Saved?
      && (forall p :: p in listed <==> p in s.blobs)
      && (forall p :: p in s.blobs ==> download(p) == Entry(s.blobs[p]))
    ensures Shown(Grouped(Sorted(Sorted(Entries(Mapped(listed, download))))), Run(EMPTY, run).value.requests[r].entry)
  {
    var s := Run(EMPTY, run).value;
    var entry, rows := s.requests[r].entry, Entries(Mapped(listed, download));
    NothingLostNothingInvented(run);
    var p :| p in s.blobs && s.blobs[p] == entry;
    var i :| 0 <= i < |listed| && listed[i] == p;
    assert Mapped(listed, download)[i] == Entry(entry);
    EntriesHold(Mapped(listed, download), entry);
    SortedAscends(rows);
    hide Grouped, Sorted, Shown, Run;
    SubmittedIsShown(Sorted(rows), entry);
  }
}
