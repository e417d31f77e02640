// The sliding-window rate limiter that forgets old keys, against one that remembers every hit.
module RateLimiter {
  import opened Numbers
  import Sums

  type Key = nat

  // One entry of the map, which keeps its entries in insertion order.
  datatype Entry = Entry(key: Key, times: seq<int>)

  datatype Hit = Hit(key: Key, now: int)

  datatype Options = Options(windowMs: int, max: int, maxKeys: int)

  datatype State = State(entries: seq<Entry>, lastSweep: int)

  // ---------- the specification of one call ----------

  // The times still inside the window.
  function Recent(times: seq<int>, now: int, windowMs: int): seq<int> {
    if times == [] then []
    else if now - times[0] < windowMs then [times[0]] + Recent(times[1..], now, windowMs)
    else Recent(times[1..], now, windowMs)
  }

  predicate Stale(e: Entry, now: int, windowMs: int) {
    e.times == [] || now - e.times[|e.times| - 1] >= windowMs
  }

  function Swept(entries: seq<Entry>, now: int, windowMs: int): seq<Entry> {
    if entries == [] then []
    else if Stale(entries[0], now, windowMs) then Swept(entries[1..], now, windowMs)
    else [entries[0]] + Swept(entries[1..], now, windowMs)
  }

  predicate Has(entries: seq<Entry>, key: Key) {
    exists i :: 0 <= i < |entries| && entries[i].key == key
  }

  // The times kept for a key, none if it is not tracked.
  function Find(entries: seq<Entry>, key: Key): seq<int> {
    if entries == [] then [] else if entries[0].key == key then entries[0].times else Find(entries[1..], key)
  }

  function Remove(entries: seq<Entry>, key: Key): seq<Entry> {
    if entries == [] then []
    else if entries[0].key == key then entries[1..]
    else [entries[0]] + Remove(entries[1..], key)
  }

  // Oldest entries dropped until a new key fits.
  function Evicted(entries: seq<Entry>, key: Key, maxKeys: int): seq<Entry> {
    if |entries| >= maxKeys && !Has(entries, key) && entries != [] then Evicted(entries[1..], key, maxKeys) else entries
  }

  predicate SweepsNow(s: State, now: int, o: Options) {
    now - s.lastSweep > o.windowMs || |s.entries| >= o.maxKeys
  }

  // The entries a call works on, once it has swept and made room.
  function Prepared(s: State, key: Key, now: int, o: Options): seq<Entry> {
    Evicted(if SweepsNow(s, now, o) then Swept(s.entries, now, o.windowMs) else s.entries, key, o.maxKeys)
  }

  function HitsAfter(s: State, key: Key, now: int, o: Options): seq<int> {
    Recent(Find(Prepared(s, key, now, o), key), now, o.windowMs) + [now]
  }

  function After(s: State, key: Key, now: int, o: Options): State {
    State(Remove(Prepared(s, key, now, o), key) + [Entry(key, HitsAfter(s, key, now, o))],
          if SweepsNow(s, now, o) then now else s.lastSweep)
  }

  predicate Answer(s: State, key: Key, now: int, o: Options) {
    |HitsAfter(s, key, now, o)| > o.max
  }

  // ---------- the limiter itself ----------

  class Limiter {
    const windowMs: int
    const max: int
    const maxKeys: int
    var hits: seq<Entry>
    var lastSweep: int

    constructor (o: Options)
      ensures Opts() == o && Abstract() == State([], 0)
    {
      windowMs, max, maxKeys := o.windowMs, o.max, o.maxKeys;
      hits, lastSweep := [], 0;
    }

    function Opts(): Options {
      Options(windowMs, max, maxKeys)
    }

    function Abstract(): State
      reads this
    {
      State(hits, lastSweep)
    }

    method Sweep(now: int)
      modifies this
      ensures Abstract() == State(Swept(old(hits), now, windowMs), now)
    {
      var kept, i := [], 0;
      while i < |hits|
        invariant 0 <= i <= |hits| && hits == old(hits)
        invariant Swept(hits, now, windowMs) == kept + Swept(hits[i..], now, windowMs)
      {
        if hits[i].times != [] && now - hits[i].times[|hits[i].times| - 1] < windowMs {
          kept := kept + [hits[i]];
        }
        i := i + 1;
      }
      hits, lastSweep := kept, now;
    }

    // The times kept for `key` that are still in the window.
    method RecentFor(key: Key, now: int) returns (recent: seq<int>)
      ensures recent == Recent(Find(hits, key), now, windowMs)
    {
      var times, i := Find(hits, key), 0;
      recent := [];
      while i < |times|
        invariant 0 <= i <= |times|
        invariant Recent(times, now, windowMs) == recent + Recent(times[i..], now, windowMs)
      {
        if now - times[i] < windowMs {
          recent := recent + [times[i]];
        }
        i := i + 1;
      }
    }

    // One request of `key` at `now`: true if it is to be turned away.
    method Limited(key: Key, now: int) returns (over: bool)
      modifies this
      ensures Abstract() == After(old(Abstract()), key, now, Opts())
      ensures over == Answer(old(Abstract()), key, now, Opts())
    {
      if now - lastSweep > windowMs || |hits| >= maxKeys {
        Sweep(now);
      }
      ghost var swept, sweptAt := hits, lastSweep;
      while |hits| >= maxKeys && !Has(hits, key)
        invariant Evicted(swept, key, maxKeys) == Evicted(hits, key, maxKeys) && lastSweep == sweptAt
        decreases |hits|
      {
        if hits == [] {
          break;
        }
        hits := hits[1..];
      }
      var recent := RecentFor(key, now);
      recent := recent + [now];
      hits := Remove(hits, key);
      hits := hits + [Entry(key, recent)];
      over := |recent| > max;
    }
  }

  // ---------- the unbounded limiter ----------

  function TimesOf(history: seq<Hit>, key: Key): seq<int> {
    if history == [] then []
    else
      var last := history[|history| - 1];
      TimesOf(history[..|history| - 1], key) + (if last.key == key then [last.now] else [])
  }

  // It counts every earlier hit of the key inside the window, and this one.
  predicate IdealAnswer(history: seq<Hit>, key: Key, now: int, o: Options) {
    |Recent(TimesOf(history, key), now, o.windowMs)| + 1 > o.max
  }

  // That is, it turns a call away exactly if the window holds `max` earlier ones of its key or more.
  lemma IdealCounts(history: seq<Hit>, key: Key, now: int, o: Options)
    ensures IdealAnswer(history, key, now, o) <==>
      |set i | 0 <= i < |history| && history[i].key == key && now - history[i].now < o.windowMs| >= o.max
  {
    RecentCounts(history, key, now, o.windowMs);
  }

  lemma {:induction false} RecentCounts(history: seq<Hit>, key: Key, now: int, windowMs: int)
    ensures |Recent(TimesOf(history, key), now, windowMs)| ==
      |set i | 0 <= i < |history| && history[i].key == key && now - history[i].now < windowMs|
  {
    if history != [] {
      var n := |history| - 1;
      RecentCounts(history[..n], key, now, windowMs);
      OneMoreHit(history, key, now, windowMs);
      hide Recent;
      RecentJoins(TimesOf(history[..n], key), if history[n].key == key then [history[n].now] else [], now, windowMs);
      RecentOne(history[n], key, now, windowMs);
    }
  }

  lemma OneMoreHit(history: seq<Hit>, key: Key, now: int, windowMs: int)
    requires history != []
    ensures
      var n := |history| - 1;
      |set i | 0 <= i < |history| && history[i].key == key && now - history[i].now < windowMs| ==
        |set i | 0 <= i < n && history[..n][i].key == key && now - history[..n][i].now < windowMs|
          + if history[n].key == key && now - history[n].now < windowMs then 1 else 0
  {
    var n := |history| - 1;
    var before := history[..n];
    var hits := set i | 0 <= i < |history| && history[i].key == key && now - history[i].now < windowMs;
    var earlier := set i | 0 <= i < n && before[i].key == key && now - before[i].now < windowMs;
    assert hits == earlier + if history[n].key == key && now - history[n].now < windowMs then {n} else {};
  }

  lemma RecentOne(hit: Hit, key: Key, now: int, windowMs: int)
    ensures |Recent(if hit.key == key then [hit.now] else [], now, windowMs)| ==
      if hit.key == key && now - hit.now < windowMs then 1 else 0
  {
  }

  lemma {:induction false} RecentJoins(a: seq<int>, b: seq<int>, now: int, windowMs: int)
    ensures Recent(a + b, now, windowMs) == Recent(a, now, windowMs) + Recent(b, now, windowMs)
  {
    if a == [] {
      assert a + b == b;
    } else {
      assert (a + b)[1..] == a[1..] + b;
      RecentJoins(a[1..], b, now, windowMs);
    }
  }

  function Run(history: seq<Hit>, o: Options): State {
    if history == [] then State([], 0)
    else
      var last := history[|history| - 1];
      After(Run(history[..|history| - 1], o), last.key, last.now, o)
  }

  predicate Ordered(history: seq<Hit>) {
    forall i, j :: 0 <= i < j < |history| ==> history[i].now <= history[j].now
  }

  // The keys with a hit inside the window.
  function LiveKeys(history: seq<Hit>, now: int, o: Options): set<Key> {
    set i | 0 <= i < |history| && now - history[i].now < o.windowMs :: history[i].key
  }

  // No call's window, the call included, sees more distinct keys than the map may hold.
  predicate Uncrowded(history: seq<Hit>, o: Options) {
    forall i :: 0 <= i < |history| ==>
      |LiveKeys(history[..i], history[i].now, o) + {history[i].key}| <= o.maxKeys
  }

  // ---------- facts about times ----------

  predicate Sorted(times: seq<int>) {
    forall i, j :: 0 <= i < j < |times| ==> times[i] <= times[j]
  }

  lemma {:induction false} RecentConcat(a: seq<int>, b: seq<int>, now: int, w: int)
    ensures Recent(a + b, now, w) == Recent(a, now, w) + Recent(b, now, w)
  {
    if a == [] {
      assert a + b == b;
    } else {
      assert (a + b)[1..] == a[1..] + b;
      RecentConcat(a[1..], b, now, w);
    }
  }

  // What left the window stays out of it.
  lemma {:induction false} RecentLater(times: seq<int>, now: int, later: int, w: int)
    requires now <= later
    ensures Recent(Recent(times, now, w), later, w) == Recent(times, later, w)
  {
    if times != [] {
      RecentLater(times[1..], now, later, w);
      if now - times[0] < w {
        var kept := Recent(times[1..], now, w);
        assert ([times[0]] + kept)[1..] == kept;
      }
    }
  }

  lemma {:induction false} RecentIsShorter(times: seq<int>, now: int, w: int)
    ensures |Recent(times, now, w)| <= |times|
  {
    if times != [] {
      RecentIsShorter(times[1..], now, w);
    }
  }

  predicate IsSuffix(a: seq<int>, b: seq<int>) {
    |a| <= |b| && a == b[|b| - |a|..]
  }

  // Of sorted times, the recent ones are a suffix.
  lemma {:induction false} RecentIsSuffix(times: seq<int>, now: int, w: int)
    requires Sorted(times)
    ensures IsSuffix(Recent(times, now, w), times)
  {
    if times != [] {
      if now - times[0] < w {
        AllRecent(times, now, w);
      } else {
        RecentIsSuffix(times[1..], now, w);
      }
    }
  }

  lemma {:induction false} AllRecent(times: seq<int>, now: int, w: int)
    requires forall i :: 0 <= i < |times| ==> now - times[i] < w
    ensures Recent(times, now, w) == times
  {
    if times != [] {
      AllRecent(times[1..], now, w);
    }
  }

  lemma {:induction false} NoneRecent(times: seq<int>, now: int, w: int)
    requires forall i :: 0 <= i < |times| ==> now - times[i] >= w
    ensures Recent(times, now, w) == []
  {
    if times != [] {
      NoneRecent(times[1..], now, w);
    }
  }

  // ---------- facts about the map ----------

  predicate Distinct(entries: seq<Entry>) {
    forall i, j :: 0 <= i < j < |entries| ==> entries[i].key != entries[j].key
  }

  lemma {:induction false} FindIsSome(entries: seq<Entry>, i: nat)
    requires Distinct(entries) && i < |entries|
    ensures Find(entries, entries[i].key) == entries[i].times
  {
    if i > 0 {
      FindIsSome(entries[1..], i - 1);
    }
  }

  lemma {:induction false} FindIsNone(entries: seq<Entry>, key: Key)
    requires !Has(entries, key)
    ensures Find(entries, key) == []
  {
    if entries != [] {
      FindIsNone(entries[1..], key);
    }
  }

  // What sweeping or evicting leaves: entries of the map, each where the key had one.
  ghost predicate Part(part: seq<Entry>, entries: seq<Entry>) {
    && |part| <= |entries|
    && Distinct(part)
    && forall i :: 0 <= i < |part| ==> part[i] in entries
  }

  lemma {:induction false} SweptIsPart(entries: seq<Entry>, now: int, w: int)
    requires Distinct(entries)
    ensures Part(Swept(entries, now, w), entries)
    ensures forall e :: e in Swept(entries, now, w) <==> e in entries && !Stale(e, now, w)
  {
    if entries != [] {
      SweptIsPart(entries[1..], now, w);
    }
  }

  lemma {:induction false} EvictedIsPart(entries: seq<Entry>, key: Key, maxKeys: int)
    requires Distinct(entries)
    ensures Part(Evicted(entries, key, maxKeys), entries)
    ensures var left := Evicted(entries, key, maxKeys); Has(left, key) || |left| < maxKeys || left == []
    decreases |entries|
  {
    if |entries| >= maxKeys && !Has(entries, key) && entries != [] {
      EvictedIsPart(entries[1..], key, maxKeys);
    }
  }

  lemma {:induction false} RemoveTakesOne(entries: seq<Entry>, key: Key)
    requires Distinct(entries)
    ensures |Remove(entries, key)| == |entries| - (if Has(entries, key) then 1 else 0)
    ensures forall e :: e in Remove(entries, key) <==> e in entries && e.key != key
    ensures Distinct(Remove(entries, key))
  {
    if entries != [] {
      var rest := entries[1..];
      HeadAndRest(entries, key);
      if entries[0].key != key {
        RemoveTakesOne(rest, key);
        hide Has, Distinct;
        InFront(entries[0], rest, Remove(rest, key), key);
      }
    }
  }

  lemma HeadAndRest(entries: seq<Entry>, key: Key)
    requires entries != [] && Distinct(entries)
    ensures Has(entries, key) <==> entries[0].key == key || Has(entries[1..], key)
    ensures Distinct(entries[1..])
    ensures forall e :: e in entries <==> e == entries[0] || e in entries[1..]
    ensures forall e :: e in entries[1..] ==> e.key != entries[0].key
  {
    assert entries == [entries[0]] + entries[1..];
  }

  lemma InFront(e: Entry, rest: seq<Entry>, left: seq<Entry>, key: Key)
    requires Distinct(left) && e.key != key
    requires forall x :: x in left <==> x in rest && x.key != key
    requires forall x :: x in rest ==> x.key != e.key
    ensures Distinct([e] + left)
    ensures forall x :: x in [e] + left <==> (x == e || x in rest) && x.key != key
  {
    forall i | 0 <= i < |left| ensures left[i].key != e.key {
      assert left[i] in left;
    }
  }

  lemma RemoveIsPart(entries: seq<Entry>, key: Key)
    requires Distinct(entries)
    ensures Part(Remove(entries, key), entries) && !Has(Remove(entries, key), key)
  {
  }

  // A part of the map holds for each key what the map holds, or nothing.
  lemma PartFindsTheSame(part: seq<Entry>, entries: seq<Entry>, key: Key)
    requires Part(part, entries) && Distinct(entries)
    ensures Find(part, key) == (if Has(part, key) then Find(entries, key) else [])
  {
    if Has(part, key) {
      var i :| 0 <= i < |part| && part[i].key == key;
      var j :| 0 <= j < |entries| && entries[j] == part[i];
      FindIsSome(part, i);
      FindIsSome(entries, j);
    } else {
      FindIsNone(part, key);
    }
  }

  lemma PreparedIsPart(s: State, key: Key, now: int, o: Options)
    requires Distinct(s.entries)
    ensures var part := Prepared(s, key, now, o);
      Part(part, s.entries) && (Has(part, key) || |part| < o.maxKeys || part == [])
  {
    var kept := if SweepsNow(s, now, o) then Swept(s.entries, now, o.windowMs) else s.entries;
    SweptIsPart(s.entries, now, o.windowMs);
    EvictedIsPart(kept, key, o.maxKeys);
  }

  // Taking a key out and putting it back at the end changes nothing else.
  lemma ReinsertHolds(entries: seq<Entry>, key: Key, times: seq<int>)
    requires Distinct(entries)
    ensures var after := Remove(entries, key) + [Entry(key, times)];
      && Distinct(after)
      && |after| == |entries| + (if Has(entries, key) then 0 else 1)
      && Find(after, key) == times
      && forall k :: k != key ==> Find(after, k) == Find(entries, k)
  {
    RemoveTakesOne(entries, key);
    RemoveIsPart(entries, key);
    var others := Remove(entries, key);
    var after := others + [Entry(key, times)];
    FindIsSome(after, |others|);
    hide Remove, Find;
    forall k | k != key ensures Find(after, k) == Find(entries, k) {
      PartFindsTheSame(others, entries, k);
      PartFindsTheSame(others, after, k);
      if !Has(others, k) {
        FindIsNone(entries, k);
        FindIsNone(after, k);
      }
    }
  }

  // The map after a call: the caller's new times, and for every other key what was kept.
  lemma AfterHolds(s: State, key: Key, now: int, o: Options)
    requires Distinct(s.entries)
    ensures var part, after := Prepared(s, key, now, o), After(s, key, now, o).entries;
      && Part(part, s.entries)
      && Distinct(after)
      && Find(after, key) == Recent(Find(part, key), now, o.windowMs) + [now]
      && (forall k :: k != key ==> Find(after, k) == Find(part, k))
      && |after| <= Max(|s.entries|, Max(1, o.maxKeys))
  {
    PreparedIsPart(s, key, now, o);
    ReinsertHolds(Prepared(s, key, now, o), key, HitsAfter(s, key, now, o));
  }

  // ---------- the map never outgrows its bound ----------

  lemma {:induction false} RunIsDistinct(history: seq<Hit>, o: Options)
    ensures Distinct(Run(history, o).entries)
  {
    if history != [] {
      var last := history[|history| - 1];
      RunIsDistinct(history[..|history| - 1], o);
      AfterHolds(Run(history[..|history| - 1], o), last.key, last.now, o);
    }
  }

  // With no bound to speak of the map still holds the key of the last call, and never more.
  lemma {:induction false} NeverMoreThanMaxKeys(history: seq<Hit>, o: Options)
    ensures |Run(history, o).entries| <= Max(1, o.maxKeys)
  {
    if history != [] {
      var last := history[|history| - 1];
      NeverMoreThanMaxKeys(history[..|history| - 1], o);
      RunIsDistinct(history[..|history| - 1], o);
      AfterHolds(Run(history[..|history| - 1], o), last.key, last.now, o);
    }
  }

  // Within `maxKeys` exactly if that is at least one, or nothing was ever asked: the last call's key is always held.
  lemma WithinMaxKeysExactly(history: seq<Hit>, o: Options)
    ensures |Run(history, o).entries| <= o.maxKeys <==> o.maxKeys >= 1 || (history == [] && o.maxKeys == 0)
  {
    NeverMoreThanMaxKeys(history, o);
    if history != [] {
      var last := history[|history| - 1];
      RunIsDistinct(history[..|history| - 1], o);
      AfterHolds(Run(history[..|history| - 1], o), last.key, last.now, o);
    }
  }

  // ---------- it only ever forgets ----------

  // Every key's times are the latest of that key's hits.
  ghost predicate Latest(entries: seq<Entry>, history: seq<Hit>) {
    forall k: Key :: IsSuffix(Find(entries, k), TimesOf(history, k))
  }

  lemma {:induction false} TimesAreSorted(history: seq<Hit>, key: Key, now: int)
    requires Ordered(history) && forall i :: 0 <= i < |history| ==> history[i].now <= now
    ensures Sorted(TimesOf(history, key))
    ensures forall i :: 0 <= i < |TimesOf(history, key)| ==> TimesOf(history, key)[i] <= now
  {
    if history != [] {
      var last := history[|history| - 1];
      TimesAreSorted(history[..|history| - 1], key, last.now);
    }
  }

  lemma SuffixOfSuffix(a: seq<int>, b: seq<int>, c: seq<int>, more: seq<int>)
    requires IsSuffix(a, b) && IsSuffix(b, c)
    ensures IsSuffix(a + more, c + more)
  {
  }

  lemma SuffixIsSorted(a: seq<int>, b: seq<int>)
    requires IsSuffix(a, b) && Sorted(b)
    ensures Sorted(a)
  {
  }

  // What a part of the map keeps of one key's times, and what is recent of it, is still the latest of its hits.
  lemma KeptIsLatest(part: seq<Entry>, entries: seq<Entry>, history: seq<Hit>, key: Key, now: int, w: int)
    requires Distinct(entries) && Part(part, entries) && Latest(entries, history)
    requires Ordered(history) && forall i :: 0 <= i < |history| ==> history[i].now <= now
    ensures IsSuffix(Find(part, key), TimesOf(history, key))
    ensures IsSuffix(Recent(Find(part, key), now, w), Find(part, key))
  {
    PartFindsTheSame(part, entries, key);
    TimesAreSorted(history, key, now);
    hide Part, Distinct, Ordered, Recent, Find, Has, TimesOf, Sorted;
    assert IsSuffix(Find(entries, key), TimesOf(history, key));
    SuffixIsSorted(Find(part, key), TimesOf(history, key));
    RecentIsSuffix(Find(part, key), now, w);
  }

  lemma CallKeepsLatest(s: State, history: seq<Hit>, hit: Hit, o: Options)
    requires Distinct(s.entries) && Latest(s.entries, history) && Ordered(history + [hit])
    ensures Latest(After(s, hit.key, hit.now, o).entries, history + [hit])
  {
    AfterHolds(s, hit.key, hit.now, o);
    OrderedPrefix(history, hit);
    var prepared, longer := Prepared(s, hit.key, hit.now, o), history + [hit];
    assert longer[..|history|] == history;
    hide After, Prepared, Ordered, Distinct, Part, Recent, Has, Find, IsSuffix, Latest;
    forall k: Key ensures IsSuffix(Find(After(s, hit.key, hit.now, o).entries, k), TimesOf(longer, k)) {
      var kept, all := Find(prepared, k), TimesOf(history, k);
      KeptIsLatest(prepared, s.entries, history, k, hit.now, o.windowMs);
      if k == hit.key {
        SuffixOfSuffix(Recent(kept, hit.now, o.windowMs), kept, all, [hit.now]);
      } else {
        assert TimesOf(longer, k) == all + [] == all;
      }
    }
    LatestFrom(After(s, hit.key, hit.now, o).entries, longer);
  }

  lemma LatestFrom(entries: seq<Entry>, history: seq<Hit>)
    requires forall k: Key :: IsSuffix(Find(entries, k), TimesOf(history, k))
    ensures Latest(entries, history)
  {
  }

  lemma OrderedPrefix(history: seq<Hit>, hit: Hit)
    requires Ordered(history + [hit])
    ensures Ordered(history) && forall i :: 0 <= i < |history| ==> history[i].now <= hit.now
  {
    var longer := history + [hit];
    assert forall i :: 0 <= i < |history| ==> history[i] == longer[i] && longer[i].now <= longer[|history|].now;
  }

  lemma {:induction false} RunIsLatest(history: seq<Hit>, o: Options)
    requires Ordered(history)
    ensures Latest(Run(history, o).entries, history)
  {
    if history != [] {
      var earlier, last := history[..|history| - 1], history[|history| - 1];
      assert history == earlier + [last];
      OrderedPrefix(earlier, last);
      RunIsLatest(earlier, o);
      RunIsDistinct(earlier, o);
      CallKeepsLatest(Run(earlier, o), earlier, last, o);
    }
  }

  // A call it turns away, the limiter that remembers everything turns away too.
  lemma NeverStricterThanIdeal(history: seq<Hit>, key: Key, now: int, o: Options)
    requires Ordered(history)
    ensures Answer(Run(history, o), key, now, o) ==> IdealAnswer(history, key, now, o)
  {
    var s := Run(history, o);
    RunIsLatest(history, o);
    RunIsDistinct(history, o);
    AfterHolds(s, key, now, o);
    PartFindsTheSame(Prepared(s, key, now, o), s.entries, key);
    var kept, all := Find(Prepared(s, key, now, o), key), TimesOf(history, key);
    assert all == all[..|all| - |kept|] + kept;
    RecentConcat(all[..|all| - |kept|], kept, now, o.windowMs);
  }

  // ---------- sweeping changes no answer ----------

  lemma StaleHasNone(e: Entry, now: int, later: int, w: int)
    requires Sorted(e.times) && Stale(e, now, w) && now <= later
    ensures Recent(e.times, later, w) == []
  {
    NoneRecent(e.times, later, w);
  }

  // Sweeping now leaves every key's recent times as they are, now and later.
  lemma SweepsChangeNothing(entries: seq<Entry>, now: int, later: int, key: Key, w: int)
    requires Distinct(entries) && now <= later
    requires forall i :: 0 <= i < |entries| ==> Sorted(entries[i].times)
    ensures Recent(Find(Swept(entries, now, w), key), later, w) == Recent(Find(entries, key), later, w)
  {
    var swept := Swept(entries, now, w);
    SweptIsPart(entries, now, w);
    PartFindsTheSame(swept, entries, key);
    hide Swept, Find, Part, Recent, Sorted, Stale;
    if Has(entries, key) {
      var i :| 0 <= i < |entries| && entries[i].key == key;
      FindIsSome(entries, i);
      if Stale(entries[i], now, w) {
        StaleHasNone(entries[i], now, later, w);
      } else {
        var j :| 0 <= j < |swept| && swept[j] == entries[i];
      }
    } else {
      FindIsNone(entries, key);
    }
  }

  // ---------- and without crowding it is exact ----------

  ghost predicate Exact(entries: seq<Entry>, history: seq<Hit>, now: int, w: int) {
    forall k: Key :: Recent(Find(entries, k), now, w) == Recent(TimesOf(history, k), now, w)
  }

  lemma StaysExact(entries: seq<Entry>, history: seq<Hit>, now: int, later: int, w: int)
    requires Exact(entries, history, now, w) && now <= later
    ensures Exact(entries, history, later, w)
  {
    forall k: Key ensures Recent(Find(entries, k), later, w) == Recent(TimesOf(history, k), later, w) {
      RecentLater(Find(entries, k), now, later, w);
      RecentLater(TimesOf(history, k), now, later, w);
    }
  }

  lemma {:induction false} TimesAreHits(history: seq<Hit>, key: Key, i: nat) returns (n: nat)
    requires i < |TimesOf(history, key)|
    ensures n < |history| && history[n] == Hit(key, TimesOf(history, key)[i])
  {
    var earlier := history[..|history| - 1];
    if i < |TimesOf(earlier, key)| {
      n := TimesAreHits(earlier, key, i);
    } else {
      n := |history| - 1;
    }
  }

  function KeysOf(entries: seq<Entry>): set<Key> {
    if entries == [] then {} else KeysOf(entries[1..]) + {entries[0].key}
  }

  lemma {:induction false} KeysOfHolds(entries: seq<Entry>, key: Key)
    ensures key in KeysOf(entries) <==> Has(entries, key)
  {
    if entries != [] {
      KeysOfHolds(entries[1..], key);
      assert Has(entries, key) <==> entries[0].key == key || Has(entries[1..], key);
    }
  }

  lemma {:induction false} DistinctKeysCount(entries: seq<Entry>)
    requires Distinct(entries)
    ensures |KeysOf(entries)| == |entries|
  {
    if entries != [] {
      DistinctKeysCount(entries[1..]);
      KeysOfHolds(entries[1..], entries[0].key);
    }
  }

  lemma HitIsLive(history: seq<Hit>, n: nat, now: int, o: Options)
    requires n < |history| && now - history[n].now < o.windowMs
    ensures history[n].key in LiveKeys(history, now, o)
  {
  }

  lemma SuffixLast(a: seq<int>, b: seq<int>)
    requires IsSuffix(a, b) && a != []
    ensures b != [] && a[|a| - 1] == b[|b| - 1]
  {
  }

  lemma LatestHas(entries: seq<Entry>, history: seq<Hit>, i: nat)
    requires Distinct(entries) && Latest(entries, history) && i < |entries|
    ensures IsSuffix(entries[i].times, TimesOf(history, entries[i].key))
  {
    FindIsSome(entries, i);
    assert IsSuffix(Find(entries, entries[i].key), TimesOf(history, entries[i].key));
  }

  // A tracked key that is not stale has a hit inside the window.
  lemma FreshIsLive(entries: seq<Entry>, history: seq<Hit>, i: nat, now: int, o: Options)
    requires Distinct(entries) && Latest(entries, history) && i < |entries|
    requires !Stale(entries[i], now, o.windowMs)
    ensures entries[i].key in LiveKeys(history, now, o)
  {
    var all := TimesOf(history, entries[i].key);
    LatestHas(entries, history, i);
    SuffixLast(entries[i].times, all);
    var n := TimesAreHits(history, entries[i].key, |all| - 1);
    hide TimesOf, Latest, Distinct, IsSuffix, LiveKeys;
    HitIsLive(history, n, now, o);
  }

  // After a sweep every tracked key has a hit inside the window.
  lemma SweptKeysAreLive(entries: seq<Entry>, history: seq<Hit>, now: int, o: Options)
    requires Distinct(entries) && Latest(entries, history)
    ensures KeysOf(Swept(entries, now, o.windowMs)) <= LiveKeys(history, now, o)
  {
    var swept := Swept(entries, now, o.windowMs);
    SweptIsPart(entries, now, o.windowMs);
    hide Swept, LiveKeys, Latest, Distinct, Stale, KeysOf;
    forall key | key in KeysOf(swept) ensures key in LiveKeys(history, now, o) {
      KeysOfHolds(swept, key);
      var i :| 0 <= i < |swept| && swept[i].key == key;
      assert swept[i] in swept;
      var j :| 0 <= j < |entries| && entries[j] == swept[i];
      FreshIsLive(entries, history, j, now, o);
    }
  }

  // So a call whose window is not crowded evicts nothing.
  lemma NothingEvicted(s: State, history: seq<Hit>, key: Key, now: int, o: Options)
    requires Distinct(s.entries) && Latest(s.entries, history)
    requires |LiveKeys(history, now, o) + {key}| <= o.maxKeys
    ensures Prepared(s, key, now, o) == if SweepsNow(s, now, o) then Swept(s.entries, now, o.windowMs) else s.entries
  {
    var swept := Swept(s.entries, now, o.windowMs);
    if SweepsNow(s, now, o) && |swept| >= o.maxKeys && !Has(swept, key) {
      SweptIsPart(s.entries, now, o.windowMs);
      DistinctKeysCount(swept);
      SweptKeysAreLive(s.entries, history, now, o);
      KeysOfHolds(swept, key);
      Sums.SubsetIsNoLarger(KeysOf(swept) + {key}, LiveKeys(history, now, o) + {key});
      assert false;
    }
  }

  lemma LatestIsSorted(entries: seq<Entry>, history: seq<Hit>)
    requires Distinct(entries) && Latest(entries, history) && Ordered(history)
    ensures forall i :: 0 <= i < |entries| ==> Sorted(entries[i].times)
  {
    forall i | 0 <= i < |entries| ensures Sorted(entries[i].times) {
      FindIsSome(entries, i);
      if history != [] {
        TimesAreSorted(history, entries[i].key, history[|history| - 1].now);
      }
    }
  }

  // Preparing a call keeps every key's recent times.
  lemma PreparedIsExact(s: State, history: seq<Hit>, key: Key, now: int, o: Options)
    requires Distinct(s.entries) && Latest(s.entries, history) && Ordered(history)
    requires Exact(s.entries, history, now, o.windowMs)
    requires |LiveKeys(history, now, o) + {key}| <= o.maxKeys
    ensures Exact(Prepared(s, key, now, o), history, now, o.windowMs)
  {
    NothingEvicted(s, history, key, now, o);
    LatestIsSorted(s.entries, history);
    forall k: Key
      ensures Recent(Find(Prepared(s, key, now, o), k), now, o.windowMs) == Recent(TimesOf(history, k), now, o.windowMs)
    {
      SweepsChangeNothing(s.entries, now, now, k, o.windowMs);
    }
  }

  lemma CallKeepsExact(s: State, history: seq<Hit>, hit: Hit, o: Options)
    requires Distinct(s.entries) && Exact(Prepared(s, hit.key, hit.now, o), history, hit.now, o.windowMs)
    ensures Exact(After(s, hit.key, hit.now, o).entries, history + [hit], hit.now, o.windowMs)
  {
    AfterHolds(s, hit.key, hit.now, o);
    var prepared, w, longer := Prepared(s, hit.key, hit.now, o), o.windowMs, history + [hit];
    assert longer[..|history|] == history;
    hide After, Prepared, Distinct, Part, Recent, Has, Find;
    forall k: Key
      ensures Recent(Find(After(s, hit.key, hit.now, o).entries, k), hit.now, w) == Recent(TimesOf(longer, k), hit.now, w)
    {
      assert Recent(Find(prepared, k), hit.now, w) == Recent(TimesOf(history, k), hit.now, w);
      if k == hit.key {
        RecentConcat(Recent(Find(prepared, k), hit.now, w), [hit.now], hit.now, w);
        RecentConcat(TimesOf(history, k), [hit.now], hit.now, w);
        RecentLater(Find(prepared, k), hit.now, hit.now, w);
        assert TimesOf(longer, k) == TimesOf(history, k) + [hit.now];
      } else {
        assert TimesOf(longer, k) == TimesOf(history, k) + [] == TimesOf(history, k);
      }
    }
  }

  lemma UncrowdedPrefix(history: seq<Hit>, hit: Hit, o: Options)
    requires Uncrowded(history + [hit], o)
    ensures Uncrowded(history, o) && |LiveKeys(history, hit.now, o) + {hit.key}| <= o.maxKeys
  {
    var longer := history + [hit];
    assert forall i :: 0 <= i <= |history| ==> longer[..i] == history[..i];
    assert forall i :: 0 <= i < |history| ==> history[i] == longer[i];
    assert longer[|history|] == hit && history[..|history|] == history;
  }

  lemma RunGrows(history: seq<Hit>, hit: Hit, o: Options)
    ensures Run(history + [hit], o) == After(Run(history, o), hit.key, hit.now, o)
  {
  }

  lemma CallStaysExact(history: seq<Hit>, hit: Hit, now: int, o: Options)
    requires Distinct(Run(history, o).entries) && hit.now <= now
    requires Exact(Prepared(Run(history, o), hit.key, hit.now, o), history, hit.now, o.windowMs)
    ensures Exact(Run(history + [hit], o).entries, history + [hit], now, o.windowMs)
  {
    CallKeepsExact(Run(history, o), history, hit, o);
    RunGrows(history, hit, o);
    hide Run, After, Exact, Distinct, Prepared;
    StaysExact(Run(history + [hit], o).entries, history + [hit], hit.now, now, o.windowMs);
  }

  lemma NothingIsExact(now: int, o: Options)
    ensures Exact(Run([], o).entries, [], now, o.windowMs)
  {
  }

  lemma {:induction false} RunIsExact(history: seq<Hit>, now: int, o: Options)
    requires Ordered(history) && Uncrowded(history, o)
    requires forall i :: 0 <= i < |history| ==> history[i].now <= now
    ensures Exact(Run(history, o).entries, history, now, o.windowMs)
    decreases |history|, 0
  {
    hide Run, Exact, Uncrowded, Ordered, Distinct, Prepared;
    if history == [] {
      NothingIsExact(now, o);
    } else {
      var earlier, last := history[..|history| - 1], history[|history| - 1];
      assert history == earlier + [last];
      PreparesExactly(earlier, last, o);
      CallStaysExact(earlier, last, now, o);
    }
  }

  // The run before a call is exact, and the call's sweep keeps it so.
  lemma {:induction false} PreparesExactly(history: seq<Hit>, hit: Hit, o: Options)
    requires Ordered(history + [hit]) && Uncrowded(history + [hit], o)
    ensures Distinct(Run(history, o).entries)
    ensures Exact(Prepared(Run(history, o), hit.key, hit.now, o), history, hit.now, o.windowMs)
    decreases |history|, 1
  {
    OrderedPrefix(history, hit);
    UncrowdedPrefix(history, hit, o);
    RunIsExact(history, hit.now, o);
    RunIsLatest(history, o);
    RunIsDistinct(history, o);
    PreparedIsExact(Run(history, o), history, hit.key, hit.now, o);
  }

  // As long as no window sees more distinct keys than the map may hold, every call is answered as by the limiter that
  // remembers every hit.
  lemma ExactUnlessCrowded(history: seq<Hit>, key: Key, now: int, o: Options)
    requires Ordered(history + [Hit(key, now)]) && Uncrowded(history + [Hit(key, now)], o)
    ensures Answer(Run(history, o), key, now, o) == IdealAnswer(history, key, now, o)
  {
    PreparesExactly(history, Hit(key, now), o);
  }

  // A crowded window lets a caller through who should not be: in a map of one, a second key pushes the first out.
  lemma CrowdedForgets()
    ensures var o, history := Options(1000, 1, 1), [Hit(0, 1), Hit(1, 2)];
      Ordered(history + [Hit(0, 3)]) && !Answer(Run(history, o), 0, 3, o) && IdealAnswer(history, 0, 3, o)
  {
    var o, history := Options(1000, 1, 1), [Hit(0, 1), Hit(1, 2)];
    CrowdedRun();
    PushesOut(Run(history, o), 0, 3);
    assert history[..1] == [Hit(0, 1)] && history[..1][..0] == [];
    assert TimesOf(history[..1], 0) == [1];
    assert TimesOf(history, 0) == [1] + [];
    hide Run, HitsAfter, After;
  }

  lemma CrowdedRun()
    ensures Run([Hit(0, 1), Hit(1, 2)], Options(1000, 1, 1)) == State([Entry(1, [2])], 2)
  {
    var o, history := Options(1000, 1, 1), [Hit(0, 1), Hit(1, 2)];
    var first := State([Entry(0, [1])], 0);
    assert history[..1] == [Hit(0, 1)] && history[..1][..0] == [];
    assert HitsAfter(State([], 0), 0, 1, o) == [1];
    assert After(State([], 0), 0, 1, o) == first;
    PushesOut(first, 1, 2);
    hide After, HitsAfter;
    assert Run(history[..1], o) == first;
  }

  lemma PushesOut(s: State, key: Key, now: int)
    requires |s.entries| == 1 && key != s.entries[0].key && |s.entries[0].times| == 1
    requires now - s.entries[0].times[0] < 1000
    ensures HitsAfter(s, key, now, Options(1000, 1, 1)) == [now]
    ensures After(s, key, now, Options(1000, 1, 1)) == State([Entry(key, [now])], now)
  {
    assert s.entries == [s.entries[0]];
    assert Swept(s.entries, now, 1000) == s.entries;
    assert Evicted(s.entries, key, 1) == [];
  }
}
