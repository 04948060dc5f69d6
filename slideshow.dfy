/**
 * The slideshow engine of gvcore/slideshow.cpp (class SlideShow).
 *
 * The engine owns a copy of a URL list, a start position and a single-shot
 * timer. It never stores the current position: each time it needs it, it
 * searches the list for the URL the document currently shows. The document,
 * the timer and the image loader are outside the model: the document's URL is
 * a parameter `doc` of every operation that reads it, the timer is a flag and
 * an interval, and the prefetch handle is the URL it was requested for.
 */
module SlideShowEngine {
  import opened Wrappers
  import opened Arith

  type Url = string

  /** The two signals the engine emits from its timeout slot. */
  datatype Signal = NextUrl(url: Url) | Finished

  // ---------------------------------------------------------------------------
  // Locating the current URL and choosing the next one
  // ---------------------------------------------------------------------------

  /**
   * The position qFind returns: the index of the first occurrence of `u`, or
   * |urls| (the end iterator) when `u` is absent.
   */
  function Find(urls: seq<Url>, u: Url): (i: nat)
    ensures i <= |urls|
    ensures i < |urls| ==> urls[i] == u
    ensures forall j :: 0 <= j < i ==> urls[j] != u
  {
    if urls == [] then 0
    else if urls[0] == u then 0
    else 1 + Find(urls[1..], u)
  }

  /** "++it; if it is end, it = begin": the following index, wrapping to 0. */
  function Successor(n: nat, i: nat): (j: nat)
    requires i < n
    ensures j < n
    ensures j == (i + 1) % n
  {
    if i + 1 == n then 0 else i + 1
  }

  /**
   * The index the show moves to from the document's URL `doc`, or None when
   * the show ends there: `doc` is not in the list, or the show does not loop
   * and the following index is the start index. Shared by slotTimeout and
   * prefetch, which compute it in the same way.
   */
  function NextStep(urls: seq<Url>, doc: Url, startIndex: nat, loop: bool): (r: Option<nat>)
    ensures r.Some? <==> Find(urls, doc) < |urls| && (loop || Successor(|urls|, Find(urls, doc)) != startIndex)
    ensures r.Some? ==> r.value == Successor(|urls|, Find(urls, doc))
  {
    var i := Find(urls, doc);
    if i == |urls| then None
    else
      var j := Successor(|urls|, i);
      if j == startIndex && !loop then None else Some(j)
  }

  // ---------------------------------------------------------------------------
  // Whole runs: the URLs a show emits when the display follows every nextURL
  // ---------------------------------------------------------------------------

  /**
   * The nextURL signals of up to `fuel` timer expiries, when the document
   * shows `doc` at the first one and then, each time, the URL just emitted.
   */
  function Run(urls: seq<Url>, startIndex: nat, loop: bool, doc: Url, fuel: nat): (r: seq<Url>)
    ensures |r| <= fuel
    decreases fuel
  {
    if fuel == 0 then []
    else match NextStep(urls, doc, startIndex, loop)
      case None => []
      case Some(j) => [urls[j]] + Run(urls, startIndex, loop, urls[j], fuel - 1)
  }

  /** Find reaches the end of the list exactly when the URL is not in it. */
  lemma FindMember(urls: seq<Url>, u: Url)
    ensures Find(urls, u) < |urls| <==> u in urls
  {
  }

  /** Every URL a show emits is one of the list's. */
  lemma {:induction false} RunInList(urls: seq<Url>, startIndex: nat, loop: bool, doc: Url, fuel: nat)
    ensures forall k :: 0 <= k < |Run(urls, startIndex, loop, doc, fuel)| ==> Run(urls, startIndex, loop, doc, fuel)[k] in urls
    decreases fuel
  {
    if fuel > 0 && NextStep(urls, doc, startIndex, loop).Some? {
      var j := NextStep(urls, doc, startIndex, loop).value;
      RunInList(urls, startIndex, loop, urls[j], fuel - 1);
    }
  }

  ghost predicate Distinct(urls: seq<Url>) {
    forall i, j :: 0 <= i < j < |urls| ==> urls[i] != urls[j]
  }

  /** The index k + 1 places after i, wrapping around a list of length n. */
  function Ahead(n: nat, i: nat, k: nat): (j: nat)
    requires i < n && k < n
    ensures j < n
  {
    if i + 1 + k < n then i + 1 + k else i + 1 + k - n
  }

  /** How many nextURLs a non-looping show still emits from index i. */
  function Remaining(n: nat, i: nat, s: nat): (d: nat)
    requires i < n && s < n
    ensures d < n
  {
    if i < s then s - i - 1 else n - 1 - i + s
  }

  lemma FindDistinct(urls: seq<Url>, i: nat)
    requires Distinct(urls) && i < |urls|
    ensures Find(urls, urls[i]) == i
  {
  }

  /** One step of a non-looping show over distinct URLs, from index i. */
  lemma StepFrom(urls: seq<Url>, s: nat, i: nat)
    requires Distinct(urls) && s < |urls| && i < |urls|
    ensures NextStep(urls, urls[i], s, false)
         == if Successor(|urls|, i) == s then None else Some(Successor(|urls|, i))
    ensures Successor(|urls|, i) == s <==> Remaining(|urls|, i, s) == 0
    ensures Successor(|urls|, i) != s ==> Remaining(|urls|, Successor(|urls|, i), s) == Remaining(|urls|, i, s) - 1
  {
    FindDistinct(urls, i);
  }

  /** One timer expiry that emits urls[j], followed by the rest of the run from there. */
  lemma RunStep(urls: seq<Url>, s: nat, loop: bool, doc: Url, fuel: nat, j: nat)
    requires fuel > 0 && NextStep(urls, doc, s, loop) == Some(j)
    ensures j < |urls|
    ensures Run(urls, s, loop, doc, fuel) == [urls[j]] + Run(urls, s, loop, urls[j], fuel - 1)
  {
  }

  /** One timer expiry of a non-looping show over distinct URLs, from index i. */
  lemma NonLoopingStep(urls: seq<Url>, s: nat, i: nat, fuel: nat)
    requires Distinct(urls) && s < |urls| && i < |urls|
    requires fuel >= Remaining(|urls|, i, s)
    ensures Successor(|urls|, i) == s ==> Remaining(|urls|, i, s) == 0 && Run(urls, s, false, urls[i], fuel) == []
    ensures Successor(|urls|, i) != s ==>
      fuel > 0 && Remaining(|urls|, Successor(|urls|, i), s) == Remaining(|urls|, i, s) - 1 &&
      Run(urls, s, false, urls[i], fuel) == [urls[Successor(|urls|, i)]] + Run(urls, s, false, urls[Successor(|urls|, i)], fuel - 1)
  {
    StepFrom(urls, s, i);
    if Successor(|urls|, i) != s {
      RunStep(urls, s, false, urls[i], fuel, Successor(|urls|, i));
    }
  }

  /** A looping show over distinct URLs always moves on to the successor. */
  lemma LoopingStep(urls: seq<Url>, s: nat, i: nat, fuel: nat)
    requires Distinct(urls) && i < |urls| && fuel > 0
    ensures Run(urls, s, true, urls[i], fuel) == [urls[Successor(|urls|, i)]] + Run(urls, s, true, urls[Successor(|urls|, i)], fuel - 1)
  {
    FindDistinct(urls, i);
    RunStep(urls, s, true, urls[i], fuel, Successor(|urls|, i));
  }

  lemma AheadStep(n: nat, i: nat, k: nat)
    requires i < n && 0 < k < n
    ensures Ahead(n, Successor(n, i), k - 1) == Ahead(n, i, k)
  {
  }

  /**
   * From index i, a non-looping show over distinct URLs emits the URLs after
   * i in cyclic order up to, but not including, the start index, then stops.
   */
  lemma {:induction false} NonLoopingFrom(urls: seq<Url>, s: nat, i: nat, fuel: nat)
    requires Distinct(urls) && s < |urls| && i < |urls|
    requires fuel >= Remaining(|urls|, i, s)
    ensures |Run(urls, s, false, urls[i], fuel)| == Remaining(|urls|, i, s)
    ensures forall k :: 0 <= k < Remaining(|urls|, i, s) ==>
      Run(urls, s, false, urls[i], fuel)[k] == urls[Ahead(|urls|, i, k)]
    decreases fuel
  {
    var n := |urls|;
    var d := Remaining(n, i, s);
    var j := Successor(n, i);
    NonLoopingStep(urls, s, i, fuel);
    if j != s {
      NonLoopingFrom(urls, s, j, fuel - 1);
      forall k | 0 < k < d
        ensures Run(urls, s, false, urls[i], fuel)[k] == urls[Ahead(n, i, k)]
      {
        AheadStep(n, i, k);
      }
    }
  }

  /**
   * A non-looping show of N distinct URLs started on index s emits exactly
   * N - 1 nextURLs, every URL but the starting one, and then finishes, however
   * many more times the timer fires.
   */
  lemma NonLoopingShow(urls: seq<Url>, s: nat, fuel: nat)
    requires Distinct(urls) && s < |urls|
    requires fuel >= |urls| - 1
    ensures |Run(urls, s, false, urls[s], fuel)| == |urls| - 1
    ensures urls[s] !in Run(urls, s, false, urls[s], fuel)
    ensures forall k :: 0 <= k < |urls| && k != s ==> urls[k] in Run(urls, s, false, urls[s], fuel)
  {
    var n := |urls|;
    NonLoopingFrom(urls, s, s, fuel);
    var r := Run(urls, s, false, urls[s], fuel);
    forall m | 0 <= m < |r| ensures r[m] != urls[s] {
      assert Ahead(n, s, m) != s;
    }
    forall k | 0 <= k < n && k != s ensures urls[k] in r {
      var m := if k > s then k - s - 1 else n - 1 - s + k;
      assert Ahead(n, s, m) == k;
      assert r[m] == urls[k];
    }
  }

  /** A looping show never finishes while the document's URL is in the list. */
  lemma {:induction false} LoopingNeverFinishes(urls: seq<Url>, s: nat, doc: Url, fuel: nat)
    requires doc in urls
    ensures |Run(urls, s, true, doc, fuel)| == fuel
    decreases fuel
  {
    if fuel > 0 {
      var j := NextStep(urls, doc, s, true).value;
      LoopingNeverFinishes(urls, s, urls[j], fuel - 1);
    }
  }

  /** m reduced into [0, n) by repeated subtraction of n. */
  function Wrap(n: nat, m: nat): (j: nat)
    requires n > 0
    ensures j < n
    decreases m
  {
    if m < n then m else Wrap(n, m - n)
  }

  /** Wrap is the remainder modulo n. */
  lemma {:induction false} WrapIsMod(n: nat, m: nat)
    requires n > 0
    ensures Wrap(n, m) == m % n
    decreases m
  {
    if m < n {
      DivModUnique(m, n, 0, m);
    } else {
      WrapIsMod(n, m - n);
      ModShift(n, m - n);
    }
  }

  /** Counting k places on from the successor of i is counting k + 1 places on from i. */
  lemma SuccessorShift(n: nat, i: nat, k: nat)
    requires i < n && 0 < k
    ensures Wrap(n, Successor(n, i) + 1 + (k - 1)) == Wrap(n, i + 1 + k)
  {
  }

  /**
   * A looping show over distinct URLs, from index i, runs on for as long as
   * the timer fires and emits at its k-th timeout the URL k + 1 places after
   * i, cyclically.
   */
  lemma {:induction false} LoopingAt(urls: seq<Url>, s: nat, i: nat, fuel: nat, k: nat)
    requires Distinct(urls) && i < |urls| && k < |Run(urls, s, true, urls[i], fuel)|
    ensures Run(urls, s, true, urls[i], fuel)[k] == urls[Wrap(|urls|, i + 1 + k)]
    decreases k
  {
    var n := |urls|;
    var j := Successor(n, i);
    var r, rest := Run(urls, s, true, urls[i], fuel), Run(urls, s, true, urls[j], fuel - 1);
    LoopingStep(urls, s, i, fuel);
    if k == 0 {
      assert r[0] == urls[j] && Wrap(n, i + 1) == j;
    } else {
      assert r[k] == rest[k - 1];
      LoopingAt(urls, s, j, fuel - 1, k - 1);
      SuccessorShift(n, i, k);
      assert r[k] == urls[Wrap(n, i + 1 + k)];
    }
  }

  /**
   * A looping show over distinct URLs, from index i, emits a URL at every
   * timeout, the k-th being urls[(i + 1 + k) mod N]: after N nextURLs the
   * sequence repeats.
   */
  lemma LoopingFrom(urls: seq<Url>, s: nat, i: nat, fuel: nat)
    requires Distinct(urls) && i < |urls|
    ensures |Run(urls, s, true, urls[i], fuel)| == fuel
    ensures forall k :: 0 <= k < fuel ==> Run(urls, s, true, urls[i], fuel)[k] == urls[(i + 1 + k) % |urls|]
  {
    LoopingNeverFinishes(urls, s, urls[i], fuel);
    forall k | 0 <= k < fuel
      ensures Run(urls, s, true, urls[i], fuel)[k] == urls[(i + 1 + k) % |urls|]
    {
      LoopingAt(urls, s, i, fuel, k);
      WrapIsMod(|urls|, i + 1 + k);
    }
  }

  /**
   * Because the position is found by searching for the first occurrence, a
   * non-looping show over [a, b, a] started on the first a keeps emitting
   * b, a, b, a, ... and never finishes.
   */
  lemma {:induction false} RepeatedUrlNeverFinishes(a: Url, b: Url, doc: Url, fuel: nat)
    requires a != b && (doc == a || doc == b)
    ensures |Run([a, b, a], 0, false, doc, fuel)| == fuel
    decreases fuel
  {
    var urls := [a, b, a];
    if fuel > 0 {
      if doc == a {
        assert Find(urls, a) == 0;
        assert NextStep(urls, a, 0, false) == Some(1);
        RepeatedUrlNeverFinishes(a, b, b, fuel - 1);
      } else {
        assert Find(urls, b) == 1;
        assert NextStep(urls, b, 0, false) == Some(2);
        RepeatedUrlNeverFinishes(a, b, a, fuel - 1);
      }
    }
  }

  /**
   * The same list started on b finishes: b is followed by the second a, but
   * the search then finds the first a, whose successor is the start.
   */
  lemma RepeatedUrlFinishesFromMiddle(a: Url, b: Url, fuel: nat)
    requires a != b && fuel >= 2
    ensures Run([a, b, a], 1, false, b, fuel) == [a]
  {
    var urls := [a, b, a];
    assert Find(urls, b) == 1;
    assert NextStep(urls, b, 1, false) == Some(2);
    assert Find(urls, a) == 0;
    assert NextStep(urls, a, 1, false) == None;
  }

  // ---------------------------------------------------------------------------
  // Engine state and its transitions
  // ---------------------------------------------------------------------------

  /**
   * A snapshot of the engine. `startIndex` is mStartIt as an offset into
   * `urls` (|urls| stands for end()). `requested` lists every loader the
   * engine asked the image loader for and `releases` counts the handles it
   * gave back; they account for the handles the engine holds.
   */
  datatype ShowState = ShowState(
    urls: seq<Url>,
    startIndex: nat,
    started: bool,
    timerActive: bool,
    timerInterval: int,
    delay: int,
    loop: bool,
    random: bool,
    prefetch: Option<Url>,
    requested: seq<Url>,
    releases: nat)

  function Held(p: Option<Url>): nat { if p.Some? then 1 else 0 }

  /**
   * The engine's invariant: the start position lies within the list or at its
   * end, an armed timer belongs to a started show, and every loader requested
   * has been released except the one handle `prefetch` holds, the latest.
   */
  predicate Inv(s: ShowState): (ok: bool)
    ensures ok ==> s.releases <= |s.requested|
  {
    s.startIndex <= |s.urls| &&
    (s.timerActive ==> s.started) &&
    s.releases + Held(s.prefetch) == |s.requested| &&
    (s.prefetch.Some? ==> s.requested[|s.requested| - 1] == s.prefetch.value)
  }

  /** stop(): disarm the timer and clear the started flag. */
  function Stopped(s: ShowState): (t: ShowState)
    ensures !t.started && !t.timerActive
    ensures Inv(s) ==> Inv(t)
    ensures t.urls == s.urls && t.prefetch == s.prefetch && t.timerInterval == s.timerInterval
  {
    s.(started := false, timerActive := false)
  }

  /**
   * prefetch(): when there is a next URL, release the handle held (if any)
   * and request a loader for that URL; otherwise change nothing.
   */
  function AfterPrefetch(s: ShowState, doc: Url): (t: ShowState)
    ensures Inv(s) ==> Inv(t)
    ensures |t.requested| - t.releases == |s.requested| - s.releases || (s.prefetch.None? && t.prefetch.Some?)
  {
    match NextStep(s.urls, doc, s.startIndex, s.loop)
    case None => s
    case Some(j) =>
      s.(prefetch := Some(s.urls[j]),
         requested := s.requested + [s.urls[j]],
         releases := s.releases + Held(s.prefetch))
  }

  /** prefetchDone(): drop the handle held, if any. */
  function AfterPrefetchDone(s: ShowState): (t: ShowState)
    ensures t.prefetch.None?
    ensures Inv(s) ==> Inv(t) && t.releases == |t.requested|
  {
    if s.prefetch.Some? then s.(prefetch := None, releases := s.releases + 1) else s
  }

  /**
   * start(list): copy the list (in the shuffled order when random), record
   * the first occurrence of the document's URL as the start position, and
   * only if it was found arm the timer, mark the show started and prefetch.
   */
  function AfterStart(s: ShowState, list: seq<Url>, shuffled: seq<Url>, doc: Url): (t: ShowState)
    requires multiset(shuffled) == multiset(list)
    ensures Inv(s) ==> Inv(t)
    ensures t.urls == (if s.random then shuffled else list)
    ensures t.startIndex == Find(t.urls, doc)
  {
    var order := if s.random then shuffled else list;
    var placed := s.(urls := order, startIndex := Find(order, doc));
    if Find(order, doc) == |order| then placed
    else AfterPrefetch(placed.(timerActive := true, timerInterval := s.delay * 1000, started := true), doc)
  }

  /**
   * What start(list) leaves: the list is a permutation of the one given; a
   * document absent from it leaves the show as it was, one present arms the
   * timer with the delay in milliseconds, starts the show and prefetches
   * exactly what the first timer expiry would emit.
   */
  lemma StartEffect(s: ShowState, list: seq<Url>, shuffled: seq<Url>, doc: Url)
    requires multiset(shuffled) == multiset(list)
    ensures var t := AfterStart(s, list, shuffled, doc);
      multiset(t.urls) == multiset(list) &&
      (t.startIndex < |t.urls| <==> doc in list)
    ensures var t := AfterStart(s, list, shuffled, doc);
      t.startIndex == |t.urls| ==>
        t.started == s.started && t.timerActive == s.timerActive &&
        t.timerInterval == s.timerInterval && t.prefetch == s.prefetch
    ensures var t := AfterStart(s, list, shuffled, doc);
      t.startIndex < |t.urls| ==>
        t.urls[t.startIndex] == doc &&
        t.started && t.timerActive && t.timerInterval == s.delay * 1000
    ensures var t := AfterStart(s, list, shuffled, doc);
      t.startIndex < |t.urls| && TimeoutSignal(t, doc).NextUrl? ==>
        t.prefetch == Some(TimeoutSignal(t, doc).url) && t.requested == s.requested + [TimeoutSignal(t, doc).url]
    ensures var t := AfterStart(s, list, shuffled, doc);
      t.startIndex < |t.urls| && TimeoutSignal(t, doc).Finished? ==>
        t.prefetch == s.prefetch && t.requested == s.requested
  {
    var t := AfterStart(s, list, shuffled, doc);
    FindMember(t.urls, doc);
    assert doc in t.urls <==> doc in multiset(t.urls);
    assert doc in list <==> doc in multiset(list);
  }

  /** What slotTimeout emits when the document shows `doc`. */
  function TimeoutSignal(s: ShowState, doc: Url): (r: Signal)
    ensures r.NextUrl? ==> Find(s.urls, doc) < |s.urls| && r.url == s.urls[(Find(s.urls, doc) + 1) % |s.urls|]
    ensures r.Finished? <==> Find(s.urls, doc) == |s.urls| || (!s.loop && (Find(s.urls, doc) + 1) % |s.urls| == s.startIndex)
  {
    match NextStep(s.urls, doc, s.startIndex, s.loop)
    case None => Finished
    case Some(j) => NextUrl(s.urls[j])
  }

  /** The state after the single-shot timer fired and slotTimeout ran. */
  function AfterTimeout(s: ShowState, doc: Url): (t: ShowState)
    ensures Inv(s) ==> Inv(t)
    ensures !t.timerActive
    ensures TimeoutSignal(s, doc).Finished? ==> !t.started
    ensures TimeoutSignal(s, doc).NextUrl? ==> t.started == s.started
    ensures t.urls == s.urls && t.prefetch == s.prefetch && t.startIndex == s.startIndex && t.loop == s.loop
  {
    var fired := s.(timerActive := false);
    if NextStep(s.urls, doc, s.startIndex, s.loop).None? then Stopped(fired) else fired
  }

  /** slotLoaded(): only a started show re-arms its timer and prefetches. */
  function AfterLoaded(s: ShowState, doc: Url): (t: ShowState)
    ensures Inv(s) ==> Inv(t)
    ensures !s.started ==> t == s
    ensures s.started ==> t.timerActive && t.timerInterval == s.delay * 1000 && t.started
    ensures s.started && TimeoutSignal(s, doc).NextUrl? ==>
      t.prefetch == Some(TimeoutSignal(s, doc).url) && t.requested == s.requested + [TimeoutSignal(s, doc).url]
    ensures s.started && TimeoutSignal(s, doc).Finished? ==>
      t.prefetch == s.prefetch && t.requested == s.requested
    ensures t.urls == s.urls && t.startIndex == s.startIndex && t.loop == s.loop
  {
    if s.started then AfterPrefetch(s.(timerActive := true, timerInterval := s.delay * 1000), doc)
    else s
  }

  /** stop() twice leaves the state stop() once leaves. */
  lemma StopIdempotent(s: ShowState)
    ensures Stopped(Stopped(s)) == Stopped(s)
    ensures !s.started && !s.timerActive ==> Stopped(s) == s
  {
  }

  /**
   * prefetch asks for exactly the URL slotTimeout would emit next, and asks
   * for nothing exactly when slotTimeout would finish the show.
   */
  lemma PrefetchMatchesTimeout(s: ShowState, doc: Url)
    ensures TimeoutSignal(s, doc).Finished? ==> AfterPrefetch(s, doc) == s
    ensures TimeoutSignal(s, doc).NextUrl? ==>
      AfterPrefetch(s, doc).prefetch == Some(TimeoutSignal(s, doc).url) &&
      AfterPrefetch(s, doc).requested == s.requested + [TimeoutSignal(s, doc).url]
  {
  }

  /** The engine never holds more than one prefetch handle. */
  lemma AtMostOneHandle(s: ShowState)
    requires Inv(s)
    ensures s.releases <= |s.requested| <= s.releases + 1
    ensures s.prefetch.None? <==> s.releases == |s.requested|
  {
  }

  /**
   * The nextURL signals of up to `fuel` timer expiries of a started show as
   * the engine produces them: slotTimeout, then slotLoaded once the document
   * shows the URL just emitted, which re-arms the timer.
   */
  function EngineRun(s: ShowState, doc: Url, fuel: nat): (r: seq<Url>)
    requires s.started
    ensures |r| <= fuel
    decreases fuel
  {
    if fuel == 0 then []
    else match TimeoutSignal(s, doc)
      case Finished => []
      case NextUrl(u) => [u] + EngineRun(AfterLoaded(AfterTimeout(s, doc), u), u, fuel - 1)
  }

  /**
   * For every started show, the engine's transitions emit exactly the sequence
   * Run computes from its list, start and loop flag, so the facts proved
   * about Run hold of the engine.
   */
  lemma {:induction false} EngineRunIsRun(s: ShowState, doc: Url, fuel: nat)
    requires s.started
    ensures EngineRun(s, doc, fuel) == Run(s.urls, s.startIndex, s.loop, doc, fuel)
    decreases fuel
  {
    if fuel > 0 && TimeoutSignal(s, doc).NextUrl? {
      var u := TimeoutSignal(s, doc).url;
      var t := AfterLoaded(AfterTimeout(s, doc), u);
      EngineRunIsRun(t, u, fuel - 1);
    }
  }

  // ---------------------------------------------------------------------------
  // Persisted configuration
  // ---------------------------------------------------------------------------

  /** A configuration entry, typed as it was written. */
  datatype Entry = NumEntry(n: int) | BoolEntry(b: bool)

  /** A configuration file: entries keyed by (group, key). */
  type Config = map<(string, string), Entry>

  const DelayKey: string := "delay"
  const LoopKey: string := "loop"

  /** readNumEntry(key, default) in `group`. */
  function ReadNum(cfg: Config, group: string, key: string, default: int): (n: int)
    ensures (group, key) !in cfg ==> n == default
    ensures n == default || ((group, key) in cfg && cfg[(group, key)] == NumEntry(n))
  {
    if (group, key) in cfg && cfg[(group, key)].NumEntry? then cfg[(group, key)].n else default
  }

  /** readBoolEntry(key, default) in `group`. */
  function ReadBool(cfg: Config, group: string, key: string, default: bool): (b: bool)
    ensures (group, key) !in cfg ==> b == default
    ensures b == default || ((group, key) in cfg && cfg[(group, key)] == BoolEntry(b))
  {
    if (group, key) in cfg && cfg[(group, key)].BoolEntry? then cfg[(group, key)].b else default
  }

  /** The two writeEntry calls of writeConfig. */
  function WriteEntries(cfg: Config, group: string, delay: int, loop: bool): (c: Config)
    ensures c.Keys == cfg.Keys + {(group, DelayKey), (group, LoopKey)}
    ensures forall k :: k in cfg && k != (group, DelayKey) && k != (group, LoopKey) ==> c[k] == cfg[k]
  {
    cfg[(group, DelayKey) := NumEntry(delay)][(group, LoopKey) := BoolEntry(loop)]
  }

  /** writeConfig followed by readConfig on the same group restores delay and loop. */
  lemma ConfigRoundTrip(cfg: Config, group: string, delay: int, loop: bool)
    ensures ReadNum(WriteEntries(cfg, group, delay, loop), group, DelayKey, 10) == delay
    ensures ReadBool(WriteEntries(cfg, group, delay, loop), group, LoopKey, false) == loop
  {
    assert DelayKey != LoopKey;
  }

  /** A group that holds neither key reads back as delay 10 and no loop. */
  lemma ConfigDefaults(cfg: Config, group: string)
    requires (group, DelayKey) !in cfg && (group, LoopKey) !in cfg
    ensures ReadNum(cfg, group, DelayKey, 10) == 10
    ensures !ReadBool(cfg, group, LoopKey, false)
  {
  }

  // ---------------------------------------------------------------------------
  // The engine as an object
  // ---------------------------------------------------------------------------

  class SlideShow {
    var urls: seq<Url>
    var startIndex: nat
    var started: bool
    var timerActive: bool
    var timerInterval: int
    var delay: int
    var loop: bool
    var random: bool
    var prefetch: Option<Url>
    ghost var requested: seq<Url>
    ghost var releases: nat

    ghost function State(): ShowState
      reads this
    {
      ShowState(urls, startIndex, started, timerActive, timerInterval, delay, loop, random,
                prefetch, requested, releases)
    }

    ghost predicate Valid()
      reads this
    {
      Inv(State())
    }

    /**
     * The source leaves mRandom uninitialised; its initial value is a
     * parameter here.
     */
    constructor (initialRandom: bool)
      ensures Valid()
      ensures urls == [] && startIndex == 0 && !started && !timerActive && timerInterval == 0
      ensures delay == 10 && !loop && random == initialRandom && prefetch.None?
    {
      urls, startIndex := [], 0;
      started, timerActive, timerInterval := false, false, 0;
      delay, loop, random := 10, false, initialRandom;
      prefetch := None;
      requested, releases := [], 0;
    }

    method SetLoop(value: bool)
      requires Valid()
      modifies this
      ensures Valid()
      ensures State() == old(State()).(loop := value)
    {
      loop := value;
    }

    /** The live timer takes the new interval only when it is armed. */
    method SetDelay(value: int)
      requires Valid()
      modifies this
      ensures Valid()
      ensures State() == old(State()).(delay := value,
                                       timerInterval := if old(timerActive) then value * 1000 else old(timerInterval))
    {
      delay := value;
      if timerActive {
        timerInterval := value * 1000;
      }
    }

    method SetRandom(value: bool)
      requires Valid()
      modifies this
      ensures Valid()
      ensures State() == old(State()).(random := value)
    {
      random := value;
    }

    /** qFind over the copied list: the first occurrence of `doc`, or |urls|. */
    method Locate(doc: Url) returns (it: nat)
      ensures it == Find(urls, doc)
    {
      it := 0;
      while it < |urls| && urls[it] != doc
        invariant it <= |urls|
        invariant forall j :: 0 <= j < it ==> urls[j] != doc
      {
        it := it + 1;
      }
    }

    /**
     * `shuffled` is the order std::random_shuffle produced; it is used only
     * when the show is random.
     */
    method Start(list: seq<Url>, shuffled: seq<Url>, doc: Url)
      requires Valid()
      requires multiset(shuffled) == multiset(list)
      modifies this
      ensures Valid()
      ensures State() == AfterStart(old(State()), list, shuffled, doc)
    {
      ghost var before := State();
      urls := list;
      if random {
        urls := shuffled;
      }
      startIndex := Locate(doc);
      ghost var placed := before.(urls := urls, startIndex := startIndex);
      assert State() == placed;
      if startIndex == |urls| {
        assert AfterStart(before, list, shuffled, doc) == placed;
        return;
      }
      Arm();
      assert AfterStart(before, list, shuffled, doc) == AfterPrefetch(State(), doc);
      Prefetch(doc);
    }

    /** Arm the timer with the delay in milliseconds and mark the show started. */
    method Arm()
      requires Valid()
      modifies this
      ensures Valid()
      ensures State() == old(State()).(timerActive := true, timerInterval := old(delay) * 1000, started := true)
    {
      timerActive, timerInterval := true, delay * 1000;
      started := true;
    }

    method Stop()
      requires Valid()
      modifies this
      ensures Valid()
      ensures State() == Stopped(old(State()))
    {
      timerActive := false;
      started := false;
    }

    /** The single-shot timer fired: it is disarmed, then slotTimeout runs. */
    method SlotTimeout(doc: Url) returns (signal: Signal)
      requires Valid()
      modifies this
      ensures Valid()
      ensures signal == TimeoutSignal(old(State()), doc)
      ensures State() == AfterTimeout(old(State()), doc)
    {
      timerActive := false;
      var it := Locate(doc);
      if it == |urls| {
        Stop();
        return Finished;
      }
      it := it + 1;
      if it == |urls| {
        it := 0;
      }
      if it == startIndex && !loop {
        Stop();
        return Finished;
      }
      signal := NextUrl(urls[it]);
    }

    /** The document finished loading `doc`. */
    method SlotLoaded(doc: Url)
      requires Valid()
      modifies this
      ensures Valid()
      ensures State() == AfterLoaded(old(State()), doc)
    {
      if started {
        timerActive, timerInterval := true, delay * 1000;
        Prefetch(doc);
      }
    }

    method Prefetch(doc: Url)
      requires Valid()
      modifies this
      ensures Valid()
      ensures State() == AfterPrefetch(old(State()), doc)
    {
      var it := Locate(doc);
      if it == |urls| {
        return;
      }
      ghost var found := it;
      it := it + 1;
      if it == |urls| {
        it := 0;
      }
      assert it == Successor(|urls|, found);
      if it == startIndex && !loop {
        return;
      }
      assert NextStep(urls, doc, startIndex, loop) == Some(it);
      Load(urls[it]);
    }

    /** Release the handle held, if any, and request a loader for `u`. */
    method Load(u: Url)
      requires Valid()
      modifies this
      ensures Valid()
      ensures State() == old(State()).(prefetch := Some(u), requested := old(requested) + [u],
                                       releases := old(releases) + Held(old(prefetch)))
    {
      if prefetch.Some? {
        releases := releases + 1;
      }
      prefetch := Some(u);
      requested := requested + [u];
    }

    method PrefetchDone()
      requires Valid()
      modifies this
      ensures Valid()
      ensures State() == AfterPrefetchDone(old(State()))
    {
      if prefetch.Some? {
        releases := releases + 1;
        prefetch := None;
      }
    }

    /**
     * `sharedRandom` is the application-wide slideShowRandom setting, which
     * readConfig copies into the engine.
     */
    method ReadConfig(cfg: Config, group: string, sharedRandom: bool)
      requires Valid()
      modifies this
      ensures Valid()
      ensures State() == old(State()).(delay := ReadNum(cfg, group, DelayKey, 10),
                                       loop := ReadBool(cfg, group, LoopKey, false),
                                       random := sharedRandom)
    {
      delay := ReadNum(cfg, group, DelayKey, 10);
      loop := ReadBool(cfg, group, LoopKey, false);
      random := sharedRandom;
    }

    /** Returns the written configuration and the value for slideShowRandom. */
    method WriteConfig(cfg: Config, group: string) returns (written: Config, sharedRandom: bool)
      ensures ReadNum(written, group, DelayKey, 10) == delay
      ensures ReadBool(written, group, LoopKey, false) == loop
      ensures written == WriteEntries(cfg, group, delay, loop)
      ensures sharedRandom == random
    {
      written := WriteEntries(cfg, group, delay, loop);
      ConfigRoundTrip(cfg, group, delay, loop);
      sharedRandom := random;
    }
  }

  // ---------------------------------------------------------------------------
  // A client of the engine
  // ---------------------------------------------------------------------------

  /**
   * One timer expiry of a non-looping show over distinct URLs while index i
   * is displayed and the next index is not the start: the show emits the
   * next URL, and once the display has loaded it the list, the start index
   * and the loop flag are as they were.
   */
  lemma AdvanceStep(s: ShowState, i: nat)
    requires Distinct(s.urls) && i < |s.urls| && !s.loop
    requires Successor(|s.urls|, i) != s.startIndex
    ensures TimeoutSignal(s, s.urls[i]) == NextUrl(s.urls[Successor(|s.urls|, i)])
    ensures var t := AfterLoaded(AfterTimeout(s, s.urls[i]), s.urls[Successor(|s.urls|, i)]);
            t.urls == s.urls && t.startIndex == s.startIndex && !t.loop
  {
    FindDistinct(s.urls, i);
  }

  /**
   * Starting a non-random show over distinct URLs while the URL at index i
   * is displayed keeps the list as given, starts at i and arms the timer.
   */
  lemma StartStep(s: ShowState, list: seq<Url>, i: nat)
    requires Distinct(list) && i < |list| && !s.random
    ensures var t := AfterStart(s, list, list, list[i]);
            t.urls == list && t.startIndex == i && t.loop == s.loop && t.started
  {
    FindDistinct(list, i);
    StartEffect(s, list, list, list[i]);
  }

  /**
   * The timer expiry of a non-looping show over distinct URLs whose next
   * index is the start index emits finished and stops the show.
   */
  lemma FinishStep(s: ShowState, i: nat)
    requires Distinct(s.urls) && i < |s.urls| && !s.loop
    requires Successor(|s.urls|, i) == s.startIndex
    ensures TimeoutSignal(s, s.urls[i]) == Finished
    ensures !AfterTimeout(s, s.urls[i]).started
  {
    FindDistinct(s.urls, i);
  }

  /**
   * A non-looping show over three distinct URLs [a, b, c] started while b
   * is displayed, with the display following each nextURL: the show emits c,
   * then a, then finishes when the next index is b's again.
   */
  lemma ThreeImageShow(a: Url, b: Url, c: Url, s0: ShowState, s1: ShowState, s2: ShowState, s3: ShowState)
    requires a != b && b != c && a != c
    requires !s0.random && !s0.loop
    requires s1 == AfterStart(s0, [a, b, c], [a, b, c], b)
    requires s2 == AfterLoaded(AfterTimeout(s1, b), c)
    requires s3 == AfterLoaded(AfterTimeout(s2, c), a)
    ensures s1.started
    ensures TimeoutSignal(s1, b) == NextUrl(c)
    ensures TimeoutSignal(s2, c) == NextUrl(a)
    ensures TimeoutSignal(s3, a) == Finished && !AfterTimeout(s3, a).started
  {
    var list := [a, b, c];
    assert Distinct(list);
    assert list[0] == a && list[1] == b && list[2] == c;
    StartStep(s0, list, 1);
    assert s1.urls == list && s1.startIndex == 1 && !s1.loop;
    assert Successor(3, 1) == 2 && Successor(3, 2) == 0 && Successor(3, 0) == 1;
    AdvanceStep(s1, 1);
    assert s2.urls == list && s2.startIndex == 1 && !s2.loop;
    AdvanceStep(s2, 2);
    assert s3.urls == list && s3.startIndex == 1 && !s3.loop;
    FinishStep(s3, 0);
  }

  /** Changing the delay from 10 to 2 while the timer is armed re-arms it with 2000 ms. */
  method DelayChangeWhileRunning() returns (before: int, after: int)
    ensures before == 10000 && after == 2000
  {
    var show := new SlideShow(false);
    ghost var initial := show.State();
    show.Start(["A", "B"], ["A", "B"], "A");
    assert Find(["A", "B"], "A") == 0;
    StartEffect(initial, ["A", "B"], ["A", "B"], "A");
    before := show.timerInterval;
    show.SetDelay(2);
    after := show.timerInterval;
  }
}
