// The one-slot cache in front of Modrinth's modpack search.
module SearchCache {
  import opened Common

  type Hits = seq<string>
  datatype Request = Request(query: string, mcVersion: string)

  // A successful fetch, in the order in which they filled the slot.
  datatype Fetched = Fetched(request: Request, hits: Hits)

  // key, hits and expiresAt; hits are nil until the first fetch.
  datatype Slot = Slot(key: string, hits: Option<Hits>, expiresAt: int)

  const EMPTY := Slot("", None, 0)

  function SearchCacheKey(r: Request): string { r.query + "|" + r.mcVersion }

  // What the slot holds for a key, and whether it is still fresh.
  function Get(s: Slot, key: string, now: int): (Option<Hits>, bool) {
    if s.key != key || s.hits.None? then (None, false) else (s.hits, now < s.expiresAt)
  }

  // The hits of the most recent successful fetch for this very request.
  function MostRecent(log: seq<Fetched>, r: Request): Option<Hits> {
    if log == [] then None
    else if log[|log| - 1].request == r then Some(log[|log| - 1].hits)
    else MostRecent(log[..|log| - 1], r)
  }

  // The same for whichever request had this cache key.
  function MostRecentByKey(log: seq<Fetched>, key: string): Option<Hits> {
    if log == [] then None
    else if SearchCacheKey(log[|log| - 1].request) == key then Some(log[|log| - 1].hits)
    else MostRecentByKey(log[..|log| - 1], key)
  }

  lemma {:induction false} KeyNamesRequest(log: seq<Fetched>, r: Request, rs: iset<Request>)
    requires InjectiveOn(rs) && LogWithin(log, rs) && r in rs
    ensures MostRecentByKey(log, SearchCacheKey(r)) == MostRecent(log, r)
  {
    if log == [] {
    } else {
      KeyNamesRequest(log[..|log| - 1], r, rs);
    }
  }

  // A search may answer with those hits, or with the empty list when its fetch failed.
  ghost predicate SoundAnswer(log: seq<Fetched>, r: Request, answer: Hits, failed: bool) {
    MostRecent(log, r) == Some(answer) || (failed && answer == [])
  }

  lemma AnswersByKey(log: seq<Fetched>, r: Request, answer: Hits, failed: bool)
    requires MostRecentByKey(log, SearchCacheKey(r)) == Some(answer) || (failed && answer == [])
    ensures forall rs | InjectiveOn(rs) && LogWithin(log, rs) && r in rs :: SoundAnswer(log, r, answer, failed)
  {
    forall rs | InjectiveOn(rs) && LogWithin(log, rs) && r in rs ensures SoundAnswer(log, r, answer, failed) {
      KeyNamesRequest(log, r, rs);
    }
  }

  // The slot holds the latest successful fetch of all.
  ghost predicate SlotInv(s: Slot, log: seq<Fetched>) {
    if log == [] then s.hits.None?
    else s.key == SearchCacheKey(log[|log| - 1].request) && s.hits == Some(log[|log| - 1].hits)
  }

  ghost predicate InjectiveOn(rs: iset<Request>) {
    forall a, b | a in rs && b in rs :: SearchCacheKey(a) == SearchCacheKey(b) ==> a == b
  }

  ghost predicate LogWithin(log: seq<Fetched>, rs: iset<Request>) {
    forall i | 0 <= i < |log| :: log[i].request in rs
  }

  lemma {:induction false} SlotAnswers(s: Slot, log: seq<Fetched>, r: Request, now: int, rs: iset<Request>)
    requires SlotInv(s, log) && InjectiveOn(rs) && LogWithin(log, rs) && r in rs
    requires Get(s, SearchCacheKey(r), now).0.Some?
    ensures MostRecent(log, r) == Get(s, SearchCacheKey(r), now).0
  {}

  class ModrinthSearchCache {
    var key: string
    var hits: Option<Hits>
    var expiresAt: int
    const ttl: int

    constructor (ttl: int)
      ensures Slot(key, hits, expiresAt) == EMPTY && this.ttl == ttl
    {
      key, hits, expiresAt, this.ttl := "", None, 0, ttl;
    }

    method Lookup(k: string, now: int) returns (found: Option<Hits>, isFresh: bool)
      ensures (found, isFresh) == Get(Slot(key, hits, expiresAt), k, now)
    {
      if key != k || hits.None? { return None, false; }
      return hits, now < expiresAt;
    }

    method Store(k: string, h: Hits, now: int)
      modifies this
      ensures Slot(key, hits, expiresAt) == Slot(k, Some(h), now + ttl)
    {
      key, hits, expiresAt := k, Some(h), now + ttl;
    }
  }

  class ModrinthService {
    const cache: ModrinthSearchCache
    ghost var log: seq<Fetched>
    ghost var fetches: nat
    ghost var faults: nat                 // fetches that failed

    ghost predicate Valid()
      reads this, cache
    {
      SlotInv(Slot(cache.key, cache.hits, cache.expiresAt), log)
    }

    constructor (ttl: int)
      ensures Valid() && fresh(cache) && cache.ttl == ttl && log == [] && fetches == faults == 0
    {
      cache := new ModrinthSearchCache(ttl);
      log, fetches, faults := [], 0, 0;
    }

    // Modrinth's answer, or a failure.
    method FetchSearch(r: Request) returns (ok: bool, hits: Hits)
      modifies this`fetches, this`faults
      ensures fetches == old(fetches) + 1 && faults == old(faults) + (if ok then 0 else 1)
    {
      ok, hits := *, *;
      fetches := fetches + 1;
      if !ok { faults := faults + 1; }
    }

    // The slot holds hits for this key that have not expired at the given time.
    ghost predicate Holds(r: Request, time: int)
      reads cache
    {
      cache.key == r.query + "|" + r.mcVersion && cache.hits.Some? && time < cache.expiresAt
    }

    // Whatever was searched before, the answer is the latest fetch with this cache
    // key, or the empty list after a failure; among requests that the key tells apart
    // it is the latest fetch for this very request. The slot is asked at `now`, and, as
    // fetches wait for each other, again `later`; Modrinth is asked exactly if neither
    // time the slot held hits for the key that had not expired.
    method Search(r: Request, now: int, later: int, stored: int) returns (answer: Hits, ghost failed: bool)
      requires Valid()
      modifies this, cache
      ensures Valid()
      ensures log == old(log) || log == old(log) + [Fetched(r, answer)]
      ensures MostRecentByKey(log, SearchCacheKey(r)) == Some(answer) || (failed && answer == [])
      ensures forall rs | InjectiveOn(rs) && LogWithin(old(log), rs) && r in rs ::
                LogWithin(log, rs) && SoundAnswer(log, r, answer, failed)
      ensures failed ==> log == old(log)
      ensures failed <==> faults > old(faults)
      ensures fetches == old(fetches) + (if old(Holds(r, now)) || old(Holds(r, later)) then 0 else 1)
      ensures fetches == old(fetches) ==>
                log == old(log) && unchanged(cache) && cache.hits == Some(answer)
      ensures fetches > old(fetches) && !failed ==>
                && log == old(log) + [Fetched(r, answer)] && cache.key == r.query + "|" + r.mcVersion
                && cache.hits == Some(answer) && cache.expiresAt == stored + cache.ttl
      ensures failed ==> unchanged(cache)
      ensures failed ==>
                var stale := Get(old(Slot(cache.key, cache.hits, cache.expiresAt)), SearchCacheKey(r), 0).0;
                answer == if stale.Some? then stale.value else []
    {
      failed := false;
      var key := SearchCacheKey(r);
      var found, isFresh := cache.Lookup(key, now);
      if isFresh {
        AnswersByKey(log, r, found.value, false);
        return found.value, false;
      }
      found, isFresh := cache.Lookup(key, later);
      if isFresh {
        AnswersByKey(log, r, found.value, false);
        return found.value, false;
      }
      var ok, hits := FetchSearch(r);
      if !ok {
        failed := true;
        found, isFresh := cache.Lookup(key, later);
        answer := if found.Some? then found.value else [];
        AnswersByKey(log, r, answer, true);
        return;
      }
      cache.Store(key, hits, stored);
      log := log + [Fetched(r, hits)];
      answer := hits;
      AnswersByKey(log, r, answer, false);
    }
  }

  // ---- Concurrent searches ----

  // fetchMu admits one fetch at a time; hits are served without it.
  datatype World = World(slot: Slot, fetching: Option<Request>, log: seq<Fetched>)

  datatype Step =
    | Hit(request: Request, now: int)                       // fresh, before or after taking the mutex
    | Begin(request: Request, now: int)                     // stale or absent: go and fetch
    | FetchOk(hits: Hits, expiresAt: int)
    | FetchErr(now: int)

  const START := World(EMPTY, None, [])

  ghost predicate Enabled(w: World, s: Step) {
    match s
    case Hit(r, now) => Get(w.slot, SearchCacheKey(r), now).1
    case Begin(r, now) => w.fetching.None? && !Get(w.slot, SearchCacheKey(r), now).1
    case FetchOk(_, _) => w.fetching.Some?
    case FetchErr(_) => w.fetching.Some?
  }

  function Apply(w: World, s: Step): World {
    match s
    case Hit(_, _) => w
    case Begin(r, _) => w.(fetching := Some(r))
    case FetchOk(hits, expiresAt) =>
      if w.fetching.None? then w
      else World(Slot(SearchCacheKey(w.fetching.value), Some(hits), expiresAt), None,
        w.log + [Fetched(w.fetching.value, hits)])
    case FetchErr(_) => w.(fetching := None)
  }

  // The answers of one step are sound; Begin answers nothing yet.
  ghost predicate StepSound(w: World, s: Step)
    requires Enabled(w, s)
  {
    match s
    case Hit(r, now) => SoundAnswer(w.log, r, Get(w.slot, SearchCacheKey(r), now).0.value, false)
    case Begin(_, _) => true
    case FetchOk(hits, _) => SoundAnswer(Apply(w, s).log, w.fetching.value, hits, false)
    case FetchErr(now) =>
      var stale := Get(w.slot, SearchCacheKey(w.fetching.value), now).0;
      SoundAnswer(w.log, w.fetching.value, if stale.Some? then stale.value else [], true)
  }

  ghost predicate RequestsWithin(steps: seq<Step>, rs: iset<Request>) {
    forall i | 0 <= i < |steps| :: (steps[i].Hit? || steps[i].Begin?) ==> steps[i].request in rs
  }

  ghost predicate RunSound(w: World, steps: seq<Step>)
    decreases |steps|
  {
    steps == [] || !Enabled(w, steps[0]) || (StepSound(w, steps[0]) && RunSound(Apply(w, steps[0]), steps[1..]))
  }

  lemma {:induction false} InjectiveRunsAreSound(w: World, steps: seq<Step>, rs: iset<Request>)
    requires SlotInv(w.slot, w.log) && InjectiveOn(rs) && LogWithin(w.log, rs) && RequestsWithin(steps, rs)
    requires w.fetching.Some? ==> w.fetching.value in rs
    ensures RunSound(w, steps)
    decreases |steps|
  {
    if steps != [] && Enabled(w, steps[0]) {
      match steps[0] {
        case Hit(r, now) => SlotAnswers(w.slot, w.log, r, now, rs);
        case Begin(r, now) =>
        case FetchOk(hits, e) =>
        case FetchErr(now) =>
          if Get(w.slot, SearchCacheKey(w.fetching.value), now).0.Some? {
            SlotAnswers(w.slot, w.log, w.fetching.value, now, rs);
          }
      }
      InjectiveRunsAreSound(Apply(w, steps[0]), steps[1..], rs);
    }
  }

  // Over a set of requests, every interleaving answers soundly exactly when the
  // cache key tells the requests apart.
  lemma SoundIffInjective(rs: iset<Request>)
    ensures (forall steps | RequestsWithin(steps, rs) :: RunSound(START, steps)) <==> InjectiveOn(rs)
  {
    if InjectiveOn(rs) {
      forall steps | RequestsWithin(steps, rs) ensures RunSound(START, steps) {
        InjectiveRunsAreSound(START, steps, rs);
      }
    } else {
      var a, b :| a in rs && b in rs && SearchCacheKey(a) == SearchCacheKey(b) && a != b;
      var steps := CollisionIsUnsound(a, b);
      assert RequestsWithin(steps, rs);
    }
  }

  // Two requests with one key: the second is served the first one's hits.
  lemma {:induction false} CollisionIsUnsound(a: Request, b: Request) returns (steps: seq<Step>)
    requires SearchCacheKey(a) == SearchCacheKey(b) && a != b
    ensures steps == [Begin(a, 0), FetchOk(["hit"], 1), Hit(b, 0)] && !RunSound(START, steps)
  {
    steps := [Begin(a, 0), FetchOk(["hit"], 1), Hit(b, 0)];
    var w1, w2 := Apply(START, steps[0]), Apply(Apply(START, steps[0]), steps[1]);
    assert w2.log == [Fetched(a, ["hit"])] && w2.log[..0] == [];
    assert MostRecent([], b).None?;
    assert !StepSound(w2, steps[2]);
    assert steps[1..][1..] == [steps[2]] && !RunSound(w2, [steps[2]]);
    assert steps[1..][0] == steps[1] && !RunSound(w1, steps[1..]);
  }

  // Versions without '|' are told apart.
  lemma BarFreeVersionsAreInjective()
    ensures InjectiveOn(iset r: Request | '|' !in r.mcVersion)
  {
    forall a: Request, b: Request | '|' !in a.mcVersion && '|' !in b.mcVersion && SearchCacheKey(a) == SearchCacheKey(b)
      ensures a == b
    {
      var k := SearchCacheKey(a);
      LastBar(a, k);
      LastBar(b, k);
      assert a.query == k[..|a.query|] && a.mcVersion == k[|a.query| + 1..];
      assert b.query == k[..|b.query|] && b.mcVersion == k[|b.query| + 1..];
    }
  }

  lemma {:induction false} LastBar(r: Request, k: string)
    requires '|' !in r.mcVersion && k == SearchCacheKey(r)
    ensures |r.query| < |k| && k[|r.query|] == '|' && forall i | |r.query| < i < |k| :: k[i] != '|'
  {}

  lemma {:induction false} BarCollides(a: string, b: string, c: string)
    ensures SearchCacheKey(Request(a, b + "|" + c)) == SearchCacheKey(Request(a + "|" + b, c))
  {}
}
