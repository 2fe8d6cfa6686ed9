/**
 The crawler of backend/arena/ingest/crawler.py: it works the queue in batches, fetches each id a batch lists
 once, and stops at its budgets. It is proved against the crawl of one player at a time.
 */
module Crawler {
  import opened Wrappers
  import opened Arena
  import opened CrawlGraph

  // ---- Batches ----

  /** What a batch of entries lists together, in order. */
  function BatchListing(c: Crawl, batch: seq<(string, int)>): seq<(string, int)> {
    if batch == [] then [] else BatchListing(c, batch[..|batch| - 1]) + Listing(c, batch[|batch| - 1])
  }

  /** The ids of a listing to fetch: not seen before the batch, and each where it is listed first. */
  function Candidates(listing: seq<(string, int)>, seen: set<string>): seq<(string, int)> {
    if listing == [] then []
    else
      var front, last := Candidates(listing[..|listing| - 1], seen), listing[|listing| - 1];
      if last.0 in seen || last.0 in Names(front) then front else front + [last]
  }

  lemma {:induction false} VisitAllAppends(c: Crawl, s: State, a: seq<(string, int)>, b: seq<(string, int)>)
    ensures VisitAll(c, s, a + b) == VisitAll(c, VisitAll(c, s, a), b)
  {
    if b == [] {
      assert a + b == a;
    } else {
      VisitAllAppends(c, s, a, b[..|b| - 1]);
      assert (a + b)[..|a + b| - 1] == a + b[..|b| - 1];
    }
  }

  lemma {:induction false} VisitAllIgnoresPopped(c: Crawl, s: State, listing: seq<(string, int)>, popped: nat)
    ensures VisitAll(c, s.(popped := popped), listing) == VisitAll(c, s, listing).(popped := popped)
  {
    if listing != [] { VisitAllIgnoresPopped(c, s, listing[..|listing| - 1], popped); }
  }

  lemma {:induction false} VisitAllExtends(c: Crawl, s: State, listing: seq<(string, int)>)
    ensures var t := VisitAll(c, s, listing);
            s.queued <= t.queued && s.found <= t.found && s.seen <= t.seen && t.popped == s.popped
  {
    if listing != [] { VisitAllExtends(c, s, listing[..|listing| - 1]); }
  }

  /** Popping one more entry behind a batch is working a longer batch. */
  lemma OneMoreEntry(c: Crawl, s: State, front: seq<(string, int)>, entry: (string, int))
    requires s.popped + |front| < |s.queued| && s.queued[s.popped + |front|] == entry
    ensures Pop(c, VisitAll(c, s.(popped := s.popped + |front|), BatchListing(c, front)))
         == VisitAll(c, s.(popped := s.popped + |front| + 1), BatchListing(c, front + [entry]))
  {
    hide Visit, VisitAll, Listing;
    assert (front + [entry])[..|front|] == front;
    var s' := s.(popped := s.popped + |front|);
    VisitAllExtends(c, s', BatchListing(c, front));
    VisitAllIgnoresPopped(c, s', BatchListing(c, front), s.popped + |front| + 1);
    VisitAllAppends(c, s.(popped := s.popped + |front| + 1), BatchListing(c, front), Listing(c, entry));
  }

  /** Popping n entries one by one is popping them at once and resolving what they list together. */
  lemma {:induction false} PopBatch(c: Crawl, seeds: seq<string>, k: nat, n: nat)
    requires After(c, seeds, k).popped + n <= |After(c, seeds, k).queued|
    ensures var s := After(c, seeds, k);
            After(c, seeds, k + n) == VisitAll(c, s.(popped := s.popped + n),
                                               BatchListing(c, s.queued[s.popped..s.popped + n]))
  {
    hide Visit, VisitAll, Listing, Start, Pop;
    var s := After(c, seeds, k);
    if n == 0 {
      VisitNothing(c, s);
      assert s.queued[s.popped..s.popped] == [];
    } else {
      PopBatch(c, seeds, k, n - 1);
      var front, entry := s.queued[s.popped..s.popped + n - 1], s.queued[s.popped + n - 1];
      assert s.queued[s.popped..s.popped + n] == front + [entry];
      OneMoreEntry(c, s, front, entry);
    }
  }

  lemma {:induction false} CandidatesEffect(listing: seq<(string, int)>, seen: set<string>)
    ensures DistinctIds(Candidates(listing, seen))
    ensures forall e <- Candidates(listing, seen) :: e.0 !in seen && e in listing
    ensures forall e <- listing :: e.0 in seen || e.0 in Names(Candidates(listing, seen))
  {
    if listing != [] {
      CandidatesEffect(listing[..|listing| - 1], seen);
      var front, last := Candidates(listing[..|listing| - 1], seen), listing[|listing| - 1];
      assert forall e <- front :: e.0 in Names(front);
      if last.0 !in seen && last.0 !in Names(front) {
        assert (front + [last])[|front|] == last;
        assert forall e <- front :: e in front + [last];
      }
    }
  }

  lemma {:induction false} Resolved(c: Crawl, s: State, listing: seq<(string, int)>)
    ensures forall e <- listing :: e.0 in VisitAll(c, s, listing).seen || c.src.fetch(e.0).None?
    ensures VisitAll(c, s, listing).seen <= s.seen + Names(listing)
  {
    if listing != [] {
      var front, last := listing[..|listing| - 1], listing[|listing| - 1];
      Resolved(c, s, front);
      assert listing == front + [last] && last in listing;
      assert forall e <- front :: e in listing;
    }
  }

  /** Fetching an id once per batch has the effect of resolving it wherever it is listed. */
  lemma {:induction false} CandidatesSuffice(c: Crawl, s: State, listing: seq<(string, int)>)
    ensures VisitAll(c, s, Candidates(listing, s.seen)) == VisitAll(c, s, listing)
  {
    if listing != [] {
      var rest, last := listing[..|listing| - 1], listing[|listing| - 1];
      CandidatesSuffice(c, s, rest);
      var front := Candidates(rest, s.seen);
      if last.0 in s.seen {
        VisitAllExtends(c, s, rest);
      } else if last.0 in Names(front) {
        var e :| e in front && e.0 == last.0;
        Resolved(c, s, front);
      } else {
        assert (front + [last])[..|front|] == front;
      }
    }
  }

  // ---- Prefixes ----

  lemma {:induction false} FoundExtends(c: Crawl, seeds: seq<string>, j: nat, k: nat)
    requires j <= k
    ensures After(c, seeds, j).found <= After(c, seeds, k).found
    decreases k
  {
    hide VisitAll, Listing, Start;
    if j < k {
      FoundExtends(c, seeds, j, k - 1);
      var s := After(c, seeds, k - 1);
      if s.popped < |s.queued| { VisitAllExtends(c, s.(popped := s.popped + 1), Listing(c, s.queued[s.popped])); }
    }
  }

  lemma {:induction false} EmptyStays(c: Crawl, seeds: seq<string>, j: nat, k: nat)
    requires j <= k && After(c, seeds, j).popped >= |After(c, seeds, j).queued|
    ensures After(c, seeds, k) == After(c, seeds, j)
    decreases k
  {
    hide VisitAll, Listing, Start;
    if j < k { EmptyStays(c, seeds, j, k - 1); }
  }

  /** The payloads of the found matches. */
  function Payloads(c: Crawl, found: seq<(string, int)>): seq<ParsedArenaMatch> {
    if found == [] then []
    else
      Payloads(c, found[..|found| - 1])
      + (var m := c.src.fetch(found[|found| - 1].0); if m.Some? then [m.value] else [])
  }

  lemma {:induction false} PayloadsPrefix(c: Crawl, a: seq<(string, int)>, b: seq<(string, int)>)
    requires a <= b
    ensures Payloads(c, a) <= Payloads(c, b)
  {
    if a == b {
    } else {
      PayloadsPrefix(c, a, b[..|b| - 1]);
    }
  }

  lemma NotYetSeen(c: Crawl, s: State, cand: seq<(string, int)>, i: nat)
    requires DistinctIds(cand) && (forall e <- cand :: e.0 !in s.seen) && i < |cand|
    ensures cand[i].0 !in VisitAll(c, s, cand[..i]).seen
  {
    Resolved(c, s, cand[..i]);
    assert cand[i] in cand;
    forall e | e in cand[..i] ensures e.0 != cand[i].0 {
      var j :| 0 <= j < i && cand[j] == e;
    }
  }

  lemma StartState(c: Crawl, seeds: seq<string>)
    ensures After(c, seeds, 0) == State(Entries(seeds, 0), 0, c.known, []) && Payloads(c, []) == []
  {
  }

  /** Whatever has been found by now is a beginning of what the finished crawl finds. */
  lemma StillFinds(c: Crawl, seeds: seq<string>, k: nat)
    ensures Payloads(c, After(c, seeds, k).found) <= Payloads(c, Finished(c, seeds).found)
  {
    if k <= Bound(c, seeds) {
      FoundExtends(c, seeds, k, Bound(c, seeds));
    } else {
      FinishedIsEmpty(c, seeds);
      EmptyStays(c, seeds, Bound(c, seeds), k);
    }
    PayloadsPrefix(c, After(c, seeds, k).found, Finished(c, seeds).found);
  }

  /** While entries are left, fewer than the bound have been taken. */
  lemma BelowBound(c: Crawl, seeds: seq<string>, k: nat)
    requires After(c, seeds, k).popped < |After(c, seeds, k).queued|
    ensures After(c, seeds, k).popped == k < Bound(c, seeds)
  {
    AfterRests(c, seeds, k);
    QueueBounded(c, seeds, After(c, seeds, k));
  }

  /** When nothing is left, the crawl is finished. */
  lemma AllFound(c: Crawl, seeds: seq<string>, k: nat)
    requires After(c, seeds, k).popped >= |After(c, seeds, k).queued|
    ensures After(c, seeds, k) == Finished(c, seeds)
  {
    if k <= Bound(c, seeds) {
      EmptyStays(c, seeds, k, Bound(c, seeds));
    } else {
      FinishedIsEmpty(c, seeds);
      EmptyStays(c, seeds, Bound(c, seeds), k);
    }
  }

  // ---- What a crawl costs ----

  /** The requests for one entry's lists. */
  function EntryCalls(c: Crawl, entry: (string, int)): nat {
    if entry.1 <= c.cfg.depth then IdsOver(c, entry.0, c.cfg.queues).1 else 0
  }

  function ListCalls(c: Crawl, batch: seq<(string, int)>): nat {
    if batch == [] then 0 else ListCalls(c, batch[..|batch| - 1]) + EntryCalls(c, batch[|batch| - 1])
  }

  /** The calls of a batch: its lists, and each candidate once. */
  function BatchCalls(c: Crawl, s: State, batch: seq<(string, int)>): nat {
    ListCalls(c, batch) + |Candidates(BatchListing(c, batch), s.seen)|
  }

  /** The entries the next batch takes off the queue. */
  function NextBatch(c: Crawl, s: State): seq<(string, int)> {
    Take(Drop(s.queued, s.popped), c.cfg.batch)
  }

  /** How many entries the first b batches of a crawl take. */
  function Popped(c: Crawl, seeds: seq<string>, b: nat): nat {
    if b == 0 then 0
    else
      var k := Popped(c, seeds, b - 1);
      k + |NextBatch(c, After(c, seeds, k))|
  }

  /** How many calls they cost. */
  function Spent(c: Crawl, seeds: seq<string>, b: nat): nat {
    if b == 0 then 0
    else
      var s := After(c, seeds, Popped(c, seeds, b - 1));
      Spent(c, seeds, b - 1) + BatchCalls(c, s, NextBatch(c, s))
  }

  /** A number of calls the budget allows. */
  predicate Affordable(c: Crawl, calls: nat) {
    calls == 0 || (c.cfg.maxApiCalls.Some? ==> calls <= c.cfg.maxApiCalls.value)
  }

  lemma {:induction false} SpentGrows(c: Crawl, seeds: seq<string>, a: nat, b: nat)
    requires a <= b
    ensures Spent(c, seeds, a) <= Spent(c, seeds, b)
    decreases b
  {
    hide BatchCalls, NextBatch;
    if a < b { SpentGrows(c, seeds, a, b - 1); }
  }

  lemma NoNextBatch(c: Crawl, s: State)
    requires s.popped >= |s.queued|
    ensures NextBatch(c, s) == [] && BatchCalls(c, s, []) == 0
  {
    NothingToFetch(s.seen);
  }

  /** The cost of a batch is that of the part of it that lists anything. */
  lemma CostOfKept(c: Crawl, s: State, taken: seq<(string, int)>, batch: seq<(string, int)>)
    requires BatchListing(c, batch) == BatchListing(c, taken) && ListCalls(c, batch) == ListCalls(c, taken)
    ensures BatchCalls(c, s, taken) == ListCalls(c, batch) + |Candidates(BatchListing(c, batch), s.seen)|
    ensures batch == [] ==> BatchCalls(c, s, taken) == 0 && BatchListing(c, taken) == []
  {
    NothingToFetch(s.seen);
  }

  /** Once the queue is empty further batches cost nothing. */
  lemma {:induction false} SpentStays(c: Crawl, seeds: seq<string>, a: nat, b: nat)
    requires a <= b
    requires var s := After(c, seeds, Popped(c, seeds, a)); s.popped >= |s.queued|
    ensures Spent(c, seeds, b) == Spent(c, seeds, a) && Popped(c, seeds, b) == Popped(c, seeds, a)
    decreases b
  {
    hide After, NextBatch, BatchCalls;
    if a < b {
      SpentStays(c, seeds, a, b - 1);
      NoNextBatch(c, After(c, seeds, Popped(c, seeds, a)));
    }
  }

  /**
   How a crawl of which b batches have been worked in full may end: with nothing left; with a batch the budget does
   not allow, of which nothing is yielded; or in the middle of the next batch, at the match limit.
   */
  ghost predicate EndsAfter(c: Crawl, seeds: seq<string>, b: nat, out: seq<ParsedArenaMatch>, stop: Stop) {
    var s := After(c, seeds, Popped(c, seeds, b));
    && Affordable(c, Spent(c, seeds, b))
    && match stop
       case Exhausted => s.popped >= |s.queued| && out == Payloads(c, s.found)
       case ApiBudget => !Affordable(c, Spent(c, seeds, b + 1)) && out == Payloads(c, s.found)
       case MatchLimit =>
         && Affordable(c, Spent(c, seeds, b + 1))
         && Payloads(c, s.found) <= out <= Payloads(c, After(c, seeds, Popped(c, seeds, b + 1)).found)
  }

  lemma NothingSpent(c: Crawl, seeds: seq<string>)
    ensures Popped(c, seeds, 0) == Spent(c, seeds, 0) == 0
  {
  }

  /** One more batch of n entries. */
  lemma BatchStep(c: Crawl, seeds: seq<string>, b: nat, n: nat)
    requires var s := After(c, seeds, Popped(c, seeds, b));
             && s.popped < |s.queued|
             && n == if c.cfg.batch < |s.queued| - s.popped then c.cfg.batch else |s.queued| - s.popped
    ensures var s := After(c, seeds, Popped(c, seeds, b));
            var taken := s.queued[s.popped..s.popped + n];
            && Popped(c, seeds, b + 1) == Popped(c, seeds, b) + n
            && Spent(c, seeds, b + 1) == Spent(c, seeds, b) + BatchCalls(c, s.(popped := s.popped + n), taken)
  {
    hide After, Candidates, ListCalls, BatchListing;
    var s := After(c, seeds, Popped(c, seeds, b));
    assert NextBatch(c, s) == s.queued[s.popped..s.popped + n];
  }

  lemma EndsHere(c: Crawl, seeds: seq<string>, b: nat, out: seq<ParsedArenaMatch>, stop: Stop)
    requires Affordable(c, Spent(c, seeds, b))
    requires var s := After(c, seeds, Popped(c, seeds, b));
             match stop
             case Exhausted => s.popped >= |s.queued| && out == Payloads(c, s.found)
             case ApiBudget => !Affordable(c, Spent(c, seeds, b + 1)) && out == Payloads(c, s.found)
             case MatchLimit =>
               && Affordable(c, Spent(c, seeds, b + 1))
               && Payloads(c, s.found) <= out <= Payloads(c, After(c, seeds, Popped(c, seeds, b + 1)).found)
    ensures EndsAfter(c, seeds, b, out, stop)
  {
    hide After, Payloads, Spent, Popped;
  }

  /** The budget runs out exactly when some number of batches costs more than it, unless the match limit comes first. */
  lemma BudgetDecides(c: Crawl, seeds: seq<string>, b: nat, out: seq<ParsedArenaMatch>, stop: Stop)
    requires EndsAfter(c, seeds, b, out, stop) && !stop.MatchLimit?
    ensures stop.ApiBudget? <==> exists a: nat :: !Affordable(c, Spent(c, seeds, a))
  {
    hide After, Spent, Popped, Payloads;
    if stop.Exhausted? {
      forall a: nat ensures Affordable(c, Spent(c, seeds, a)) {
        if a <= b { SpentGrows(c, seeds, a, b); } else { SpentStays(c, seeds, b, a); }
      }
    } else {
      assert !Affordable(c, Spent(c, seeds, b + 1));
    }
  }

  // ---- The crawler ----

  /** What one page adds to the pages behind it. */
  lemma OnePage(c: Crawl, puuid: string, queue: int, page: nat)
    requires page < c.cfg.idsMaxPages
    ensures PagesFrom(c, puuid, queue, page) ==
            match c.src.page(puuid, PageStart(c.cfg, page), c.cfg.idsPage, queue)
            case None => (None, 1)
            case Some(got) =>
              if got == [] || |got| < c.cfg.idsPage then (Some(got), 1)
              else
                var (rest, calls) := PagesFrom(c, puuid, queue, page + 1);
                (if rest.Some? then Some(got + rest.value) else None, calls + 1)
    ensures PagesFrom(c, puuid, queue, page).1 >= 1
  {
    hide PageStart;
  }

  lemma NoPage(c: Crawl, puuid: string, queue: int)
    ensures PagesFrom(c, puuid, queue, c.cfg.idsMaxPages) == (Some([]), 0)
  {
  }

  /** The requests for a queue: pages are asked for from the first one on, up to one that is not full or the last. */
  lemma {:induction false} PagesCounted(c: Crawl, puuid: string, queue: int, page: nat)
    requires page <= c.cfg.idsMaxPages
    ensures var n := PagesFrom(c, puuid, queue, page).1;
            && page + n <= c.cfg.idsMaxPages
            && (forall k: nat :: page <= k < page + n - 1 ==> GoesOn(c, puuid, queue, k))
            && (page + n < c.cfg.idsMaxPages ==> n >= 1 && !GoesOn(c, puuid, queue, page + n - 1))
    decreases c.cfg.idsMaxPages - page
  {
    if page < c.cfg.idsMaxPages {
      OnePage(c, puuid, queue, page);
      if GoesOn(c, puuid, queue, page) { PagesCounted(c, puuid, queue, page + 1); }
    }
  }

  /** What fetching one player's list comes to: the ids, a failed request, or the call budget. */
  datatype IdsResult = Ids(ids: seq<string>) | Failed | OverBudget

  /** Why a crawl ended. */
  datatype Stop = Exhausted | MatchLimit | ApiBudget

  /** The most a crawl yields: the limit is only looked at after a yield. */
  function YieldLimit(max: int): (limit: nat)
    ensures limit >= 1 && limit >= max && (limit == 1 || limit == max)
  {
    if max >= 1 then max else 1
  }

  /** How many of n matches a crawl yields under a match limit: a limit of zero still lets one through. */
  function Capped(max: Option<int>, n: nat): (yielded: nat)
    ensures yielded <= n && (max.Some? ==> yielded <= YieldLimit(max.value))
    ensures yielded == n || (max.Some? && yielded == YieldLimit(max.value))
  {
    if max.Some? && YieldLimit(max.value) < n then YieldLimit(max.value) else n
  }

  class MatchCrawler {
    const src: Source
    const cfg: CrawlConfig
    /** The caller's set of known ids when the crawl starts. */
    ghost const known: set<string>
    var seenMatches: set<string>
    var calls: nat
    /** Requests actually sent to the source. */
    ghost var requests: nat

    ghost function Spec(): Crawl {
      Crawl(src, cfg, known)
    }

    constructor (src: Source, cfg: CrawlConfig, seenMatchIds: set<string>)
      ensures this.src == src && this.cfg == cfg && known == seenMatches == seenMatchIds
      ensures calls == 0 && requests == 0 && Valid()
    {
      this.src, this.cfg, this.known := src, cfg, seenMatchIds;
      seenMatches, calls, requests := seenMatchIds, 0, 0;
    }

    predicate Fits(n: nat) {
      cfg.maxApiCalls.Some? ==> n <= cfg.maxApiCalls.value
    }

    /** No request is sent beyond the budget. */
    ghost predicate Valid()
      reads this
    {
      requests <= calls && (cfg.maxApiCalls.Some? ==> requests == 0 || requests <= cfg.maxApiCalls.value)
    }

    /** `_tick`: false is the budget signal. */
    method Tick() returns (ok: bool)
      modifies this`calls
      ensures calls == old(calls) + 1 && ok == Fits(calls)
    {
      calls := calls + 1;
      ok := cfg.maxApiCalls.None? || calls <= cfg.maxApiCalls.value;
    }

    /** One queue of `_ids_for`. */
    method PagesFor(puuid: string, queue: int) returns (r: IdsResult)
      requires Valid()
      modifies this`calls, this`requests
      ensures Valid()
      ensures var (ids, n) := PagesFrom(Spec(), puuid, queue, 0);
              if n == 0 || Fits(old(calls) + n) then
                && calls == old(calls) + n && requests == old(requests) + n
                && r == (if ids.Some? then Ids(ids.value) else Failed)
              else r.OverBudget? && !Fits(calls) && calls >= old(calls)
    {
      hide PageStart, PagesFrom;
      var out: seq<string> := [];
      var page := 0;
      ghost var all := PagesFrom(Spec(), puuid, queue, 0);
      assert all.0.Some? ==> [] + all.0.value == all.0.value;
      while page < cfg.idsMaxPages
        invariant Valid() && page <= cfg.idsMaxPages
        invariant calls == old(calls) + page && requests == old(requests) + page && (page > 0 ==> Fits(calls))
        invariant var (ids, n) := PagesFrom(Spec(), puuid, queue, page);
                  all == (if ids.Some? then Some(out + ids.value) else None, page + n)
      {
        OnePage(Spec(), puuid, queue, page);
        var ok := Tick();
        if !ok { return OverBudget; }
        requests := requests + 1;
        var got := src.page(puuid, PageStart(cfg, page), cfg.idsPage, queue);
        if got.None? { return Failed; }
        if got.value == [] {
          assert out + [] == out;
          break;
        }
        ghost var rest := PagesFrom(Spec(), puuid, queue, page + 1).0;
        assert rest.Some? ==> out + (got.value + rest.value) == (out + got.value) + rest.value;
        out := out + got.value;
        if |got.value| < cfg.idsPage { break; }
        page := page + 1;
      }
      if page == cfg.idsMaxPages { NoPage(Spec(), puuid, queue); }
      assert out + [] == out;
      r := Ids(out);
    }

    /** `_ids_for`: every queue's pages, or the first failure. */
    method IdsFor(puuid: string) returns (r: IdsResult)
      requires Valid()
      modifies this`calls, this`requests
      ensures Valid()
      ensures var (ids, n) := IdsOver(Spec(), puuid, cfg.queues);
              if n == 0 || Fits(old(calls) + n) then
                && calls == old(calls) + n && requests == old(requests) + n
                && r == (if ids.Some? then Ids(ids.value) else Failed)
              else r.OverBudget? && !Fits(calls) && calls >= old(calls)
      ensures r.OverBudget? ==> !Fits(calls)
      ensures !r.OverBudget? ==> Listed(Spec(), puuid) == (if r.Ids? then r.ids else [])
      ensures calls >= old(calls) && (!r.OverBudget? ==> calls == old(calls) || Fits(calls))
    {
      var out: seq<string> := [];
      ghost var done := 0;
      hide PagesFrom;
      ghost var all := IdsOver(Spec(), puuid, cfg.queues);
      assert all.0.Some? ==> [] + all.0.value == all.0.value;
      assert cfg.queues[0..] == cfg.queues;
      for i := 0 to |cfg.queues|
        invariant Valid()
        invariant calls == old(calls) + done && requests == old(requests) + done && (done > 0 ==> Fits(calls))
        invariant var (ids, n) := IdsOver(Spec(), puuid, cfg.queues[i..]);
                  all == (if ids.Some? then Some(out + ids.value) else None, done + n)
      {
        assert cfg.queues[i..][1..] == cfg.queues[i + 1..];
        ghost var (ids, n) := PagesFrom(Spec(), puuid, cfg.queues[i], 0);
        ghost var (rest, more) := IdsOver(Spec(), puuid, cfg.queues[i + 1..]);
        assert IdsOver(Spec(), puuid, cfg.queues[i..])
            == if ids.None? then (None, n)
               else (if rest.Some? then Some(ids.value + rest.value) else None, n + more);
        var got := PagesFor(puuid, cfg.queues[i]);
        if !got.Ids? { return got; }
        assert rest.Some? ==> out + (got.ids + rest.value) == (out + got.ids) + rest.value;
        out := out + got.ids;
        done := done + n;
      }
      assert out + [] == out;
      r := Ids(out);
    }

    /** All id lists of a batch; a failed list is empty, and a budget signal from any of them ends the crawl. */
    method ListBatch(batch: seq<(string, int)>) returns (lists: seq<seq<string>>, ok: bool)
      requires Valid() && forall e <- batch :: e.1 <= cfg.depth
      modifies this`calls, this`requests
      ensures Valid()
      ensures ok ==> |lists| == |batch| && forall i :: 0 <= i < |batch| ==> lists[i] == Listed(Spec(), batch[i].0)
      ensures var n := ListCalls(Spec(), batch);
              && (ok <==> n == 0 || Fits(old(calls) + n))
              && (ok ==> calls == old(calls) + n)
              && (!ok ==> !Fits(calls))
      ensures calls >= old(calls)
    {
      hide Listed, IdsOver;
      lists, ok := [], true;
      for i := 0 to |batch|
        invariant Valid() && |lists| == i && calls >= old(calls)
        invariant ok ==> forall j :: 0 <= j < i ==> lists[j] == Listed(Spec(), batch[j].0)
        invariant var n := ListCalls(Spec(), batch[..i]);
                  && (ok <==> n == 0 || Fits(old(calls) + n))
                  && (ok ==> calls == old(calls) + n)
                  && (!ok ==> !Fits(calls))
      {
        assert batch[..i + 1][..i] == batch[..i];
        var ids := IdsFor(batch[i].0);
        if ids.OverBudget? { ok := false; }
        lists := lists + [if ids.Ids? then ids.ids else []];
      }
      assert batch[..|batch|] == batch;
    }

    /** One list of a batch: known ids and ids listed earlier in the batch are skipped. */
    method AddCandidates(ghost before: seq<(string, int)>, ids: seq<string>, d: int, cand0: seq<(string, int)>,
                         local0: set<string>)
      returns (cand: seq<(string, int)>, local: set<string>)
      requires cand0 == Candidates(before, seenMatches) && local0 == Names(cand0)
      ensures cand == Candidates(before + Entries(ids, d), seenMatches) && local == Names(cand)
    {
      cand, local := cand0, local0;
      ghost var here := Entries(ids, d);
      assert before + here[..0] == before;
      for j := 0 to |ids|
        invariant cand == Candidates(before + here[..j], seenMatches) && local == Names(cand)
      {
        CandidatesAppend(before + here[..j], here[j], seenMatches);
        assert before + here[..j + 1] == before + here[..j] + [here[j]];
        NamesOfOne(cand, here[j]);
        if ids[j] !in seenMatches && ids[j] !in local {
          local := local + {ids[j]};
          cand := cand + [(ids[j], d)];
        }
      }
      assert here[..|ids|] == here;
    }

    /** Entries beyond the depth are dropped from a batch. */
    method KeepWithin(taken: seq<(string, int)>) returns (batch: seq<(string, int)>)
      ensures forall e <- batch :: e.1 <= cfg.depth
      ensures BatchListing(Spec(), batch) == BatchListing(Spec(), taken)
      ensures ListCalls(Spec(), batch) == ListCalls(Spec(), taken)
    {
      batch := [];
      for i := 0 to |taken|
        invariant forall e <- batch :: e.1 <= cfg.depth
        invariant BatchListing(Spec(), batch) == BatchListing(Spec(), taken[..i])
        invariant ListCalls(Spec(), batch) == ListCalls(Spec(), taken[..i])
      {
        assert taken[..i + 1][..i] == taken[..i];
        assert (batch + [taken[i]])[..|batch|] == batch;
        if taken[i].1 <= cfg.depth { batch := batch + [taken[i]]; }
      }
      assert taken[..|taken|] == taken;
    }

    /** The ids to fetch for a whole batch. */
    method BuildCandidates(batch: seq<(string, int)>, lists: seq<seq<string>>) returns (cand: seq<(string, int)>)
      requires |lists| == |batch|
      requires forall i :: 0 <= i < |batch| ==> batch[i].1 <= cfg.depth && lists[i] == Listed(Spec(), batch[i].0)
      ensures cand == Candidates(BatchListing(Spec(), batch), seenMatches)
    {
      hide Candidates, Listed;
      cand := [];
      var local: set<string> := {};
      NothingToFetch(seenMatches);
      for i := 0 to |batch|
        invariant cand == Candidates(BatchListing(Spec(), batch[..i]), seenMatches) && local == Names(cand)
      {
        assert batch[..i + 1][..i] == batch[..i];
        cand, local := AddCandidates(BatchListing(Spec(), batch[..i]), lists[i], batch[i].1, cand, local);
      }
      assert batch[..|batch|] == batch;
    }

    /** One team's players join the queue at depth d, unless they have been queued before. */
    static method EnqueueTeam(ghost before: seq<string>, team: seq<ParsedParticipant>, d: int,
                              ghost queuedNames: set<string>, ghost work: seq<(string, int)>,
                              names0: set<string>, work0: seq<(string, int)>)
      returns (names: set<string>, after: seq<(string, int)>)
      requires Joined(before, d, queuedNames, work, names0, work0)
      ensures Joined(before + Puuids(team), d, queuedNames, work, names, after)
    {
      names, after := names0, work0;
      assert before + Puuids(team)[..0] == before;
      for j := 0 to |team|
        invariant Joined(before + Puuids(team)[..j], d, queuedNames, work, names, after)
      {
        var puuid := team[j].puuid;
        assert before + Puuids(team)[..j + 1] == before + Puuids(team)[..j] + [puuid];
        JoinedStep(before + Puuids(team)[..j], puuid, d, queuedNames, work, names, after);
        if puuid != "" && puuid !in names {
          names := names + {puuid};
          after := after + [(puuid, d)];
        }
      }
      assert Puuids(team)[..|team|] == Puuids(team);
    }

    /** The players of a yielded match join the queue one level down. */
    static method Enqueue(m: ParsedArenaMatch, d: int, queuedNames: set<string>, work: seq<(string, int)>)
      returns (names: set<string>, after: seq<(string, int)>)
      ensures Joined(Players(m), d, queuedNames, work, names, after)
    {
      names, after := queuedNames, work;
      assert Entries([], d) == [];
      for i := 0 to |m.subteams|
        invariant Joined(PlayersOf(m.subteams[..i]), d, queuedNames, work, names, after)
      {
        assert m.subteams[..i + 1][..i] == m.subteams[..i];
        names, after := EnqueueTeam(PlayersOf(m.subteams[..i]), m.subteams[i].participants, d, queuedNames, work,
                                    names, after);
      }
      assert m.subteams[..|m.subteams|] == m.subteams;
    }

    /** Count one call per candidate before any of them is fetched. */
    method TickAll(n: nat) returns (ok: bool)
      requires Valid()
      modifies this`calls
      ensures Valid() && calls >= old(calls)
      ensures ok <==> n == 0 || Fits(old(calls) + n)
      ensures if ok then calls == old(calls) + n else !Fits(calls)
    {
      for i := 0 to n
        invariant Valid() && calls == old(calls) + i && (i == 0 || Fits(calls))
      {
        ok := Tick();
        if !ok { return; }
      }
      ok := true;
    }

    /** The fields and locals of a crawl in a given state. */
    ghost predicate InState(s: State, work: seq<(string, int)>, names: set<string>, out: seq<ParsedArenaMatch>)
      reads this
    {
      && s.popped <= |s.queued| && work == s.queued[s.popped..] && names == Names(s.queued)
      && seenMatches == s.seen && out == Payloads(Spec(), s.found)
      && (cfg.maxMatches.Some? ==> |out| < YieldLimit(cfg.maxMatches.value))
    }

    /** Fetch, yield and follow one candidate; the limit is looked at right after the yield. */
    method ResolveOne(rid: string, d: int, ghost s: State, work0: seq<(string, int)>, names0: set<string>,
                      out0: seq<ParsedArenaMatch>)
      returns (work: seq<(string, int)>, names: set<string>, out: seq<ParsedArenaMatch>, limited: bool)
      requires InState(s, work0, names0, out0) && rid !in s.seen
      modifies this`seenMatches
      ensures out0 <= out
      ensures !limited ==> InState(Visit(Spec(), s, rid, d), work, names, out)
      ensures limited ==> && cfg.maxMatches.Some? && |out| == YieldLimit(cfg.maxMatches.value)
                          && out == Payloads(Spec(), Visit(Spec(), s, rid, d).found)
    {
      work, names, out, limited := work0, names0, out0, false;
      var m := src.fetch(rid);
      if m.None? { return; }
      seenMatches := seenMatches + {rid};
      if !m.value.IsComplete() || !InWindow(cfg, m.value) { return; }
      assert (s.found + [(rid, d)])[..|s.found|] == s.found;
      out := out + [m.value];
      if cfg.maxMatches.Some? && |out| >= cfg.maxMatches.value {
        limited := true;
        return;
      }
      if d + 1 <= cfg.depth {
        names, work := Enqueue(m.value, d + 1, names, work);
        NamesExtend(s.queued, Fresh(Players(m.value), Names(s.queued)), d + 1);
      } else {
        assert Entries([], d + 1) == [];
      }
    }

    /** All candidates of a batch in turn. */
    method ResolveBatch(cand: seq<(string, int)>, ghost s: State, work0: seq<(string, int)>, names0: set<string>,
                        out0: seq<ParsedArenaMatch>)
      returns (work: seq<(string, int)>, names: set<string>, out: seq<ParsedArenaMatch>, limited: bool)
      requires InState(s, work0, names0, out0)
      requires DistinctIds(cand) && forall e <- cand :: e.0 !in s.seen
      modifies this`seenMatches
      ensures out0 <= out
      ensures !limited ==> InState(VisitAll(Spec(), s, cand), work, names, out)
      ensures limited ==> && cfg.maxMatches.Some? && |out| == YieldLimit(cfg.maxMatches.value)
                          && out <= Payloads(Spec(), VisitAll(Spec(), s, cand).found)
    {
      hide Visit, Payloads;
      work, names, out, limited := work0, names0, out0, false;
      for i := 0 to |cand|
        invariant InState(VisitAll(Spec(), s, cand[..i]), work, names, out) && out0 <= out
      {
        assert cand[..i + 1][..i] == cand[..i];
        NotYetSeen(Spec(), s, cand, i);
        work, names, out, limited := ResolveOne(cand[i].0, cand[i].1, VisitAll(Spec(), s, cand[..i]), work, names, out);
        if limited {
          assert cand == cand[..i + 1] + cand[i + 1..];
          VisitAllAppends(Spec(), s, cand[..i + 1], cand[i + 1..]);
          VisitAllExtends(Spec(), VisitAll(Spec(), s, cand[..i + 1]), cand[i + 1..]);
          PayloadsPrefix(Spec(), VisitAll(Spec(), s, cand[..i + 1]).found, VisitAll(Spec(), s, cand).found);
          return;
        }
      }
      assert cand[..|cand|] == cand;
    }

    /** One batch: list, deduplicate, count, fetch. None as `stop` lets the crawl go on. */
    method WorkBatch(taken: seq<(string, int)>, ghost t: State, work0: seq<(string, int)>, names0: set<string>,
                     out0: seq<ParsedArenaMatch>)
      returns (work: seq<(string, int)>, names: set<string>, out: seq<ParsedArenaMatch>, stop: Option<Stop>)
      requires Valid() && (calls == 0 || Fits(calls))
      requires InState(t, work0, names0, out0)
      modifies this
      ensures Valid()
      ensures var t', cost := VisitAll(Spec(), t, BatchListing(Spec(), taken)), BatchCalls(Spec(), t, taken);
              && (stop != Some(ApiBudget) <==> cost == 0 || Fits(old(calls) + cost))
              && match stop
                 case None => InState(t', work, names, out) && calls == old(calls) + cost
                 case Some(ApiBudget) => out == out0 && !Fits(calls)
                 case Some(MatchLimit) =>
                   && cfg.maxMatches.Some? && |out| == YieldLimit(cfg.maxMatches.value)
                   && out0 <= out <= Payloads(Spec(), t'.found) && calls == old(calls) + cost
                 case Some(Exhausted) => false
    {
      hide VisitAll, Payloads, Candidates, Listed, BatchListing, ListCalls, BatchCalls;
      work, names, out, stop := work0, names0, out0, None;
      var batch := KeepWithin(taken);
      CostOfKept(Spec(), t, taken, batch);
      VisitNothing(Spec(), t);
      if batch == [] { return; }
      var lists, ok := ListBatch(batch);
      if !ok { stop := Some(ApiBudget); return; }
      var cand := BuildCandidates(batch, lists);
      CandidatesEffect(BatchListing(Spec(), taken), t.seen);
      ok := TickAll(|cand|);
      if !ok { stop := Some(ApiBudget); return; }
      requests := requests + |cand|;
      CandidatesSuffice(Spec(), t, BatchListing(Spec(), taken));
      var limited: bool;
      work, names, out, limited := ResolveBatch(cand, t, work, names, out);
      if limited { stop := Some(MatchLimit); }
    }

    /**
     `discover`. The yield is always a beginning of what the finished crawl finds: all of it, or as much as
     the match limit allows, or what was found before the call budget ran out.
     */
    method Discover(seeds: seq<string>) returns (out: seq<ParsedArenaMatch>, stop: Stop)
      requires cfg.batch >= 1
      requires Valid() && calls == 0 && seenMatches == known
      modifies this
      ensures Valid()
      ensures out <= Payloads(Spec(), Finished(Spec(), seeds).found)
      ensures stop.Exhausted? ==> && out == Payloads(Spec(), Finished(Spec(), seeds).found)
                                  && seenMatches == Finished(Spec(), seeds).seen
      ensures stop.MatchLimit? ==> cfg.maxMatches.Some? && |out| == YieldLimit(cfg.maxMatches.value)
      ensures cfg.maxMatches.Some? && !stop.MatchLimit? ==> |out| < YieldLimit(cfg.maxMatches.value)
      ensures if stop.ApiBudget? then !Fits(calls) else calls == 0 || Fits(calls)
      ensures cfg.maxApiCalls.None? ==>
        |out| == Capped(cfg.maxMatches, |Payloads(Spec(), Finished(Spec(), seeds).found)|)
      ensures exists b: nat :: EndsAfter(Spec(), seeds, b, out, stop)
      ensures cfg.maxMatches.None? ==>
        (stop.ApiBudget? <==> exists b: nat :: !Affordable(Spec(), Spent(Spec(), seeds, b)))
    {
      hide After, VisitAll, Payloads, Bound, Finished, BatchListing, YieldLimit, Spent, Popped, BatchCalls, EndsAfter,
           NextBatch;
      var work := Entries(seeds, 0);
      var names := Names(work);
      out := [];
      ghost var k, b: nat := 0, 0;
      StartState(Spec(), seeds);
      NothingSpent(Spec(), seeds);
      LimitIsPositive();
      while work != []
        invariant Valid() && (calls == 0 || Fits(calls))
        invariant k == Popped(Spec(), seeds, b) && calls == Spent(Spec(), seeds, b)
        invariant InState(After(Spec(), seeds, k), work, names, out)
        decreases Bound(Spec(), seeds) - k
      {
        ghost var s := After(Spec(), seeds, k);
        var n := if cfg.batch < |work| then cfg.batch else |work|;
        var taken := work[..n];
        BelowBound(Spec(), seeds, k);
        StillFinds(Spec(), seeds, k);
        StillFinds(Spec(), seeds, k + n);
        PopBatch(Spec(), seeds, k, n);
        SplitQueue(s, work, n);
        BatchStep(Spec(), seeds, b, n);
        var why: Option<Stop>;
        work, names, out, why := WorkBatch(taken, s.(popped := s.popped + n), work[n..], names, out);
        if why.Some? {
          stop := why.value;
          EndsHere(Spec(), seeds, b, out, stop);
          if !stop.MatchLimit? { BudgetDecides(Spec(), seeds, b, out, stop); }
          return;
        }
        k, b := k + n, b + 1;
      }
      AllFound(Spec(), seeds, k);
      stop := Exhausted;
      EndsHere(Spec(), seeds, b, out, stop);
      BudgetDecides(Spec(), seeds, b, out, stop);
    }
  }

  lemma SplitQueue(s: State, work: seq<(string, int)>, n: nat)
    requires s.popped <= |s.queued| && work == s.queued[s.popped..] && n <= |work|
    ensures s.popped + n <= |s.queued|
    ensures work[..n] == s.queued[s.popped..s.popped + n] && work[n..] == s.queued[s.popped + n..]
  {
  }

  lemma LimitIsPositive()
    ensures forall max :: YieldLimit(max) > 0
  {
  }

  /** The queue and the set of queued names after some players have been considered for it. */
  ghost predicate Joined(players: seq<string>, d: int, queuedNames: set<string>, work: seq<(string, int)>,
                         names: set<string>, after: seq<(string, int)>)
  {
    var added := Fresh(players, queuedNames);
    after == work + Entries(added, d) && names == queuedNames + set p | p in added
  }

  lemma JoinedStep(players: seq<string>, puuid: string, d: int, queuedNames: set<string>, work: seq<(string, int)>,
                   names: set<string>, after: seq<(string, int)>)
    requires Joined(players, d, queuedNames, work, names, after)
    ensures if puuid != "" && puuid !in names
            then Joined(players + [puuid], d, queuedNames, work, names + {puuid}, after + [(puuid, d)])
            else Joined(players + [puuid], d, queuedNames, work, names, after)
  {
    assert (players + [puuid])[..|players|] == players;
    var added := Fresh(players, queuedNames);
    assert Entries(added + [puuid], d) == Entries(added, d) + [(puuid, d)];
    assert forall p :: p in added + [puuid] <==> p in added || p == puuid;
  }

  lemma CandidatesAppend(listing: seq<(string, int)>, last: (string, int), seen: set<string>)
    ensures var front := Candidates(listing, seen);
            Candidates(listing + [last], seen)
            == if last.0 in seen || last.0 in Names(front) then front else front + [last]
  {
    assert (listing + [last])[..|listing|] == listing;
  }

  lemma NothingToFetch(seen: set<string>)
    ensures Candidates([], seen) == []
  {
  }

  lemma NamesOfOne(entries: seq<(string, int)>, e: (string, int))
    ensures Names(entries + [e]) == Names(entries) + {e.0}
  {
    assert forall x <- entries :: x in entries + [e];
    assert e in entries + [e];
  }
}
