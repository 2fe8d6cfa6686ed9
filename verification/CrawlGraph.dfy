/**
 What the co-player crawl of backend/arena/ingest/crawler.py computes: a graph of players joined by the
 new matches they list, and the crawl of that graph one player at a time.
 */
module CrawlGraph {
  import opened Wrappers
  import opened Arena
  import Sorting

  datatype CrawlConfig = CrawlConfig(
    queues: seq<int>,
    startEpoch: Option<int>,
    endEpoch: Option<int>,
    depth: int,
    maxApiCalls: Option<int>,
    maxMatches: Option<int>,
    batch: nat,
    idsPage: nat,
    idsMaxPages: nat)

  /**
   The Riot API for the time of one crawl: one page of a player's match ids (player, start, count, queue),
   and the parsed payload of a match. None is a failed request; for a match also a payload that does not parse.
   */
  datatype Source = Source(
    page: (string, nat, nat, int) -> Option<seq<string>>,
    fetch: string -> Option<ParsedArenaMatch>)

  /** A crawl: its source, its configuration, and the match ids known before it starts. */
  datatype Crawl = Crawl(src: Source, cfg: CrawlConfig, known: set<string>)

  // ---- Match-id lists ----

  function PageStart(cfg: CrawlConfig, page: nat): nat {
    page * cfg.idsPage
  }

  /** One queue's ids from the given page on, with the number of requests made. */
  function PagesFrom(c: Crawl, puuid: string, queue: int, page: nat): (Option<seq<string>>, nat)
    decreases c.cfg.idsMaxPages - page
  {
    if page >= c.cfg.idsMaxPages then (Some([]), 0)
    else
      match c.src.page(puuid, PageStart(c.cfg, page), c.cfg.idsPage, queue)
      case None => (None, 1)
      case Some(got) =>
        if got == [] then (Some([]), 1)
        else if |got| < c.cfg.idsPage then (Some(got), 1)
        else
          var (rest, calls) := PagesFrom(c, puuid, queue, page + 1);
          (if rest.Some? then Some(got + rest.value) else None, calls + 1)
  }

  function IdsOver(c: Crawl, puuid: string, queues: seq<int>): (Option<seq<string>>, nat) {
    if queues == [] then (Some([]), 0)
    else
      var (ids, calls) := PagesFrom(c, puuid, queues[0], 0);
      if ids.None? then (None, calls)
      else
        var (rest, more) := IdsOver(c, puuid, queues[1..]);
        (if rest.Some? then Some(ids.value + rest.value) else None, calls + more)
  }

  /** The ids a player lists; none when a request for them fails. */
  function Listed(c: Crawl, puuid: string): seq<string> {
    var ids := IdsOver(c, puuid, c.cfg.queues).0;
    if ids.Some? then ids.value else []
  }

  function Take<T>(s: seq<T>, n: nat): seq<T> {
    if n <= |s| then s[..n] else s
  }

  function Drop<T>(s: seq<T>, n: nat): seq<T> {
    if n <= |s| then s[n..] else []
  }

  /** The source pages through a fixed history of ids per player and queue. */
  ghost predicate PagesHistory(c: Crawl, history: (string, int) -> seq<string>) {
    forall puuid, start, count, queue ::
      c.src.page(puuid, start, count, queue) == Some(Take(Drop(history(puuid, queue), start), count))
  }

  function FirstIds(history: (string, int) -> seq<string>, puuid: string, queues: seq<int>, n: nat): seq<string> {
    if queues == [] then [] else Take(history(puuid, queues[0]), n) + FirstIds(history, puuid, queues[1..], n)
  }

  lemma TakeSplits<T>(h: seq<T>, start: nat, size: nat, room: nat)
    requires size <= room
    ensures var got := Take(Drop(h, start), size);
            Take(Drop(h, start), room)
            == if |got| < size then got else got + Take(Drop(h, start + size), room - size)
  {
    if |Take(Drop(h, start), size)| >= size && size > 0 {
      assert Drop(Drop(h, start), size) == Drop(h, start + size);
    }
  }

  lemma {:induction false} PagesAreHistory(c: Crawl, history: (string, int) -> seq<string>, puuid: string,
                                           queue: int, page: nat, room: nat)
    requires PagesHistory(c, history) && page <= c.cfg.idsMaxPages
    requires room == PageStart(c.cfg, c.cfg.idsMaxPages - page)
    ensures PagesFrom(c, puuid, queue, page).0 == Some(Take(Drop(history(puuid, queue), PageStart(c.cfg, page)), room))
    decreases c.cfg.idsMaxPages - page
  {
    var h, size, start := history(puuid, queue), c.cfg.idsPage, PageStart(c.cfg, page);
    NextPage(c, page);
    if page < c.cfg.idsMaxPages {
      NextPage(c, c.cfg.idsMaxPages - page - 1);
      hide PageStart;
      var got := Take(Drop(h, start), size);
      assert c.src.page(puuid, start, size, queue) == Some(got);
      TakeSplits(h, start, size, room);
      if got != [] && |got| >= size {
        PagesAreHistory(c, history, puuid, queue, page + 1, room - size);
      }
    }
  }

  lemma NextPage(c: Crawl, page: nat)
    ensures PageStart(c.cfg, page + 1) == PageStart(c.cfg, page) + c.cfg.idsPage
    ensures page == 0 || c.cfg.idsPage == 0 ==> PageStart(c.cfg, page) == 0
  {
  }

  /** Every list is exactly the first `idsPage * idsMaxPages` ids of each queue, queue by queue. */
  lemma {:induction false} ListedIsFirstIds(c: Crawl, history: (string, int) -> seq<string>, puuid: string,
                                            queues: seq<int>)
    requires PagesHistory(c, history)
    ensures IdsOver(c, puuid, queues).0
         == Some(FirstIds(history, puuid, queues, c.cfg.idsMaxPages * c.cfg.idsPage))
    decreases queues
  {
    if queues != [] {
      PagesAreHistory(c, history, puuid, queues[0], 0, PageStart(c.cfg, c.cfg.idsMaxPages));
      assert Drop(history(puuid, queues[0]), 0) == history(puuid, queues[0]);
      ListedIsFirstIds(c, history, puuid, queues[1..]);
    }
  }

  /** A page that another one is asked for after: it came, and it is full. */
  predicate GoesOn(c: Crawl, puuid: string, queue: int, page: nat) {
    var got := c.src.page(puuid, page * c.cfg.idsPage, c.cfg.idsPage, queue);
    got.Some? && got.value != [] && |got.value| >= c.cfg.idsPage
  }

  /** The pages of a queue before the given one are full, and the request for that one fails. */
  ghost predicate FailsAt(c: Crawl, puuid: string, queue: int, page: nat) {
    && page < c.cfg.idsMaxPages
    && c.src.page(puuid, page * c.cfg.idsPage, c.cfg.idsPage, queue) == None
    && forall j: nat :: j < page ==> GoesOn(c, puuid, queue, j)
  }

  lemma {:induction false} PagesFailIff(c: Crawl, puuid: string, queue: int, page: nat)
    requires page <= c.cfg.idsMaxPages && forall j: nat :: j < page ==> GoesOn(c, puuid, queue, j)
    ensures PagesFrom(c, puuid, queue, page).0 == None <==> exists k: nat :: FailsAt(c, puuid, queue, k)
    decreases c.cfg.idsMaxPages - page
  {
    if page < c.cfg.idsMaxPages && GoesOn(c, puuid, queue, page) {
      PagesFailIff(c, puuid, queue, page + 1);
    } else if page < c.cfg.idsMaxPages && c.src.page(puuid, page * c.cfg.idsPage, c.cfg.idsPage, queue).None? {
      assert FailsAt(c, puuid, queue, page);
    } else {
      forall k: nat ensures !FailsAt(c, puuid, queue, k) {
        assert k < page ==> GoesOn(c, puuid, queue, k);
        assert FailsAt(c, puuid, queue, k) && k > page ==> GoesOn(c, puuid, queue, page);
      }
    }
  }

  lemma {:induction false} IdsFailIff(c: Crawl, puuid: string, queues: seq<int>)
    ensures IdsOver(c, puuid, queues).0 == None <==> exists q, k: nat :: q in queues && FailsAt(c, puuid, q, k)
  {
    hide PagesFrom, FailsAt;
    if queues != [] {
      PagesFailIff(c, puuid, queues[0], 0);
      IdsFailIff(c, puuid, queues[1..]);
      assert forall q :: q in queues <==> q == queues[0] || q in queues[1..];
    }
  }

  /** A player lists nothing as soon as one request for a page fails, whatever the pages and queues before it gave. */
  lemma FailureListsNothing(c: Crawl, puuid: string, queue: int, page: nat)
    requires queue in c.cfg.queues && FailsAt(c, puuid, queue, page)
    ensures Listed(c, puuid) == []
  {
    IdsFailIff(c, puuid, c.cfg.queues);
  }

  // ---- Matches ----

  /** `_in_window`: a match without a start time is always inside. */
  predicate InWindow(cfg: CrawlConfig, m: ParsedArenaMatch) {
    var ts := m.startedAtMs as real / 1000.0;
    || m.startedAtMs == 0
    || ((cfg.startEpoch.Some? ==> ts >= cfg.startEpoch.value as real)
        && (cfg.endEpoch.Some? ==> ts < cfg.endEpoch.value as real))
  }

  /** The window in milliseconds, its start inside it and its end not; bounds that are not set do not bound. */
  lemma WindowInMillis(cfg: CrawlConfig, m: ParsedArenaMatch)
    ensures InWindow(cfg, m) <==>
            m.startedAtMs != 0 ==>
              && (cfg.startEpoch.Some? ==> 1000 * cfg.startEpoch.value <= m.startedAtMs)
              && (cfg.endEpoch.Some? ==> m.startedAtMs < 1000 * cfg.endEpoch.value)
  {
  }

  /** Two windows that meet make up one: a match with a start time is in exactly one of them. */
  lemma WindowsAdjoin(cfg: CrawlConfig, at: int, m: ParsedArenaMatch)
    requires cfg.startEpoch.Some? ==> cfg.startEpoch.value <= at
    requires cfg.endEpoch.Some? ==> at <= cfg.endEpoch.value
    ensures var before, after := InWindow(cfg.(endEpoch := Some(at)), m), InWindow(cfg.(startEpoch := Some(at)), m);
            (InWindow(cfg, m) <==> before || after) && (before && after ==> m.startedAtMs == 0)
  {
    hide InWindow;
    WindowInMillis(cfg, m);
    WindowInMillis(cfg.(endEpoch := Some(at)), m);
    WindowInMillis(cfg.(startEpoch := Some(at)), m);
  }

  predicate Eligible(c: Crawl, m: ParsedArenaMatch) {
    m.IsComplete() && InWindow(c.cfg, m)
  }

  /** A match the crawl is after: not known before, readable, complete and inside the window. */
  predicate NewMatch(c: Crawl, rid: string) {
    rid !in c.known && c.src.fetch(rid).Some? && Eligible(c, c.src.fetch(rid).value)
  }

  /**
   Which matches are new, in numbers: unknown before, readable, eight teams of two or six of three by mode and so 16 or
   18 participants, and started inside the window.
   */
  lemma NewMatchInNumbers(c: Crawl, rid: string)
    ensures NewMatch(c, rid)
       <==> && rid !in c.known && c.src.fetch(rid).Some?
            && (var m := c.src.fetch(rid).value;
                && |m.subteams| == (if m.mode.DUOS? then 8 else 6)
                && (forall t <- m.subteams :: |t.participants| == if m.mode.DUOS? then 2 else 3)
                && (m.startedAtMs != 0 ==>
                     && (c.cfg.startEpoch.Some? ==> 1000 * c.cfg.startEpoch.value <= m.startedAtMs)
                     && (c.cfg.endEpoch.Some? ==> m.startedAtMs < 1000 * c.cfg.endEpoch.value)))
    ensures NewMatch(c, rid) ==>
              Headcount(c.src.fetch(rid).value.subteams) == if c.src.fetch(rid).value.mode.DUOS? then 16 else 18
  {
    hide InWindow;
    if c.src.fetch(rid).Some? {
      var m := c.src.fetch(rid).value;
      WindowInMillis(c.cfg, m);
      if m.IsComplete() { EvenHeadcount(m.subteams, TeamSize(m.mode)); }
    }
  }

  function Puuids(participants: seq<ParsedParticipant>): seq<string> {
    seq(|participants|, i requires 0 <= i < |participants| => participants[i].puuid)
  }

  function PlayersOf(subteams: seq<ParsedSubteam>): seq<string> {
    if subteams == [] then [] else PlayersOf(subteams[..|subteams| - 1]) + Puuids(subteams[|subteams| - 1].participants)
  }

  /** The players of a match, team by team. */
  function Players(m: ParsedArenaMatch): seq<string> {
    PlayersOf(m.subteams)
  }

  /** v is one of the participants of one of the teams of a match. */
  ghost predicate TakesPart(m: ParsedArenaMatch, v: string) {
    exists t, p :: t in m.subteams && p in t.participants && p.puuid == v
  }

  /** Every seat of every team is in the list, team behind team. */
  lemma {:induction false} PlayersBySeat(teams: seq<ParsedSubteam>, i: nat, j: nat)
    requires i < |teams| && j < |teams[i].participants|
    ensures |PlayersOf(teams)| == TeamStart(teams, |teams|)
    ensures TeamStart(teams, i) + j < |PlayersOf(teams)|
    ensures PlayersOf(teams)[TeamStart(teams, i) + j] == teams[i].participants[j].puuid
  {
    var n := |teams| - 1;
    PlayersCounted(teams);
    PlayersCounted(teams[..n]);
    NextTeamStart(teams, n);
    assert teams[..n][..i] == teams[..i] && teams[..n][..n] == teams[..n];
    if i < n { PlayersBySeat(teams[..n], i, j); }
  }

  lemma {:induction false} PlayersCounted(teams: seq<ParsedSubteam>)
    ensures |PlayersOf(teams)| == TeamStart(teams, |teams|)
  {
    if teams != [] {
      var n := |teams| - 1;
      PlayersCounted(teams[..n]);
      NextTeamStart(teams, n);
      assert teams[..n][..n] == teams[..n];
    }
  }

  lemma {:induction false} PlayerHasSeat(teams: seq<ParsedSubteam>, v: string)
    requires v in PlayersOf(teams)
    ensures exists t, p :: t in teams && p in t.participants && p.puuid == v
  {
    if teams != [] {
      var front, last := teams[..|teams| - 1], teams[|teams| - 1];
      if v in Puuids(last.participants) {
        var j :| 0 <= j < |last.participants| && Puuids(last.participants)[j] == v;
        assert last in teams && last.participants[j] in last.participants;
      } else {
        PlayerHasSeat(front, v);
        var t, p :| t in front && p in t.participants && p.puuid == v;
        assert t in teams;
      }
    }
  }

  /** The players of a match are exactly the participants of all its teams, each as often as it is listed. */
  lemma PlayersAreEverybody(m: ParsedArenaMatch, v: string)
    ensures v in Players(m) <==> TakesPart(m, v)
    ensures |Players(m)| == Headcount(m.subteams)
  {
    PlayersCounted(m.subteams);
    assert m.subteams[..|m.subteams|] == m.subteams;
    if v in Players(m) { PlayerHasSeat(m.subteams, v); }
    if TakesPart(m, v) {
      var t, p :| t in m.subteams && p in t.participants && p.puuid == v;
      var i :| 0 <= i < |m.subteams| && m.subteams[i] == t;
      var j :| 0 <= j < |t.participants| && t.participants[j] == p;
      PlayersBySeat(m.subteams, i, j);
    }
  }

  // ---- The co-player graph ----

  /** Co-players: whoever is a participant of some team of a new match that someone in `us` lists. */
  function CoPlayers(c: Crawl, us: set<string>): set<string> {
    set u, rid, t, p | u in us && rid in Listed(c, u) && NewMatch(c, rid)
                       && t in c.src.fetch(rid).value.subteams && p in t.participants && p.puuid != "" :: p.puuid
  }

  /** The players at most k co-player hops from the seeds. */
  function Within(c: Crawl, seeds: seq<string>, k: nat): set<string> {
    if k == 0 then set u | u in seeds
    else Within(c, seeds, k - 1) + CoPlayers(c, Within(c, seeds, k - 1))
  }

  /** The shortest co-player path from a seed to u has d hops. */
  ghost predicate Hops(c: Crawl, seeds: seq<string>, u: string, d: int) {
    d >= 0 && u in Within(c, seeds, d) && (d > 0 ==> u !in Within(c, seeds, d - 1))
  }

  lemma {:induction false} WithinGrows(c: Crawl, seeds: seq<string>, j: nat, k: nat)
    requires j <= k
    ensures Within(c, seeds, j) <= Within(c, seeds, k)
    decreases k
  {
    hide CoPlayers;
    if j < k { WithinGrows(c, seeds, j, k - 1); }
  }

  // ---- The crawl, one player at a time ----

  /**
   `queued` is everything ever put in the work queue, `popped` how much of it has been taken out, `seen` the
   match ids resolved, and `found` the ids yielded, each with the depth it was found at.
   */
  datatype State = State(queued: seq<(string, int)>, popped: nat, seen: set<string>, found: seq<(string, int)>)

  function Entries(names: seq<string>, d: int): seq<(string, int)> {
    seq(|names|, i requires 0 <= i < |names| => (names[i], d))
  }

  function Names(entries: seq<(string, int)>): set<string> {
    set e | e in entries :: e.0
  }

  /** The players to enqueue: named, not queued before, each once, in order. */
  function Fresh(players: seq<string>, queued: set<string>): seq<string> {
    if players == [] then []
    else
      var front, p := Fresh(players[..|players| - 1], queued), players[|players| - 1];
      if p == "" || p in queued || p in front then front else front + [p]
  }

  /** Resolve one listed id, found at depth d. */
  function Visit(c: Crawl, s: State, rid: string, d: int): State {
    if rid in s.seen || c.src.fetch(rid).None? then s
    else
      var m := c.src.fetch(rid).value;
      if !Eligible(c, m) then s.(seen := s.seen + {rid})
      else
        var added := if d + 1 <= c.cfg.depth then Fresh(Players(m), Names(s.queued)) else [];
        s.(queued := s.queued + Entries(added, d + 1), seen := s.seen + {rid}, found := s.found + [(rid, d)])
  }

  function VisitAll(c: Crawl, s: State, listing: seq<(string, int)>): State {
    if listing == [] then s
    else
      var last := listing[|listing| - 1];
      Visit(c, VisitAll(c, s, listing[..|listing| - 1]), last.0, last.1)
  }

  /** What one queue entry lists; entries beyond the depth are dropped. */
  function Listing(c: Crawl, entry: (string, int)): seq<(string, int)> {
    if entry.1 <= c.cfg.depth then Entries(Listed(c, entry.0), entry.1) else []
  }

  /** Take the first entry off the queue and resolve everything it lists. */
  function Pop(c: Crawl, s: State): State {
    if s.popped >= |s.queued| then s
    else VisitAll(c, s.(popped := s.popped + 1), Listing(c, s.queued[s.popped]))
  }

  function Start(c: Crawl, seeds: seq<string>): State {
    State(Entries(seeds, 0), 0, c.known, [])
  }

  function After(c: Crawl, seeds: seq<string>, k: nat): State {
    if k == 0 then Start(c, seeds) else Pop(c, After(c, seeds, k - 1))
  }

  /** No crawl takes more entries off its queue than this. */
  function Bound(c: Crawl, seeds: seq<string>): nat {
    |seeds| + |Within(c, seeds, if c.cfg.depth >= 0 then c.cfg.depth else 0)|
  }

  /** The crawl run to its end. */
  function Finished(c: Crawl, seeds: seq<string>): State {
    After(c, seeds, Bound(c, seeds))
  }

  // ---- What every step keeps ----

  ghost predicate DepthsAscend(entries: seq<(string, int)>) {
    forall i, j :: 0 <= i < j < |entries| ==> entries[i].1 <= entries[j].1
  }

  ghost predicate DistinctIds(entries: seq<(string, int)>) {
    forall i, j :: 0 <= i < j < |entries| ==> entries[i].0 != entries[j].0
  }

  /** Each player is queued once, behind the seeds, at its hop distance, in order of distance. */
  ghost predicate QueueOk(c: Crawl, seeds: seq<string>, s: State) {
    && |seeds| <= |s.queued| && s.queued[..|seeds|] == Entries(seeds, 0)
    && DepthsAscend(s.queued)
    && (forall e <- s.queued :: Hops(c, seeds, e.0, e.1))
    && (forall i, j :: 0 <= i < j < |s.queued| && |seeds| <= j ==> s.queued[i].0 != s.queued[j].0)
    && (forall j :: |seeds| <= j < |s.queued| ==> s.queued[j].1 <= c.cfg.depth)
  }

  ghost predicate ListedWithin(c: Crawl, seeds: seq<string>, rid: string, d: nat) {
    exists u :: u in Within(c, seeds, d) && rid in Listed(c, u)
  }

  /** Each new match is yielded once, when first resolved, at a depth that lists it. */
  ghost predicate YieldsOk(c: Crawl, seeds: seq<string>, s: State) {
    && c.known <= s.seen
    && DistinctIds(s.found) && DepthsAscend(s.found)
    && (forall y <- s.found :: && NewMatch(c, y.0) && y.0 in s.seen && 0 <= y.1 <= c.cfg.depth
                                && ListedWithin(c, seeds, y.0, y.1))
    && (forall rid <- s.seen :: rid in c.known || c.src.fetch(rid).Some?)
    && (forall rid <- s.seen :: NewMatch(c, rid) ==> exists y :: y in s.found && y.0 == rid)
  }

  /** The players of every match yielded above the last depth are queued. */
  ghost predicate Followed(c: Crawl, s: State) {
    forall y <- s.found, v ::
      NewMatch(c, y.0) && y.1 + 1 <= c.cfg.depth && v in Players(c.src.fetch(y.0).value) && v != "" ==>
        v in Names(s.queued)
  }

  ghost predicate YieldedBy(s: State, rid: string, d: int) {
    exists y :: y in s.found && y.0 == rid && y.1 <= d
  }

  /** Everything the first n queue entries list has been resolved, no deeper than the entry. */
  ghost predicate Expanded(c: Crawl, s: State, n: nat)
    requires n <= |s.queued|
  {
    forall i, rid :: 0 <= i < n && s.queued[i].1 <= c.cfg.depth && rid in Listed(c, s.queued[i].0) && NewMatch(c, rid)
                     ==> YieldedBy(s, rid, s.queued[i].1)
  }

  /** The invariant while entry n is being expanded at depth cur, or before it is when n has been reached. */
  ghost predicate Inv(c: Crawl, seeds: seq<string>, s: State, n: nat, cur: int) {
    && QueueOk(c, seeds, s) && YieldsOk(c, seeds, s) && Followed(c, s)
    && n <= s.popped <= |s.queued| && Expanded(c, s, n)
    && (forall y <- s.found :: y.1 <= cur)
    && (forall e <- s.queued :: e.1 <= cur + 1)
    && (forall i :: n <= i < |s.queued| ==> cur <= s.queued[i].1)
  }

  /** A co-player met from an expanded entry is queued. */
  lemma CoPlayerQueued(c: Crawl, seeds: seq<string>, s: State, n: nat, i: nat, rid: string, v: string)
    requires Followed(c, s) && n <= |s.queued| && Expanded(c, s, n)
    requires i < n && s.queued[i].1 < c.cfg.depth && rid in Listed(c, s.queued[i].0)
    requires NewMatch(c, rid) && v in Players(c.src.fetch(rid).value) && v != ""
    ensures v in Names(s.queued)
  {
    assert YieldedBy(s, rid, s.queued[i].1);
  }

  lemma SeedsQueued(c: Crawl, seeds: seq<string>, s: State)
    requires QueueOk(c, seeds, s)
    ensures Within(c, seeds, 0) <= Names(s.queued)
  {
    hide Hops;
    forall u | u in seeds ensures u in Names(s.queued) {
      var i :| 0 <= i < |seeds| && seeds[i] == u;
      assert s.queued[i] == s.queued[..|seeds|][i] == (u, 0);
    }
  }

  /** A player within j hops who is queued is queued at depth j at most. */
  lemma EntryOf(c: Crawl, seeds: seq<string>, s: State, u: string, j: nat) returns (i: nat)
    requires forall e <- s.queued :: Hops(c, seeds, e.0, e.1)
    requires u in Names(s.queued) && u in Within(c, seeds, j)
    ensures i < |s.queued| && s.queued[i].0 == u && s.queued[i].1 <= j
  {
    hide Within;
    var e :| e in s.queued && e.0 == u;
    i :| 0 <= i < |s.queued| && s.queued[i] == e;
    if e.1 > j { WithinGrows(c, seeds, j, e.1 - 1); }
  }

  lemma CoPlayerOf(c: Crawl, us: set<string>, v: string) returns (u: string, rid: string)
    requires v in CoPlayers(c, us)
    ensures u in us && rid in Listed(c, u) && NewMatch(c, rid) && v in Players(c.src.fetch(rid).value) && v != ""
  {
    hide Listed, Players;
    var t, p;
    u, rid, t, p :| && u in us && rid in Listed(c, u) && NewMatch(c, rid)
                    && t in c.src.fetch(rid).value.subteams && p in t.participants && p.puuid == v != "";
    PlayersAreEverybody(c.src.fetch(rid).value, v);
  }

  /** Whoever is within k hops is queued, as soon as all nearer entries have been expanded. */
  lemma {:induction false} LayerQueued(c: Crawl, seeds: seq<string>, s: State, n: nat, k: nat)
    requires QueueOk(c, seeds, s) && Followed(c, s)
    requires n <= |s.queued| && Expanded(c, s, n)
    requires k == 0 || k <= c.cfg.depth
    requires forall i :: n <= i < |s.queued| ==> k <= s.queued[i].1
    ensures Within(c, seeds, k) <= Names(s.queued)
    decreases k
  {
    hide Followed, Expanded, Listed, Players, NewMatch, Hops, CoPlayers, Names;
    if k == 0 {
      SeedsQueued(c, seeds, s);
    } else {
      LayerQueued(c, seeds, s, n, k - 1);
      forall v | v in CoPlayers(c, Within(c, seeds, k - 1)) ensures v in Names(s.queued) {
        var u, rid := CoPlayerOf(c, Within(c, seeds, k - 1), v);
        var i := EntryOf(c, seeds, s, u, k - 1);
        CoPlayerQueued(c, seeds, s, n, i, rid, v);
      }
    }
  }

  lemma {:induction false} FreshEffect(players: seq<string>, queued: set<string>)
    ensures var added := Fresh(players, queued);
            && (forall i, j :: 0 <= i < j < |added| ==> added[i] != added[j])
            && (forall p <- added :: p in players && p !in queued && p != "")
            && (forall p <- players :: p == "" || p in queued || p in added)
            && (forall i, j :: 0 <= i < j < |added| ==>
                 Sorting.FirstAt(players, added[i]) < Sorting.FirstAt(players, added[j]))
  {
    if players != [] {
      var n := |players| - 1;
      FreshEffect(players[..n], queued);
      assert players == players[..n] + [players[n]];
      var added := Fresh(players, queued);
      forall i, j | 0 <= i < j < |added|
        ensures Sorting.FirstAt(players, added[i]) < Sorting.FirstAt(players, added[j])
      {
        assert added[i] in Fresh(players[..n], queued);
      }
    }
  }

  lemma NamesExtend(entries: seq<(string, int)>, added: seq<string>, d: int)
    ensures Names(entries + Entries(added, d)) == Names(entries) + set p | p in added
  {
    var all := entries + Entries(added, d);
    forall p | p in added ensures p in Names(all) {
      var i :| 0 <= i < |added| && added[i] == p;
      assert all[|entries| + i] == (p, d);
    }
    forall e | e in entries ensures e.0 in Names(all) {
      assert e in all;
    }
  }

  /** New players may be queued behind a queue that already holds everyone within d hops. */
  lemma QueueGrows(c: Crawl, seeds: seq<string>, s: State, added: seq<string>, d: nat, s': State)
    requires QueueOk(c, seeds, s) && s'.queued == s.queued + Entries(added, d + 1)
    requires added != [] ==> d + 1 <= c.cfg.depth
    requires forall e <- s.queued :: e.1 <= d + 1
    requires Within(c, seeds, d) <= Names(s.queued)
    requires forall i, j :: 0 <= i < j < |added| ==> added[i] != added[j]
    requires forall p <- added :: p !in Names(s.queued) && p in Within(c, seeds, d + 1)
    ensures QueueOk(c, seeds, s')
  {
    hide Within;
    var q, q' := s.queued, s'.queued;
    forall i | 0 <= i < |q'| ensures Hops(c, seeds, q'[i].0, q'[i].1) {
      if i >= |q| { assert q'[i] == (added[i - |q|], d + 1) && added[i - |q|] in added; } else { assert q[i] in q; }
    }
    forall i, j | 0 <= i < j < |q'| && |seeds| <= j
      ensures q'[i].0 != q'[j].0 && q'[i].1 <= q'[j].1
    {
      if i < |q| { assert q[i] in q; }
      if j >= |q| { assert added[j - |q|] in added; }
    }
    forall i, j | 0 <= i < j < |q'| ensures q'[i].1 <= q'[j].1 {
      if i < |q| { assert q[i] in q; }
    }
  }

  /** Entry n, at depth cur, is being expanded. */
  ghost predicate Expanding(c: Crawl, seeds: seq<string>, s: State, n: nat, cur: int) {
    && Inv(c, seeds, s, n, cur) && s.popped == n + 1
    && s.queued[n].1 == cur && 0 <= cur <= c.cfg.depth
  }

  /** Resolving one id keeps the invariant, and a new match it names is yielded from then on. */
  lemma VisitKeeps(c: Crawl, seeds: seq<string>, s: State, n: nat, cur: int, rid: string)
    requires Expanding(c, seeds, s, n, cur) && rid in Listed(c, s.queued[n].0)
    ensures var s' := Visit(c, s, rid, cur);
            && Expanding(c, seeds, s', n, cur) && s'.queued[n] == s.queued[n]
            && s.queued <= s'.queued && s.found <= s'.found
            && (NewMatch(c, rid) ==> YieldedBy(s', rid, cur))
  {
    hide Within, Listed, Hops, Players, Fresh;
    var s' := Visit(c, s, rid, cur);
    if rid in s.seen {
      if NewMatch(c, rid) {
        var y :| y in s.found && y.0 == rid;
        assert YieldedBy(s, rid, cur);
      }
    } else if c.src.fetch(rid).Some? {
      if NewMatch(c, rid) {
        VisitNew(c, seeds, s, n, cur, rid);
      }
    }
  }

  /** The players one new match adds to the queue. */
  function Added(c: Crawl, s: State, rid: string, d: int): seq<string>
    requires c.src.fetch(rid).Some?
  {
    if d + 1 <= c.cfg.depth then Fresh(Players(c.src.fetch(rid).value), Names(s.queued)) else []
  }

  lemma AddedQueueOk(c: Crawl, seeds: seq<string>, s: State, n: nat, cur: int, rid: string)
    requires Expanding(c, seeds, s, n, cur) && rid in Listed(c, s.queued[n].0) && NewMatch(c, rid)
    ensures QueueOk(c, seeds, s.(queued := s.queued + Entries(Added(c, s, rid, cur), cur + 1)))
  {
    hide Within, Players, Fresh, QueueOk, YieldsOk, Followed, Expanded, Names, Listed;
    var added := Added(c, s, rid, cur);
    var u := s.queued[n].0;
    assert u in Within(c, seeds, cur) by { EntryWithin(c, seeds, s, n); }
    FreshEffect(Players(c.src.fetch(rid).value), Names(s.queued));
    LayerQueued(c, seeds, s, n, cur);
    forall p | p in added ensures p in Within(c, seeds, cur + 1) {
      MetWithin(c, seeds, cur, u, rid, p);
    }
    QueueGrows(c, seeds, s, added, cur, s.(queued := s.queued + Entries(added, cur + 1)));
  }

  lemma EntryWithin(c: Crawl, seeds: seq<string>, s: State, n: nat)
    requires QueueOk(c, seeds, s) && n < |s.queued|
    ensures s.queued[n].1 >= 0 && s.queued[n].0 in Within(c, seeds, s.queued[n].1)
  {
    assert s.queued[n] in s.queued;
  }

  lemma MetWithin(c: Crawl, seeds: seq<string>, d: nat, u: string, rid: string, v: string)
    requires u in Within(c, seeds, d) && rid in Listed(c, u) && NewMatch(c, rid)
    requires v in Players(c.src.fetch(rid).value) && v != ""
    ensures v in Within(c, seeds, d + 1)
  {
    hide Listed, Players;
    PlayersAreEverybody(c.src.fetch(rid).value, v);
    var t, p :| t in c.src.fetch(rid).value.subteams && p in t.participants && p.puuid == v;
    assert v in CoPlayers(c, Within(c, seeds, d));
  }

  lemma VisitNew(c: Crawl, seeds: seq<string>, s: State, n: nat, cur: int, rid: string)
    requires Expanding(c, seeds, s, n, cur) && rid in Listed(c, s.queued[n].0)
    requires rid !in s.seen && NewMatch(c, rid)
    ensures var s' := Visit(c, s, rid, cur);
            && Expanding(c, seeds, s', n, cur) && s'.queued[n] == s.queued[n]
            && s.queued <= s'.queued && s.found <= s'.found
            && YieldedBy(s', rid, cur)
  {
    hide Within, Players, Fresh, Listed, Hops;
    var s', added := Visit(c, s, rid, cur), Added(c, s, rid, cur);
    assert s' == State(s.queued + Entries(added, cur + 1), s.popped, s.seen + {rid}, s.found + [(rid, cur)]);
    assert s'.found[|s.found|] == (rid, cur);
    assert QueueOk(c, seeds, s') by { AddedQueueOk(c, seeds, s, n, cur, rid); }
    assert YieldsOk(c, seeds, s') by { YieldsGrow(c, seeds, s, n, cur, rid, s'); }
    assert Followed(c, s') by {
      NamesExtend(s.queued, added, cur + 1);
      FreshEffect(Players(c.src.fetch(rid).value), Names(s.queued));
    }
    assert Expanded(c, s', n) by { ExpandedGrows(c, s, s', n); }
    hide QueueOk, YieldsOk, Followed, Expanded;
  }

  lemma YieldsGrow(c: Crawl, seeds: seq<string>, s: State, n: nat, cur: int, rid: string, s': State)
    requires Expanding(c, seeds, s, n, cur) && rid in Listed(c, s.queued[n].0)
    requires rid !in s.seen && NewMatch(c, rid)
    requires s'.found == s.found + [(rid, cur)] && s'.seen == s.seen + {rid}
    ensures YieldsOk(c, seeds, s')
  {
    hide Within, Listed, Followed, Expanded, Names;
    EntryWithin(c, seeds, s, n);
    assert ListedWithin(c, seeds, rid, cur);
    forall i, j | 0 <= i < j < |s'.found| ensures s'.found[i].0 != s'.found[j].0 && s'.found[i].1 <= s'.found[j].1 {
      if j == |s.found| { assert s.found[i] in s.found; }
    }
    forall r | r in s'.seen && NewMatch(c, r) ensures exists y :: y in s'.found && y.0 == r {
      if r == rid {
        assert s'.found[|s.found|].0 == r;
      } else {
        var y :| y in s.found && y.0 == r;
        assert y in s'.found;
      }
    }
  }

  lemma ExpandedGrows(c: Crawl, s: State, s': State, n: nat)
    requires n <= |s.queued| && Expanded(c, s, n) && s.queued <= s'.queued && s.found <= s'.found
    ensures Expanded(c, s', n)
  {
    hide Listed, NewMatch;
    forall i, rid | 0 <= i < n && s'.queued[i].1 <= c.cfg.depth && rid in Listed(c, s'.queued[i].0) && NewMatch(c, rid)
      ensures YieldedBy(s', rid, s'.queued[i].1)
    {
      assert s'.queued[i] == s.queued[i] && YieldedBy(s, rid, s.queued[i].1);
    }
  }

  lemma {:induction false} VisitAllKeeps(c: Crawl, seeds: seq<string>, s: State, n: nat, cur: int,
                                         listing: seq<(string, int)>)
    requires Expanding(c, seeds, s, n, cur)
    requires forall l <- listing :: l.1 == cur && l.0 in Listed(c, s.queued[n].0)
    ensures var s' := VisitAll(c, s, listing);
            && Expanding(c, seeds, s', n, cur) && s'.queued[n] == s.queued[n]
            && forall l <- listing :: NewMatch(c, l.0) ==> YieldedBy(s', l.0, cur)
  {
    hide Inv, Visit, Listed, NewMatch;
    if listing != [] {
      var front, last := listing[..|listing| - 1], listing[|listing| - 1];
      assert last in listing && forall l <- front :: l in listing;
      VisitAllKeeps(c, seeds, s, n, cur, front);
      VisitKeeps(c, seeds, VisitAll(c, s, front), n, cur, last.0);
      forall l | l in listing && NewMatch(c, l.0) ensures YieldedBy(VisitAll(c, s, listing), l.0, cur) {
        if l != last {
          assert l in front;
          var y :| y in VisitAll(c, s, front).found && y.0 == l.0 && y.1 <= cur;
          assert y in VisitAll(c, s, listing).found;
        }
      }
    }
  }

  function LastDepth(s: State): int
    requires s.popped <= |s.queued|
  {
    if s.popped == 0 then 0 else s.queued[s.popped - 1].1
  }

  /** The invariant between two entries. */
  ghost predicate Resting(c: Crawl, seeds: seq<string>, s: State) {
    s.popped <= |s.queued| && Inv(c, seeds, s, s.popped, LastDepth(s))
  }

  lemma StartRests(c: Crawl, seeds: seq<string>)
    ensures Resting(c, seeds, Start(c, seeds))
  {
    var s := Start(c, seeds);
    forall e | e in s.queued ensures Hops(c, seeds, e.0, e.1) {
      assert e.0 in seeds;
    }
  }

  /** Taking an entry off the queue only moves the depth the invariant speaks about. */
  lemma TakeOff(c: Crawl, seeds: seq<string>, s: State)
    requires Resting(c, seeds, s) && s.popped < |s.queued|
    ensures Inv(c, seeds, s.(popped := s.popped + 1), s.popped, s.queued[s.popped].1)
  {
    hide Hops, NewMatch, Listed, Players;
  }

  /** An entry beyond the depth is dropped. */
  lemma DropKeeps(c: Crawl, seeds: seq<string>, s: State)
    requires Resting(c, seeds, s) && s.popped < |s.queued| && s.queued[s.popped].1 > c.cfg.depth
    ensures Resting(c, seeds, s.(popped := s.popped + 1))
  {
    TakeOff(c, seeds, s);
    hide QueueOk, YieldsOk, Followed, Listed, NewMatch;
  }

  lemma ExpandKeeps(c: Crawl, seeds: seq<string>, s: State)
    requires Resting(c, seeds, s) && s.popped < |s.queued| && s.queued[s.popped].1 <= c.cfg.depth
    ensures var s' := VisitAll(c, s.(popped := s.popped + 1), Listing(c, s.queued[s.popped]));
            Resting(c, seeds, s') && s'.popped == s.popped + 1
  {
    var n, entry, t := s.popped, s.queued[s.popped], s.(popped := s.popped + 1);
    TakeOff(c, seeds, s);
    EntryWithin(c, seeds, s, n);
    hide Inv, Listed, NewMatch, VisitAll, Visit;
    VisitAllKeeps(c, seeds, t, n, entry.1, Listing(c, entry));
    EntryExpanded(c, seeds, VisitAll(c, t, Listing(c, entry)), n, entry);
  }

  lemma VisitNothing(c: Crawl, s: State)
    ensures VisitAll(c, s, []) == s
  {
  }

  lemma PopKeeps(c: Crawl, seeds: seq<string>, s: State)
    requires Resting(c, seeds, s)
    ensures Resting(c, seeds, Pop(c, s))
    ensures s.popped < |s.queued| ==> Pop(c, s).popped == s.popped + 1
  {
    hide Inv, Visit, VisitAll, Listed;
    if s.popped < |s.queued| {
      VisitNothing(c, s.(popped := s.popped + 1));
      if s.queued[s.popped].1 <= c.cfg.depth { ExpandKeeps(c, seeds, s); } else { DropKeeps(c, seeds, s); }
    }
  }

  lemma EntryExpanded(c: Crawl, seeds: seq<string>, s: State, n: nat, entry: (string, int))
    requires Expanding(c, seeds, s, n, entry.1) && s.queued[n] == entry
    requires forall l <- Listing(c, entry) :: NewMatch(c, l.0) ==> YieldedBy(s, l.0, entry.1)
    ensures Resting(c, seeds, s)
  {
    hide QueueOk, YieldsOk, Followed, NewMatch, Listed;
    forall rid | rid in Listed(c, entry.0) && NewMatch(c, rid) ensures YieldedBy(s, rid, entry.1) {
      var i :| 0 <= i < |Listed(c, entry.0)| && Listed(c, entry.0)[i] == rid;
      assert Listing(c, entry)[i] == (rid, entry.1);
    }
  }

  lemma {:induction false} AfterRests(c: Crawl, seeds: seq<string>, k: nat)
    ensures var s := After(c, seeds, k);
            && Resting(c, seeds, s) && s.popped <= k && (s.popped == k || s.popped == |s.queued|)
  {
    hide Visit, VisitAll, Listing, Inv;
    if k == 0 {
      StartRests(c, seeds);
    } else {
      AfterRests(c, seeds, k - 1);
      PopKeeps(c, seeds, After(c, seeds, k - 1));
    }
  }

  // ---- How the crawl ends ----

  lemma {:induction false} DistinctFit(s: seq<(string, int)>, t: set<string>)
    requires DistinctIds(s) && Names(s) <= t
    ensures |s| <= |t|
  {
    if s != [] {
      var front, last := s[..|s| - 1], s[|s| - 1];
      assert last in s && forall e <- front :: e in s;
      forall u | u in Names(front) ensures u in t - {last.0} {
        var e :| e in front && e.0 == u;
        var i :| 0 <= i < |front| && front[i] == e;
        assert s[i] == e && e in s;
      }
      DistinctFit(front, t - {last.0});
    }
  }

  /** The queue never holds more than the seeds and everyone within the depth. */
  lemma QueueBounded(c: Crawl, seeds: seq<string>, s: State)
    requires QueueOk(c, seeds, s)
    ensures |s.queued| <= Bound(c, seeds)
  {
    hide Within;
    var d := if c.cfg.depth >= 0 then c.cfg.depth else 0;
    var tail := s.queued[|seeds|..];
    forall u | u in Names(tail) ensures u in Within(c, seeds, d) {
      var e :| e in tail && e.0 == u;
      var i :| 0 <= i < |tail| && tail[i] == e;
      assert s.queued[|seeds| + i] == e && e in s.queued;
      WithinGrows(c, seeds, e.1, d);
    }
    DistinctFit(tail, Within(c, seeds, d));
  }

  lemma FinishedIsEmpty(c: Crawl, seeds: seq<string>)
    ensures Resting(c, seeds, Finished(c, seeds))
    ensures Finished(c, seeds).popped == |Finished(c, seeds).queued|
  {
    AfterRests(c, seeds, Bound(c, seeds));
    QueueBounded(c, seeds, Finished(c, seeds));
  }

  /** The queue is in order of depth and what is left of it spans at most one level, at every moment of every crawl. */
  lemma QueueSpansOneLevel(c: Crawl, seeds: seq<string>, k: nat)
    ensures var s := After(c, seeds, k);
            forall i, j :: s.popped <= i <= j < |s.queued| ==> s.queued[i].1 <= s.queued[j].1 <= s.queued[i].1 + 1
  {
    hide Hops, YieldsOk, Followed, Expanded, After;
    AfterRests(c, seeds, k);
    var s := After(c, seeds, k);
    forall i, j | s.popped <= i <= j < |s.queued|
      ensures s.queued[i].1 <= s.queued[j].1 <= s.queued[i].1 + 1
    {
      assert s.queued[j] in s.queued;
    }
  }

  /**
   The finished crawl has queued every player within the depth, each at its shortest hop distance from the
   seeds and in order of distance, and nobody twice except a seed that was given twice.
   */
  lemma QueuedAtHopDistance(c: Crawl, seeds: seq<string>)
    ensures var q := Finished(c, seeds).queued;
            && DepthsAscend(q)
            && (forall e <- q :: Hops(c, seeds, e.0, e.1))
            && (c.cfg.depth >= 0 ==> Names(q) == Within(c, seeds, c.cfg.depth))
            && (DistinctIds(q) <==> forall i, j :: 0 <= i < j < |seeds| ==> seeds[i] != seeds[j])
  {
    hide Within;
    FinishedIsEmpty(c, seeds);
    var s := Finished(c, seeds);
    var q := s.queued;
    if c.cfg.depth >= 0 {
      LayerQueued(c, seeds, s, |q|, c.cfg.depth);
      forall u | u in Names(q) ensures u in Within(c, seeds, c.cfg.depth) {
        var e :| e in q && e.0 == u;
        var i :| 0 <= i < |q| && q[i] == e;
        if i < |seeds| { assert e == q[..|seeds|][i] == Entries(seeds, 0)[i]; }
        WithinGrows(c, seeds, e.1, c.cfg.depth);
      }
    }
    forall i | 0 <= i < |seeds| ensures q[i] == (seeds[i], 0) {
      assert q[i] == q[..|seeds|][i];
    }
  }

  /** Whatever a player within d hops lists has been found, at depth d at most. */
  lemma ListedIsFound(c: Crawl, seeds: seq<string>, rid: string, d: nat)
    requires d <= c.cfg.depth && NewMatch(c, rid) && ListedWithin(c, seeds, rid, d)
    ensures YieldedBy(Finished(c, seeds), rid, d)
  {
    hide Within, NewMatch, Listed, Finished;
    FinishedIsEmpty(c, seeds);
    QueuedAtHopDistance(c, seeds);
    var s := Finished(c, seeds);
    var u :| u in Within(c, seeds, d) && rid in Listed(c, u);
    WithinGrows(c, seeds, d, c.cfg.depth);
    var i := EntryOf(c, seeds, s, u, d);
    assert YieldedBy(s, rid, s.queued[i].1);
  }

  /** The crawl yields each new match listed by anyone within the depth once, and nothing else. */
  lemma YieldsExactlyTheNewMatches(c: Crawl, seeds: seq<string>)
    ensures var found := Finished(c, seeds).found;
            && DistinctIds(found)
            && forall rid :: rid in Names(found)
                 <==> c.cfg.depth >= 0 && NewMatch(c, rid) && ListedWithin(c, seeds, rid, c.cfg.depth)
  {
    hide Within, NewMatch, Listed, Finished;
    FinishedIsEmpty(c, seeds);
    var s := Finished(c, seeds);
    forall rid
      ensures rid in Names(s.found)
         <==> c.cfg.depth >= 0 && NewMatch(c, rid) && ListedWithin(c, seeds, rid, c.cfg.depth)
    {
      if rid in Names(s.found) {
        var y :| y in s.found && y.0 == rid;
        var u :| u in Within(c, seeds, y.1) && rid in Listed(c, u);
        WithinGrows(c, seeds, y.1, c.cfg.depth);
        assert ListedWithin(c, seeds, rid, c.cfg.depth);
      }
      if c.cfg.depth >= 0 && NewMatch(c, rid) && ListedWithin(c, seeds, rid, c.cfg.depth) {
        ListedIsFound(c, seeds, rid, c.cfg.depth);
      }
    }
  }

  lemma SameId(entries: seq<(string, int)>, y: (string, int), z: (string, int))
    requires DistinctIds(entries) && y in entries && z in entries && y.0 == z.0
    ensures y == z
  {
    var i :| 0 <= i < |entries| && entries[i] == y;
    var j :| 0 <= j < |entries| && entries[j] == z;
    assert i == j;
  }

  /** A match is found at the hop distance of the nearest player who lists it, and matches come in that order. */
  lemma FoundAtNearestLister(c: Crawl, seeds: seq<string>, y: (string, int))
    requires y in Finished(c, seeds).found
    ensures DepthsAscend(Finished(c, seeds).found)
    ensures y.1 >= 0 && ListedWithin(c, seeds, y.0, y.1)
    ensures forall d: nat :: ListedWithin(c, seeds, y.0, d) ==> y.1 <= d
  {
    hide Within, NewMatch, Listed, Finished;
    FinishedIsEmpty(c, seeds);
    var s := Finished(c, seeds);
    forall d: nat | d <= c.cfg.depth && ListedWithin(c, seeds, y.0, d) ensures y.1 <= d {
      ListedIsFound(c, seeds, y.0, d);
      var z :| z in s.found && z.0 == y.0 && z.1 <= d;
      SameId(s.found, y, z);
    }
  }

  // ---- What the matches that are not new would have added ----

  /** A readable match the crawl does not follow: known before, incomplete or outside the window. */
  predicate Ignored(c: Crawl, rid: string) {
    c.src.fetch(rid).Some? && !NewMatch(c, rid)
  }

  /** Co-players over every readable match that someone in `us` lists. */
  function AllCoPlayers(c: Crawl, us: set<string>): set<string> {
    set u, rid, t, p | u in us && rid in Listed(c, u) && c.src.fetch(rid).Some?
                       && t in c.src.fetch(rid).value.subteams && p in t.participants && p.puuid != "" :: p.puuid
  }

  /** The players at most k hops from the seeds over all those matches. */
  function WithinAll(c: Crawl, seeds: seq<string>, k: nat): set<string> {
    if k == 0 then set u | u in seeds
    else WithinAll(c, seeds, k - 1) + AllCoPlayers(c, WithinAll(c, seeds, k - 1))
  }

  /** Whoever an ignored match of someone within k hops would add is within k + 1 hops anyway. */
  ghost predicate NothingMissed(c: Crawl, seeds: seq<string>, k: nat) {
    forall u, rid, v ::
      && u in Within(c, seeds, k) && rid in Listed(c, u) && Ignored(c, rid)
      && TakesPart(c.src.fetch(rid).value, v) && v != ""
      ==> v in Within(c, seeds, k + 1)
  }

  /** v takes part in a readable match that someone in `us` lists. */
  ghost predicate Meets(c: Crawl, us: set<string>, u: string, rid: string, v: string) {
    u in us && rid in Listed(c, u) && c.src.fetch(rid).Some? && TakesPart(c.src.fetch(rid).value, v) && v != ""
  }

  lemma AllCoPlayersMeet(c: Crawl, us: set<string>, v: string)
    ensures v in AllCoPlayers(c, us) <==> exists u, rid :: Meets(c, us, u, rid, v)
  {
    hide Listed;
    if v in AllCoPlayers(c, us) {
      var u, rid, t, p :| && u in us && rid in Listed(c, u) && c.src.fetch(rid).Some?
                          && t in c.src.fetch(rid).value.subteams && p in t.participants && p.puuid == v != "";
      assert Meets(c, us, u, rid, v);
    }
  }

  lemma NewCoPlayersMeet(c: Crawl, us: set<string>, v: string)
    ensures v in CoPlayers(c, us) <==> exists u, rid :: Meets(c, us, u, rid, v) && NewMatch(c, rid)
  {
    hide Listed, Eligible;
    if v in CoPlayers(c, us) {
      var u, rid, t, p :| && u in us && rid in Listed(c, u) && NewMatch(c, rid)
                          && t in c.src.fetch(rid).value.subteams && p in t.participants && p.puuid == v != "";
      assert Meets(c, us, u, rid, v);
    }
  }

  lemma OneHopFurther(c: Crawl, seeds: seq<string>, k: nat)
    ensures Within(c, seeds, k + 1) == Within(c, seeds, k) + CoPlayers(c, Within(c, seeds, k))
  {
    hide CoPlayers;
  }

  lemma CoPlayersSplit(c: Crawl, seeds: seq<string>, k: nat)
    ensures NothingMissed(c, seeds, k)
       <==> Within(c, seeds, k) + AllCoPlayers(c, Within(c, seeds, k)) == Within(c, seeds, k + 1)
  {
    hide AllCoPlayers, CoPlayers, Within, Listed, NewMatch, TakesPart;
    var us := Within(c, seeds, k);
    OneHopFurther(c, seeds, k);
    if NothingMissed(c, seeds, k) {
      forall v | v in AllCoPlayers(c, us) ensures v in Within(c, seeds, k + 1) {
        AllCoPlayersMeet(c, us, v);
        NewCoPlayersMeet(c, us, v);
        var u, rid :| Meets(c, us, u, rid, v);
      }
      forall v | v in CoPlayers(c, us) ensures v in AllCoPlayers(c, us) {
        AllCoPlayersMeet(c, us, v);
        NewCoPlayersMeet(c, us, v);
      }
    } else {
      var u, rid, v :| && u in us && rid in Listed(c, u) && Ignored(c, rid)
                       && TakesPart(c.src.fetch(rid).value, v) && v != "" && v !in Within(c, seeds, k + 1);
      AllCoPlayersMeet(c, us, v);
      assert Meets(c, us, u, rid, v);
    }
  }

  /**
   "Everyone within d hops" means the same over the matches the crawl follows and over all that are listed, for every
   distance up to d, if and only if nobody is met only in a match the crawl does not follow.
   */
  lemma {:induction false} AllHopsIff(c: Crawl, seeds: seq<string>, d: nat)
    ensures (forall k: nat :: k <= d ==> Within(c, seeds, k) == WithinAll(c, seeds, k))
       <==> forall k: nat :: k < d ==> NothingMissed(c, seeds, k)
  {
    hide CoPlayers, AllCoPlayers, NothingMissed;
    if d == 0 {
      assert Within(c, seeds, 0) == WithinAll(c, seeds, 0);
    } else {
      AllHopsIff(c, seeds, d - 1);
      CoPlayersSplit(c, seeds, d - 1);
      if Within(c, seeds, d - 1) == WithinAll(c, seeds, d - 1) { SameNextHop(c, seeds, d - 1); }
    }
  }

  lemma SameNextHop(c: Crawl, seeds: seq<string>, k: nat)
    requires Within(c, seeds, k) == WithinAll(c, seeds, k)
    ensures Within(c, seeds, k) + AllCoPlayers(c, Within(c, seeds, k)) == WithinAll(c, seeds, k + 1)
  {
  }
}
