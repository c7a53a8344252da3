/**
 * The GitHub polling collector of internal/collector, stated as functions:
 * the field mapping of one GitHub event, the page walk that accumulates a
 * repository's listing, the newest-first scan that decides which events are
 * new, and one whole collection cycle over the organisation's repositories.
 * The imperative collector in CollectorImpl is proved to compute exactly
 * Cycle; the lemmas below state what a cycle promises.
 */
module Collector {
  import opened Wrappers
  import opened Types
  import Tracker

  /** The only repository collectEvents follows; every other name is skipped. */
  const TrackedRepo: string := "elixir"

  /** Events created before now minus this window end the scan (time.Now().Add(-24 * time.Hour)). */
  const Window: int := 24 * Hour

  /**
   * One item of the repository events listing. payload is None when
   * ParsePayload or the re-marshal of the payload fails.
   */
  datatype GhEvent = GhEvent(
    id: string,
    eventType: string,
    createdAt: int,
    repoName: string,
    actorLogin: string,
    payload: Option<Bytes>)

  /** The answer to one ListRepositoryEvents call: a page and the NextPage field, or an error. */
  datatype EventPage = EventPage(events: seq<GhEvent>, nextPage: nat) | EventPageError

  /** The answer to one Repositories.ListByOrg call. */
  datatype RepoPage = RepoPage(names: seq<string>, nextPage: nat) | RepoPageError

  /**
   * What one cycle sees of the world. The k-th listing call of a kind answers
   * with the k-th element; a call past the end fails. The rate limiter grants
   * waitBudget waits and then fails (None: it never fails). cancelAfter sends
   * complete before the context's cancellation wins a send (None: no
   * cancellation).
   */
  datatype Env = Env(
    now: int,
    repoPages: seq<RepoPage>,
    eventPages: seq<EventPage>,
    waitBudget: Option<nat>,
    cancelAfter: Option<nat>)

  datatype CycleError = LimiterError | ListReposError | Cancelled

  // ---------------------------------------------------------------------------
  // convertGitHubEvent

  /** convertGitHubEvent: fails exactly when the payload cannot be parsed or re-encoded. */
  function ConvertGitHubEvent(org: string, e: GhEvent): (r: Option<Event>)
    ensures r.Some? <==> e.payload.Some?
    ensures r.Some? ==>
      && r.value.id == e.id
      && r.value.eventType == "github." + e.eventType
      && r.value.source == "//github.com/" + org + "/" + e.repoName
      && r.value.specVersion == SpecVersionV1
      && r.value.time == e.createdAt
      && r.value.data == e.payload.value
      && r.value.subject == e.actorLogin
      && r.value.extensions.Keys == {"org", "repo", "actor", "raw_type"}
      && r.value.extensions["org"] == ExtString(org)
      && r.value.extensions["repo"] == ExtString(e.repoName)
      && r.value.extensions["actor"] == ExtString(e.actorLogin)
      && r.value.extensions["raw_type"] == ExtString(e.eventType)
  {
    match e.payload
    case None => None
    case Some(data) =>
      Some(Event(
        e.id,
        "//github.com/" + org + "/" + e.repoName,
        SpecVersionV1,
        "github." + e.eventType,
        e.createdAt,
        data,
        e.actorLogin,
        "",
        map["org" := ExtString(org), "repo" := ExtString(e.repoName),
            "actor" := ExtString(e.actorLogin), "raw_type" := ExtString(e.eventType)]))
  }

  /** The conversion of e as a sequence: one event, or none when it fails. */
  function ConvertedOne(org: string, e: GhEvent): seq<Event>
  {
    match ConvertGitHubEvent(org, e)
    case Some(ev) => [ev]
    case None => []
  }

  /** The converted events of s, in order, leaving out those that fail to convert. */
  function Converted(org: string, s: seq<GhEvent>): (r: seq<Event>)
    ensures |r| <= |s|
  {
    if s == [] then [] else ConvertedOne(org, s[0]) + Converted(org, s[1..])
  }

  // ---------------------------------------------------------------------------
  // The page walk

  /** limiter.Wait succeeds when fewer than the budget's waits have been made. */
  predicate WaitOk(budget: Option<nat>, used: nat)
  {
    budget.None? || used < budget.value
  }

  /** The outcome of a finished walk: the accumulated events, the newest ID and the waits used so far. */
  datatype Walk = Walk(all: seq<GhEvent>, latest: string, waits: nat)

  /**
   * The pagination loop from the k-th call on: wait, fetch, stop on an error
   * or an empty page, remember the first ID seen, append, stop when NextPage
   * is 0. None when a limiter wait fails, which aborts the whole cycle.
   */
  function WalkFrom(env: Env, k: nat, acc: seq<GhEvent>, latest: string, used: nat): (r: Option<Walk>)
    ensures r.Some? ==> r.value.waits > used
    decreases |env.eventPages| - k
  {
    if !WaitOk(env.waitBudget, used) then None
    else if k >= |env.eventPages| then Some(Walk(acc, latest, used + 1))
    else match env.eventPages[k]
      case EventPageError => Some(Walk(acc, latest, used + 1))
      case EventPage(evs, next) =>
        if |evs| == 0 then Some(Walk(acc, latest, used + 1))
        else
          var latest' := if latest == "" then evs[0].id else latest;
          if next == 0 then Some(Walk(acc + evs, latest', used + 1))
          else WalkFrom(env, k + 1, acc + evs, latest', used + 1)
  }

  /** A page whose events are kept: fetched without error and not empty. */
  predicate Contributes(p: EventPage)
  {
    p.EventPage? && |p.events| > 0
  }

  /** A page whose NextPage field asks for another call. */
  predicate AnnouncesNext(p: EventPage)
  {
    p.EventPage? && p.nextPage != 0
  }

  function PageEvents(p: EventPage): seq<GhEvent>
  {
    if p.EventPage? then p.events else []
  }

  function Flatten(ps: seq<EventPage>): seq<GhEvent>
  {
    if ps == [] then [] else PageEvents(ps[0]) + Flatten(ps[1..])
  }

  /**
   * How many leading pages the walk keeps: each kept page is non-empty, each
   * but the last announces a next page, and the walk stops after them
   * because the listing ended, the next call failed or returned nothing, or
   * the last kept page had NextPage 0.
   */
  function Kept(ps: seq<EventPage>): (n: nat)
    ensures n <= |ps|
    ensures forall i :: 0 <= i < n ==> Contributes(ps[i])
    ensures forall i :: 0 <= i < n - 1 ==> AnnouncesNext(ps[i])
    ensures n == |ps| || !Contributes(ps[n]) || (n > 0 && !AnnouncesNext(ps[n - 1]))
  {
    if ps == [] || !Contributes(ps[0]) then 0
    else if ps[0].nextPage == 0 then 1
    else 1 + Kept(ps[1..])
  }

  /** The number of listing calls the walk makes, one limiter wait each. */
  function Fetches(ps: seq<EventPage>): nat
  {
    var n := Kept(ps);
    if n > 0 && !AnnouncesNext(ps[n - 1]) then n else n + 1
  }

  /** The ID remembered after the given kept pages: the first non-empty head ID. */
  function LatestAfter(latest: string, ps: seq<EventPage>): string
    decreases |ps|
  {
    if ps == [] then latest
    else LatestAfter(if latest == "" && Contributes(ps[0]) then ps[0].events[0].id else latest, ps[1..])
  }

  // ---------------------------------------------------------------------------
  // The scan

  /**
   * The scan loop over the accumulated events, newest first. The stored
   * cursor is skipped and flips found; once found, everything is skipped;
   * before that, an event older than the cutoff ends the scan, an event that
   * fails to convert is skipped, and the rest are emitted in scan order.
   */
  function Scan(org: string, s: seq<GhEvent>, cursor: string, cutoff: int, found: bool): (r: seq<Event>)
    ensures |r| <= |s|
    ensures found ==> r == []
    decreases |s|
  {
    if s == [] then []
    else if s[0].id == cursor then Scan(org, s[1..], cursor, cutoff, true)
    else if found then Scan(org, s[1..], cursor, cutoff, found)
    else if s[0].createdAt < cutoff then []
    else match ConvertGitHubEvent(org, s[0])
      case None => Scan(org, s[1..], cursor, cutoff, false)
      case Some(ev) => [ev] + Scan(org, s[1..], cursor, cutoff, false)
  }

  /** An event the scan may still emit: not the cursor and inside the window. */
  predicate IsFresh(e: GhEvent, cursor: string, cutoff: int)
  {
    e.id != cursor && e.createdAt >= cutoff
  }

  /** The length of the longest prefix of s that holds neither the cursor nor a too-old event. */
  function FreshPrefix(s: seq<GhEvent>, cursor: string, cutoff: int): (n: nat)
    ensures n <= |s|
    ensures forall i :: 0 <= i < n ==> IsFresh(s[i], cursor, cutoff)
    ensures n < |s| ==> !IsFresh(s[n], cursor, cutoff)
  {
    if s == [] || !IsFresh(s[0], cursor, cutoff) then 0
    else 1 + FreshPrefix(s[1..], cursor, cutoff)
  }

  // ---------------------------------------------------------------------------
  // One cycle

  /** The state a cycle threads through: the cursors, everything sent so far, the limiter waits used. */
  datatype CycleState = CycleState(cursors: map<string, string>, sent: seq<Event>, waits: nat)

  /** A cycle either goes on or has returned an error; the state is what it left behind. */
  datatype Step = Continue(st: CycleState) | Abort(st: CycleState, err: CycleError)

  /**
   * What a cycle never undoes: sent events stay sent, limiter waits stay
   * spent, and no repository's cursor entry is removed.
   */
  predicate Advances(st: CycleState, st': CycleState)
  {
    st.sent <= st'.sent && st.waits <= st'.waits && st.cursors.Keys <= st'.cursors.Keys
  }

  /**
   * Sending the scan's events one by one with a send that blocks until the
   * consumer takes it or the context is cancelled: returns what was sent and
   * whether cancellation cut the sending short.
   */
  function Deliver(sent: seq<Event>, emitted: seq<Event>, cancelAfter: Option<nat>): (r: (seq<Event>, bool))
    ensures !r.1 ==> r.0 == sent + emitted
    ensures r.1 ==>
              && cancelAfter.Some? && |r.0| == cancelAfter.value
              && |sent| <= |r.0| < |sent| + |emitted|
              && r.0 == sent + emitted[..|r.0| - |sent|]
    ensures r.1 <==> cancelAfter.Some? && |sent| <= cancelAfter.value < |sent| + |emitted|
    requires cancelAfter.Some? ==> |sent| <= cancelAfter.value
  {
    if cancelAfter.Some? && |sent| + |emitted| > cancelAfter.value then
      (sent + emitted[..cancelAfter.value - |sent|], true)
    else (sent + emitted, false)
  }

  /** No send has been cancelled so far. */
  predicate Uncancelled(env: Env, st: CycleState)
  {
    env.cancelAfter.Some? ==> |st.sent| <= env.cancelAfter.value
  }

  /**
   * One tracked repository: read its cursor (creating the entry), walk the
   * listing, and if anything was accumulated scan and send, then move the
   * cursor to the remembered newest ID unless a send was cancelled. When a
   * limiter wait inside the walk fails, the aborted state keeps the wait
   * count from before the walk: the cycle ends there, so the waits the walk
   * spent are never consulted again.
   */
  function CollectRepo(org: string, env: Env, st: CycleState, repo: string): (r: Step)
    requires Uncancelled(env, st)
    ensures r.Continue? ==> Uncancelled(env, r.st)
  {
    var cursors := Tracker.Touch(st.cursors, repo);
    var cursor := Tracker.Cursor(st.cursors, repo);
    match WalkFrom(env, 0, [], "", st.waits)
    case None => Abort(st.(cursors := cursors), LimiterError)
    case Some(w) =>
      if |w.all| == 0 then Continue(CycleState(cursors, st.sent, w.waits))
      else
        var d := Deliver(st.sent, Scan(org, w.all, cursor, env.now - Window, false), env.cancelAfter);
        if d.1 then Abort(CycleState(cursors, d.0, w.waits), Cancelled)
        else Continue(CycleState(if w.latest != "" then cursors[repo := w.latest] else cursors, d.0, w.waits))
  }

  /** The loop over one page of repository names, from the j-th name on. */
  function ReposFrom(org: string, env: Env, names: seq<string>, j: nat, st: CycleState): (r: Step)
    requires j <= |names| && Uncancelled(env, st)
    ensures r.Continue? ==> Uncancelled(env, r.st)
    decreases |names| - j
  {
    if j == |names| then Continue(st)
    else if !WaitOk(env.waitBudget, st.waits) then Abort(st, LimiterError)
    else
      var st1 := st.(waits := st.waits + 1);
      if names[j] != TrackedRepo then ReposFrom(org, env, names, j + 1, st1)
      else match CollectRepo(org, env, st1, names[j])
        case Abort(s, e) => Abort(s, e)
        case Continue(s) => ReposFrom(org, env, names, j + 1, s)
  }

  /** The repository listing loop from the i-th ListByOrg call on. */
  function ListFrom(org: string, env: Env, i: nat, st: CycleState): (r: Step)
    requires Uncancelled(env, st)
    ensures r.Continue? ==> Uncancelled(env, r.st)
    decreases |env.repoPages| - i, 1
  {
    if !WaitOk(env.waitBudget, st.waits) then Abort(st, LimiterError)
    else
      var st1 := st.(waits := st.waits + 1);
      if i >= |env.repoPages| || env.repoPages[i].RepoPageError? then Abort(st1, ListReposError)
      else AfterPage(org, env, i, ReposFrom(org, env, env.repoPages[i].names, 0, st1))
  }

  /** What follows the names of page i: stop on an error or on NextPage 0, else list the next page. */
  function AfterPage(org: string, env: Env, i: nat, s: Step): (r: Step)
    requires i < |env.repoPages| && env.repoPages[i].RepoPage?
    requires s.Continue? ==> Uncancelled(env, s.st)
    ensures r.Continue? ==> Uncancelled(env, r.st)
    ensures s.Abort? ==> r == s
    decreases |env.repoPages| - i, 0
  {
    match s
    case Abort(_, _) => s
    case Continue(st) =>
      if env.repoPages[i].nextPage == 0 then s else ListFrom(org, env, i + 1, st)
  }

  /** collectEvents for organisation org, starting from the tracker's cursors. */
  function Cycle(org: string, env: Env, cursors: map<string, string>): (r: Step)
    ensures r.Continue? ==> Uncancelled(env, r.st)
  {
    ListFrom(org, env, 0, CycleState(cursors, [], 0))
  }
}
