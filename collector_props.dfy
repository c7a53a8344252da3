/**
 * What one collection cycle promises, proved about the functions of module
 * Collector: the scan emits exactly the convertible events of the fresh prefix,
 * the walk keeps every page it fetched before stopping, the cursor moves to the
 * newest ID whatever the scan did, and only the tracked repository's cursor
 * ever changes.
 */
module CollectorProps {
  import opened Wrappers
  import opened Types
  import opened Collector
  import Tracker

  // ---------------------------------------------------------------------------
  // Conversion

  lemma {:induction false} ConvertedConcat(org: string, a: seq<GhEvent>, b: seq<GhEvent>)
    ensures Converted(org, a + b) == Converted(org, a) + Converted(org, b)
    decreases |a|
  {
    if a != [] {
      assert (a + b)[0] == a[0];
      assert (a + b)[1..] == a[1..] + b;
      ConvertedConcat(org, a[1..], b);
      calc {
        Converted(org, a + b);
        ConvertedOne(org, a[0]) + Converted(org, a[1..] + b);
        ConvertedOne(org, a[0]) + (Converted(org, a[1..]) + Converted(org, b));
        (ConvertedOne(org, a[0]) + Converted(org, a[1..])) + Converted(org, b);
        Converted(org, a) + Converted(org, b);
      }
    } else {
      assert a + b == b;
    }
  }

  /** Conversion copies id and creation time, so a property of those survives it. */
  lemma {:induction false} ConvertedKeepsFreshness(org: string, s: seq<GhEvent>, cursor: string, cutoff: int)
    requires forall i :: 0 <= i < |s| ==> IsFresh(s[i], cursor, cutoff)
    ensures forall e :: e in Converted(org, s) ==> e.id != cursor && e.time >= cutoff
    decreases |s|
  {
    if s != [] {
      ConvertedKeepsFreshness(org, s[1..], cursor, cutoff);
    }
  }

  // ---------------------------------------------------------------------------
  // The scan

  /** Once the cursor has been seen, nothing more is emitted. */
  lemma {:induction false} ScanAfterFound(org: string, s: seq<GhEvent>, cursor: string, cutoff: int)
    ensures Scan(org, s, cursor, cutoff, true) == []
    decreases |s|
  {
    if s != [] {
      ScanAfterFound(org, s[1..], cursor, cutoff);
    }
  }

  /**
   * The scan emits exactly the convertible events of the longest prefix that
   * meets neither the cursor nor a too-old event, newest first.
   */
  lemma {:induction false} ScanIsConvertedFreshPrefix(org: string, s: seq<GhEvent>, cursor: string, cutoff: int)
    ensures Scan(org, s, cursor, cutoff, false) == Converted(org, s[..FreshPrefix(s, cursor, cutoff)])
    decreases |s|
  {
    if s == [] {
    } else if s[0].id == cursor {
      ScanAfterFound(org, s[1..], cursor, cutoff);
    } else if s[0].createdAt < cutoff {
    } else {
      var n := FreshPrefix(s, cursor, cutoff);
      ScanIsConvertedFreshPrefix(org, s[1..], cursor, cutoff);
      assert s[..n][0] == s[0];
      assert s[..n][1..] == s[1..][..n - 1];
    }
  }

  /** Dedup and bounded backfill: no emitted event is the stored cursor or older than the cutoff. */
  lemma ScanNeverEmitsCursorOrStale(org: string, s: seq<GhEvent>, cursor: string, cutoff: int)
    ensures forall e :: e in Scan(org, s, cursor, cutoff, false) ==> e.id != cursor && e.time >= cutoff
  {
    var n := FreshPrefix(s, cursor, cutoff);
    ScanIsConvertedFreshPrefix(org, s, cursor, cutoff);
    ConvertedKeepsFreshness(org, s[..n], cursor, cutoff);
  }

  /** FreshPrefix is the only length with its two defining properties. */
  lemma FreshPrefixUnique(s: seq<GhEvent>, cursor: string, cutoff: int, m: nat)
    requires m <= |s|
    requires forall i :: 0 <= i < m ==> IsFresh(s[i], cursor, cutoff)
    requires m < |s| ==> !IsFresh(s[m], cursor, cutoff)
    ensures FreshPrefix(s, cursor, cutoff) == m
  {
  }

  /**
   * The stored cursor or the first too-old event ends what the scan can emit:
   * the events at and after it make no difference.
   */
  lemma ScanStopsAt(org: string, s: seq<GhEvent>, cursor: string, cutoff: int, i: nat)
    requires i < |s| && !IsFresh(s[i], cursor, cutoff)
    ensures Scan(org, s, cursor, cutoff, false) == Scan(org, s[..i], cursor, cutoff, false)
  {
    var n := FreshPrefix(s, cursor, cutoff);
    assert n <= i;
    if n < i {
      assert s[..i][n] == s[n];
    }
    FreshPrefixUnique(s[..i], cursor, cutoff, n);
    assert s[..i][..n] == s[..n];
    ScanIsConvertedFreshPrefix(org, s, cursor, cutoff);
    ScanIsConvertedFreshPrefix(org, s[..i], cursor, cutoff);
  }

  /** Removing a fresh event from inside the fresh prefix shortens the prefix by one. */
  lemma FreshPrefixWithout(s: seq<GhEvent>, cursor: string, cutoff: int, i: nat)
    requires i < FreshPrefix(s, cursor, cutoff)
    ensures FreshPrefix(s[..i] + s[i + 1..], cursor, cutoff) == FreshPrefix(s, cursor, cutoff) - 1
  {
    var n := FreshPrefix(s, cursor, cutoff);
    var t := s[..i] + s[i + 1..];
    assert |t| == |s| - 1;
    forall k | 0 <= k < n - 1 ensures IsFresh(t[k], cursor, cutoff) {
      if k < i { assert t[k] == s[k]; } else { assert t[k] == s[k + 1]; }
    }
    if n - 1 < |t| {
      assert t[n - 1] == s[n];
    }
    FreshPrefixUnique(t, cursor, cutoff, n - 1);
  }

  /** An event that fails to convert contributes nothing to Converted. */
  lemma ConvertedWithout(org: string, s: seq<GhEvent>, i: nat, n: nat)
    requires i < n <= |s|
    requires ConvertGitHubEvent(org, s[i]).None?
    ensures Converted(org, s[..n]) == Converted(org, (s[..i] + s[i + 1..])[..n - 1])
  {
    assert s[..n] == s[..i] + [s[i]] + s[i + 1..n];
    assert (s[..i] + s[i + 1..])[..n - 1] == s[..i] + s[i + 1..n];
    assert Converted(org, [s[i]]) == [];
    ConvertedConcat(org, s[..i] + [s[i]], s[i + 1..n]);
    ConvertedConcat(org, s[..i], [s[i]]);
    ConvertedConcat(org, s[..i], s[i + 1..n]);
  }

  /**
   * A conversion failure skips only that event: the scan emits the same as
   * on the listing without it.
   */
  lemma ConversionFailureSkipsOnlyIt(org: string, s: seq<GhEvent>, cursor: string, cutoff: int, i: nat)
    requires i < FreshPrefix(s, cursor, cutoff)
    requires ConvertGitHubEvent(org, s[i]).None?
    ensures Scan(org, s, cursor, cutoff, false) == Scan(org, s[..i] + s[i + 1..], cursor, cutoff, false)
  {
    var n := FreshPrefix(s, cursor, cutoff);
    var t := s[..i] + s[i + 1..];
    FreshPrefixWithout(s, cursor, cutoff, i);
    ConvertedWithout(org, s, i, n);
    ScanIsConvertedFreshPrefix(org, s, cursor, cutoff);
    ScanIsConvertedFreshPrefix(org, t, cursor, cutoff);
  }

  // ---------------------------------------------------------------------------
  // The page walk

  lemma {:induction false} LatestAfterKeeps(latest: string, ps: seq<EventPage>)
    requires latest != ""
    ensures LatestAfter(latest, ps) == latest
    decreases |ps|
  {
    if ps != [] {
      LatestAfterKeeps(latest, ps[1..]);
    }
  }

  /**
   * The walk from call k on: it fails exactly when the limiter runs out
   * before its last call; otherwise it has appended the events of every page
   * it kept, remembered the first head ID, and used one wait per call.
   */
  lemma {:induction false} WalkFromShape(env: Env, k: nat, acc: seq<GhEvent>, latest: string, used: nat)
    requires k <= |env.eventPages|
    ensures var ps := env.eventPages[k..];
      && (WalkFrom(env, k, acc, latest, used).None? <==>
            env.waitBudget.Some? && env.waitBudget.value < used + Fetches(ps))
      && (WalkFrom(env, k, acc, latest, used).Some? ==>
            WalkFrom(env, k, acc, latest, used).value
              == Walk(acc + Flatten(ps[..Kept(ps)]), LatestAfter(latest, ps[..Kept(ps)]), used + Fetches(ps)))
    decreases |env.eventPages| - k
  {
    var ps := env.eventPages[k..];
    if k < |env.eventPages| {
      assert ps[0] == env.eventPages[k];
    }
    if !WaitOk(env.waitBudget, used) {
    } else if k >= |env.eventPages| {
    } else if env.eventPages[k].EventPageError? || |env.eventPages[k].events| == 0 {
    } else if env.eventPages[k].nextPage == 0 {
      assert ps[..1] == [ps[0]];
    } else {
      var evs := env.eventPages[k].events;
      var ps' := env.eventPages[k + 1..];
      assert ps[1..] == ps';
      WalkFromShape(env, k + 1, acc + evs, if latest == "" then evs[0].id else latest, used + 1);
      KeptStep(ps, latest);
      assert acc + (evs + Flatten(ps'[..Kept(ps')])) == acc + evs + Flatten(ps'[..Kept(ps')]);
    }
  }

  /** A kept page that announces a next page: the walk's summary of ps is that page followed by the summary of the rest. */
  lemma KeptStep(ps: seq<EventPage>, latest: string)
    requires |ps| > 0 && Contributes(ps[0]) && ps[0].nextPage != 0
    ensures Kept(ps) == Kept(ps[1..]) + 1
    ensures Fetches(ps) == Fetches(ps[1..]) + 1
    ensures Flatten(ps[..Kept(ps)]) == ps[0].events + Flatten(ps[1..][..Kept(ps[1..])])
    ensures LatestAfter(latest, ps[..Kept(ps)])
      == LatestAfter(if latest == "" then ps[0].events[0].id else latest, ps[1..][..Kept(ps[1..])])
  {
    var ps' := ps[1..];
    var n := Kept(ps);
    var n' := Kept(ps');
    if n' > 0 {
      assert ps[n - 1] == ps'[n' - 1];
    }
    assert ps[..n][0] == ps[0];
    assert ps[..n][1..] == ps'[..n'];
  }

  /** Every kept page contributes events, so a walk that kept a page has a non-empty listing headed by it. */
  lemma FlattenKeptHead(ps: seq<EventPage>)
    requires Kept(ps) > 0
    ensures var all := Flatten(ps[..Kept(ps)]);
      |all| > 0 && all[0] == ps[0].events[0]
  {
    var n := Kept(ps);
    assert ps[..n][0] == ps[0];
  }

  /**
   * Page accumulation from the first call: the accumulated events are the
   * concatenation of the kept pages (so pages fetched before a later error
   * are kept), and the remembered ID is the first event's when that ID is
   * not empty, and empty when nothing was accumulated.
   */
  lemma WalkAccumulates(env: Env, used: nat)
    ensures WalkFrom(env, 0, [], "", used).Some? ==>
      var w := WalkFrom(env, 0, [], "", used).value;
      var n := Kept(env.eventPages);
      && w.all == Flatten(env.eventPages[..n])
      && (n == 0 ==> w.all == [] && w.latest == "")
      && (n > 0 ==> |w.all| > 0 && w.all[0] == env.eventPages[0].events[0])
      && (|w.all| > 0 && w.all[0].id != "" ==> w.latest == w.all[0].id)
  {
    var ps := env.eventPages;
    assert env.eventPages[0..] == ps;
    WalkFromShape(env, 0, [], "", used);
    var n := Kept(ps);
    if n > 0 {
      FlattenKeptHead(ps);
      assert ps[..n][0] == ps[0];
      var first := ps[0].events[0].id;
      if first != "" {
        LatestAfterKeeps(first, ps[..n][1..]);
      }
    }
  }

  // ---------------------------------------------------------------------------
  // One repository

  /**
   * The new cursor is the ID of the first event of the first page, whatever
   * the scan met (cursor, cutoff, conversion failures), unless a send was
   * cancelled or the limiter failed.
   */
  lemma CursorBecomesNewestId(org: string, env: Env, st: CycleState, repo: string)
    requires Uncancelled(env, st)
    requires |env.eventPages| > 0 && Contributes(env.eventPages[0]) && env.eventPages[0].events[0].id != ""
    requires CollectRepo(org, env, st, repo).Continue?
    ensures CollectRepo(org, env, st, repo).st.cursors
            == Tracker.Touch(st.cursors, repo)[repo := env.eventPages[0].events[0].id]
  {
    WalkAccumulates(env, st.waits);
  }

  /** An empty first page (or a failed first call) emits nothing and leaves the stored cursor as it was. */
  lemma EmptyListingChangesNothing(org: string, env: Env, st: CycleState, repo: string)
    requires Uncancelled(env, st)
    requires |env.eventPages| == 0 || !Contributes(env.eventPages[0])
    requires WaitOk(env.waitBudget, st.waits)
    ensures CollectRepo(org, env, st, repo)
            == Continue(CycleState(Tracker.Touch(st.cursors, repo), st.sent, st.waits + 1))
    ensures Tracker.Cursor(CollectRepo(org, env, st, repo).st.cursors, repo) == Tracker.Cursor(st.cursors, repo)
  {
  }

  /** A cancelled send returns before the cursor update. */
  lemma CancelledKeepsCursor(org: string, env: Env, st: CycleState, repo: string)
    requires Uncancelled(env, st)
    requires CollectRepo(org, env, st, repo).Abort?
    ensures CollectRepo(org, env, st, repo).st.cursors == Tracker.Touch(st.cursors, repo)
  {
  }

  /**
   * What a completed repository visit sends: the convertible events of the
   * fresh prefix of the accumulated listing, appended in scan order.
   */
  lemma CollectRepoSends(org: string, env: Env, st: CycleState, repo: string)
    requires Uncancelled(env, st)
    requires CollectRepo(org, env, st, repo).Continue?
    ensures WalkFrom(env, 0, [], "", st.waits).Some?
    ensures var all := WalkFrom(env, 0, [], "", st.waits).value.all;
      var cursor := Tracker.Cursor(st.cursors, repo);
      var cutoff := env.now - Window;
      CollectRepo(org, env, st, repo).st.sent
        == st.sent + Converted(org, all[..FreshPrefix(all, cursor, cutoff)])
  {
    var all := WalkFrom(env, 0, [], "", st.waits).value.all;
    ScanIsConvertedFreshPrefix(org, all, Tracker.Cursor(st.cursors, repo), env.now - Window);
  }

  // ---------------------------------------------------------------------------
  // The whole cycle

  /** a and b agree on every repository other than the tracked one. */
  ghost predicate SameOffTracked(a: map<string, string>, b: map<string, string>)
  {
    forall r :: r != TrackedRepo ==> (r in a <==> r in b) && (r in a ==> a[r] == b[r])
  }

  lemma {:induction false} ReposFromFrame(org: string, env: Env, names: seq<string>, j: nat, st: CycleState)
    requires j <= |names| && Uncancelled(env, st)
    ensures SameOffTracked(ReposFrom(org, env, names, j, st).st.cursors, st.cursors)
    decreases |names| - j
  {
    if j < |names| && WaitOk(env.waitBudget, st.waits) {
      var st1 := st.(waits := st.waits + 1);
      if names[j] != TrackedRepo {
        ReposFromFrame(org, env, names, j + 1, st1);
      } else {
        match CollectRepo(org, env, st1, names[j])
        case Abort(s, e) =>
        case Continue(s) =>
          ReposFromFrame(org, env, names, j + 1, s);
      }
    }
  }

  lemma {:induction false} ListFromFrame(org: string, env: Env, i: nat, st: CycleState)
    requires Uncancelled(env, st)
    ensures SameOffTracked(ListFrom(org, env, i, st).st.cursors, st.cursors)
    decreases |env.repoPages| - i, 1
  {
    if WaitOk(env.waitBudget, st.waits) {
      var st1 := st.(waits := st.waits + 1);
      if i < |env.repoPages| && env.repoPages[i].RepoPage? {
        var s := ReposFrom(org, env, env.repoPages[i].names, 0, st1);
        ReposFromFrame(org, env, env.repoPages[i].names, 0, st1);
        AfterPageFrame(org, env, i, s);
      }
    }
  }

  lemma {:induction false} AfterPageFrame(org: string, env: Env, i: nat, s: Step)
    requires i < |env.repoPages| && env.repoPages[i].RepoPage?
    requires s.Continue? ==> Uncancelled(env, s.st)
    ensures SameOffTracked(AfterPage(org, env, i, s).st.cursors, s.st.cursors)
    decreases |env.repoPages| - i, 0
  {
    if s.Continue? && env.repoPages[i].nextPage != 0 {
      ListFromFrame(org, env, i + 1, s.st);
    }
  }

  /** Only the tracked repository's cursor can be created or changed by a cycle. */
  lemma CycleTouchesOnlyTrackedRepo(org: string, env: Env, cursors: map<string, string>)
    ensures SameOffTracked(Cycle(org, env, cursors).st.cursors, cursors)
  {
    ListFromFrame(org, env, 0, CycleState(cursors, [], 0));
  }

  /** A failed repository listing ends the cycle before any repository is visited. */
  lemma ListingErrorAbortsCycle(org: string, env: Env, cursors: map<string, string>)
    requires WaitOk(env.waitBudget, 0)
    requires |env.repoPages| == 0 || env.repoPages[0].RepoPageError?
    ensures Cycle(org, env, cursors) == Abort(CycleState(cursors, [], 1), ListReposError)
  {
  }

  /**
   * An error while visiting a repository (a limiter failure or a cancelled
   * send) ends the whole cycle: whatever repositories are listed after it
   * are never visited, so appending more names changes nothing; and the
   * abort passes through the page loop unchanged.
   */
  lemma {:induction false} AbortIgnoresLaterRepos(org: string, env: Env, names: seq<string>, rest: seq<string>, j: nat, st: CycleState)
    requires j <= |names| && Uncancelled(env, st)
    requires ReposFrom(org, env, names, j, st).Abort?
    ensures ReposFrom(org, env, names + rest, j, st) == ReposFrom(org, env, names, j, st)
    ensures forall i :: 0 <= i < |env.repoPages| && env.repoPages[i].RepoPage? ==>
      AfterPage(org, env, i, ReposFrom(org, env, names, j, st)) == ReposFrom(org, env, names, j, st)
    decreases |names| - j
  {
    if WaitOk(env.waitBudget, st.waits) {
      var st1 := st.(waits := st.waits + 1);
      assert (names + rest)[j] == names[j];
      if names[j] != TrackedRepo {
        AbortIgnoresLaterRepos(org, env, names, rest, j + 1, st1);
      } else {
        match CollectRepo(org, env, st1, names[j])
        case Abort(_, _) =>
        case Continue(s') => AbortIgnoresLaterRepos(org, env, names, rest, j + 1, s');
      }
    }
  }

  /** One tracked repository sends only by appending, spends no wait back, and keeps every cursor entry, adding its own. */
  lemma CollectRepoAdvances(org: string, env: Env, st: CycleState, repo: string)
    requires Uncancelled(env, st)
    ensures Advances(st, CollectRepo(org, env, st, repo).st)
    ensures repo in CollectRepo(org, env, st, repo).st.cursors
  {
  }

  /** The name loop never takes back a send, a wait or a cursor entry. */
  lemma {:induction false} ReposFromAdvances(org: string, env: Env, names: seq<string>, j: nat, st: CycleState)
    requires j <= |names| && Uncancelled(env, st)
    ensures Advances(st, ReposFrom(org, env, names, j, st).st)
    decreases |names| - j
  {
    if j < |names| && WaitOk(env.waitBudget, st.waits) {
      var st1 := st.(waits := st.waits + 1);
      if names[j] != TrackedRepo {
        ReposFromAdvances(org, env, names, j + 1, st1);
      } else {
        CollectRepoAdvances(org, env, st1, names[j]);
        match CollectRepo(org, env, st1, names[j])
        case Abort(_, _) =>
        case Continue(s') => ReposFromAdvances(org, env, names, j + 1, s');
      }
    }
  }

  /**
   * The listing loop never takes back a send, a wait or a cursor entry, and
   * a loop that finishes has made at least one listing call.
   */
  lemma {:induction false} ListFromAdvances(org: string, env: Env, i: nat, st: CycleState)
    requires Uncancelled(env, st)
    ensures Advances(st, ListFrom(org, env, i, st).st)
    ensures ListFrom(org, env, i, st).Continue? ==> ListFrom(org, env, i, st).st.waits > st.waits
    decreases |env.repoPages| - i
  {
    if WaitOk(env.waitBudget, st.waits) {
      var st1 := st.(waits := st.waits + 1);
      if i < |env.repoPages| && env.repoPages[i].RepoPage? {
        ReposFromAdvances(org, env, env.repoPages[i].names, 0, st1);
        match ReposFrom(org, env, env.repoPages[i].names, 0, st1)
        case Abort(_, _) =>
        case Continue(st2) =>
          if env.repoPages[i].nextPage != 0 {
            ListFromAdvances(org, env, i + 1, st2);
          }
      }
    }
  }

  /** A whole cycle removes no cursor entry, and one that returns without error has waited at least once. */
  lemma CycleAdvances(org: string, env: Env, cursors: map<string, string>)
    ensures cursors.Keys <= Cycle(org, env, cursors).st.cursors.Keys
    ensures Cycle(org, env, cursors).Continue? ==> Cycle(org, env, cursors).st.waits >= 1
  {
    ListFromAdvances(org, env, 0, CycleState(cursors, [], 0));
  }
}
