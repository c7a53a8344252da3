/**
 * GitHubCollector: the imperative collection cycle. collectEvents walks the
 * organisation's repository pages and, for the tracked repository, its event
 * pages, scans them and sends the new events, and updates the tracker in
 * place. Each method is proved to compute the matching function of module
 * Collector.
 */
module CollectorImpl {
  import opened Wrappers
  import opened Types
  import opened Collector
  import Tracker
  import Text

  class GitHubCollector {
    const orgName: string
    const tracker: Tracker.EventTracker

    constructor (orgName: string)
      ensures this.orgName == orgName
      ensures fresh(tracker) && fresh(tracker.Repr) && tracker.Valid() && tracker.Cursors() == map[]
    {
      this.orgName := orgName;
      tracker := new Tracker.EventTracker();
    }

    /**
     * Name: the collector's fixed identifier, "github", which is also the
     * namespace of every event type it produces.
     */
    function Name(): (n: string)
      ensures n == "github"
      ensures forall e: GhEvent {:trigger ConvertGitHubEvent(orgName, e)} ::
        ConvertGitHubEvent(orgName, e).Some? ==> Text.HasPrefix(ConvertGitHubEvent(orgName, e).value.eventType, n + ".")
    {
      assert forall t: string :: Text.HasPrefix("github." + t, "github" + ".") by {
        forall t: string ensures Text.HasPrefix("github." + t, "github" + ".") {
          Text.TrimPrefixOfConcat("github.", t);
        }
      }
      "github"
    }

    /**
     * The event pagination loop of one repository: one limiter wait per
     * call, the first ID of the first non-empty page remembered, the pages
     * appended until an error, an empty page or NextPage 0.
     */
    static method FetchEvents(env: Env, used: nat) returns (w: Option<Walk>)
      ensures w == WalkFrom(env, 0, [], "", used)
    {
      var k := 0;
      var all: seq<GhEvent> := [];
      var latest := "";
      var waits := used;
      while true
        invariant k <= |env.eventPages|
        invariant WalkFrom(env, 0, [], "", used) == WalkFrom(env, k, all, latest, waits)
        decreases |env.eventPages| - k
      {
        if !WaitOk(env.waitBudget, waits) {
          return None;
        }
        waits := waits + 1;
        if k >= |env.eventPages| || env.eventPages[k].EventPageError? {
          // the fetch failed: logged, and pagination ends
          return Some(Walk(all, latest, waits));
        }
        var events := env.eventPages[k].events;
        if |events| == 0 {
          return Some(Walk(all, latest, waits));
        }
        if latest == "" && |events| > 0 {
          latest := events[0].id;
        }
        all := all + events;
        if env.eventPages[k].nextPage == 0 {
          return Some(Walk(all, latest, waits));
        }
        k := k + 1;
      }
    }

    /**
     * The scan loop: skip the cursor and flag it, skip everything after it,
     * stop at the first too-old event, skip conversion failures, and send the
     * rest; a send that loses to cancellation returns at once.
     */
    method ScanAndSend(all: seq<GhEvent>, cursor: string, cutoff: int, sent0: seq<Event>, cancelAfter: Option<nat>)
      returns (sent: seq<Event>, cancelled: bool)
      requires cancelAfter.Some? ==> |sent0| <= cancelAfter.value
      ensures (sent, cancelled) == Deliver(sent0, Scan(orgName, all, cursor, cutoff, false), cancelAfter)
    {
      ghost var emitted := Scan(orgName, all, cursor, cutoff, false);
      ghost var out: seq<Event> := [];
      sent := sent0;
      cancelled := false;
      var foundLastSeen := false;
      var i := 0;
      while i < |all|
        invariant 0 <= i <= |all|
        invariant emitted == out + Scan(orgName, all[i..], cursor, cutoff, foundLastSeen)
        invariant sent == sent0 + out
        invariant cancelAfter.Some? ==> |sent| <= cancelAfter.value
      {
        ScanUnfold(orgName, all, i, cursor, cutoff, foundLastSeen);
        var ghEvent := all[i];
        if ghEvent.id == cursor {
          foundLastSeen := true;
          i := i + 1;
          continue;
        }
        if !foundLastSeen {
          if ghEvent.createdAt < cutoff {
            break;
          }
          var event := ConvertGitHubEvent(orgName, ghEvent);
          if event.None? {
            i := i + 1;
            continue;
          }
          if cancelAfter.Some? && |sent| == cancelAfter.value {
            cancelled := true;
            PrefixOfConcat(out, [event.value] + Scan(orgName, all[i + 1..], cursor, cutoff, false));
            return;
          }
          sent := sent + [event.value];
          out := out + [event.value];
        }
        i := i + 1;
      }
      if i == |all| {
        assert all[i..] == [];
      }
      assert emitted == out;
    }

    /**
     * The body of the repository loop for the tracked repository: read the
     * cursor, fetch the events, scan and send them, move the cursor.
     */
    method CollectTracked(env: Env, repoName: string, sent0: seq<Event>, waits0: nat)
      returns (sent: seq<Event>, waits: nat, err: Option<CycleError>)
      requires tracker.Valid() && Uncancelled(env, CycleState(tracker.Cursors(), sent0, waits0))
      modifies tracker.Repr
      ensures tracker.Valid() && fresh(tracker.Repr - old(tracker.Repr))
      ensures var r := CollectRepo(orgName, env, CycleState(old(tracker.Cursors()), sent0, waits0), repoName);
        && CycleState(tracker.Cursors(), sent, waits) == r.st
        && err == (if r.Abort? then Some(r.err) else None)
    {
      ghost var c0 := tracker.Cursors();
      ghost var cursors := Tracker.Touch(c0, repoName);
      ghost var r := CollectRepo(orgName, env, CycleState(c0, sent0, waits0), repoName);
      sent, waits := sent0, waits0;
      var lastEventID := tracker.GetLastEventID(repoName);
      var walk := FetchEvents(env, waits);
      if walk.None? {
        assert r == Abort(CycleState(cursors, sent0, waits0), LimiterError);
        return sent, waits, Some(LimiterError);
      }
      waits := walk.value.waits;
      if |walk.value.all| == 0 {
        assert r == Continue(CycleState(cursors, sent0, waits));
        return sent, waits, None;
      }
      var cancelled;
      sent, cancelled := ScanAndSend(walk.value.all, lastEventID, env.now - Window, sent, env.cancelAfter);
      if cancelled {
        assert r == Abort(CycleState(cursors, sent, waits), Cancelled);
        return sent, waits, Some(Cancelled);
      }
      assert tracker.Cursors() == cursors;
      if walk.value.latest != "" {
        tracker.UpdateLastEventID(repoName, walk.value.latest);
      }
      assert r == Continue(CycleState(tracker.Cursors(), sent, waits));
      err := None;
    }

    /** The loop over the names of one page of the repository listing. */
    method CollectPage(env: Env, names: seq<string>, sent0: seq<Event>, waits0: nat)
      returns (sent: seq<Event>, waits: nat, err: Option<CycleError>)
      requires tracker.Valid() && Uncancelled(env, CycleState(tracker.Cursors(), sent0, waits0))
      modifies tracker.Repr
      ensures tracker.Valid() && fresh(tracker.Repr - old(tracker.Repr))
      ensures var r := ReposFrom(orgName, env, names, 0, CycleState(old(tracker.Cursors()), sent0, waits0));
        && CycleState(tracker.Cursors(), sent, waits) == r.st
        && err == (if r.Abort? then Some(r.err) else None)
    {
      ghost var goal := ReposFrom(orgName, env, names, 0, CycleState(tracker.Cursors(), sent0, waits0));
      sent, waits := sent0, waits0;
      var j := 0;
      while j < |names|
        invariant j <= |names|
        invariant tracker.Valid() && fresh(tracker.Repr - old(tracker.Repr))
        invariant Uncancelled(env, CycleState(tracker.Cursors(), sent, waits))
        invariant goal == ReposFrom(orgName, env, names, j, CycleState(tracker.Cursors(), sent, waits))
        decreases |names| - j
      {
        if !WaitOk(env.waitBudget, waits) {
          return sent, waits, Some(LimiterError);
        }
        waits := waits + 1;
        if names[j] == TrackedRepo {
          sent, waits, err := CollectTracked(env, names[j], sent, waits);
          if err.Some? {
            return;
          }
        }
        j := j + 1;
      }
      err := None;
    }

    /**
     * collectEvents: one whole cycle. Returns what it sent and the error it
     * returned, if any; the tracker ends up holding the cycle's cursors.
     */
    method CollectEvents(env: Env) returns (sent: seq<Event>, err: Option<CycleError>)
      requires tracker.Valid()
      modifies tracker.Repr
      ensures tracker.Valid() && fresh(tracker.Repr - old(tracker.Repr))
      ensures var r := Cycle(orgName, env, old(tracker.Cursors()));
        && tracker.Cursors() == r.st.cursors
        && sent == r.st.sent
        && err == (if r.Abort? then Some(r.err) else None)
    {
      ghost var goal := Cycle(orgName, env, tracker.Cursors());
      sent := [];
      var waits := 0;
      var i := 0;
      while true
        invariant tracker.Valid() && fresh(tracker.Repr - old(tracker.Repr))
        invariant Uncancelled(env, CycleState(tracker.Cursors(), sent, waits))
        invariant goal == ListFrom(orgName, env, i, CycleState(tracker.Cursors(), sent, waits))
        decreases |env.repoPages| - i
      {
        if !WaitOk(env.waitBudget, waits) {
          return sent, Some(LimiterError);
        }
        waits := waits + 1;
        if i >= |env.repoPages| || env.repoPages[i].RepoPageError? {
          return sent, Some(ListReposError);
        }
        sent, waits, err := CollectPage(env, env.repoPages[i].names, sent, waits);
        if err.Some? || env.repoPages[i].nextPage == 0 {
          return;
        }
        i := i + 1;
      }
    }
  }

  /** One step of the scan from position i. */
  lemma ScanUnfold(org: string, s: seq<GhEvent>, i: nat, cursor: string, cutoff: int, found: bool)
    requires i < |s|
    ensures Scan(org, s[i..], cursor, cutoff, found) ==
      if s[i].id == cursor then Scan(org, s[i + 1..], cursor, cutoff, true)
      else if found then Scan(org, s[i + 1..], cursor, cutoff, found)
      else if s[i].createdAt < cutoff then []
      else ConvertedOne(org, s[i]) + Scan(org, s[i + 1..], cursor, cutoff, false)
  {
    assert s[i..][0] == s[i] && s[i..][1..] == s[i + 1..];
  }

  lemma PrefixOfConcat<T>(a: seq<T>, b: seq<T>)
    ensures (a + b)[..|a|] == a
  {
  }
}
