/**
 * Worked cycles of the collector: a cursor in the middle of the listing, a
 * first cycle with no cursor, and a limiter that runs dry in the middle of
 * the event walk.
 */
module CollectorScenarios {
  import opened Wrappers
  import opened Types
  import opened Collector

  const Now: int := 100 * Hour

  /** A convertible event of the tracked repository created at t. */
  function Ev(id: string, t: int): GhEvent
  {
    GhEvent(id, "PushEvent", t, TrackedRepo, "octocat", Some([1 as byte]))
  }

  /** One repository page naming only the tracked repository, one event page. */
  function OnePage(events: seq<GhEvent>, waitBudget: Option<nat>): Env
  {
    Env(Now, [RepoPage([TrackedRepo], 0)], [EventPage(events, 0)], waitBudget, None)
  }

  /**
   * A listing of one page that names only the tracked repository: the cycle
   * is that repository's collection after two limiter waits.
   */
  lemma OnlyTrackedRepoCycle(org: string, env: Env, cursors: map<string, string>)
    requires env.repoPages == [RepoPage([TrackedRepo], 0)] && WaitOk(env.waitBudget, 1)
    ensures Cycle(org, env, cursors) == CollectRepo(org, env, CycleState(cursors, [], 2), TrackedRepo)
  {
    var st1 := CycleState(cursors, [], 1);
    var names := [TrackedRepo];
    assert ReposFrom(org, env, names, 0, st1) == CollectRepo(org, env, st1.(waits := 2), TrackedRepo) by {
      match CollectRepo(org, env, st1.(waits := 2), TrackedRepo)
      case Abort(_, _) =>
      case Continue(s) => assert ReposFrom(org, env, names, 1, s) == Continue(s);
    }
    assert Cycle(org, env, cursors) == AfterPage(org, env, 0, ReposFrom(org, env, names, 0, st1));
  }

  /** A single event page with NextPage 0: one wait, everything accumulated, the head remembered. */
  lemma SinglePageWalk(env: Env, s: seq<GhEvent>, used: nat)
    requires env.eventPages == [EventPage(s, 0)] && |s| > 0 && WaitOk(env.waitBudget, used)
    ensures WalkFrom(env, 0, [], "", used) == Some(Walk(s, s[0].id, used + 1))
  {
    assert [] + s == s;
  }

  /** The scan of D, C, B, A with cursor B emits D and C. */
  lemma ScanResumes(org: string)
    ensures var s := [Ev("D", Now), Ev("C", Now - 1), Ev("B", Now - 2), Ev("A", Now - 3)];
      Scan(org, s, "B", Now - Window, false) == ConvertedOne(org, s[0]) + ConvertedOne(org, s[1])
  {
    var s := [Ev("D", Now), Ev("C", Now - 1), Ev("B", Now - 2), Ev("A", Now - 3)];
    var cutoff := Now - Window;
    assert s[1..] == [s[1], s[2], s[3]] && s[1..][1..] == [s[2], s[3]] && s[1..][1..][1..] == [s[3]];
    assert Scan(org, [s[3]], "B", cutoff, true) == [] by {
      assert [s[3]][1..] == [];
    }
    assert Scan(org, [s[2], s[3]], "B", cutoff, false) == [];
  }

  /** The scan of C, B, A with no cursor emits all three. */
  lemma ScanFromScratch(org: string)
    ensures var s := [Ev("C", Now), Ev("B", Now - 1), Ev("A", Now - 2)];
      Scan(org, s, "", Now - Window, false) == ConvertedOne(org, s[0]) + ConvertedOne(org, s[1]) + ConvertedOne(org, s[2])
  {
    var s := [Ev("C", Now), Ev("B", Now - 1), Ev("A", Now - 2)];
    var cutoff := Now - Window;
    assert s[1..] == [s[1], s[2]] && s[1..][1..] == [s[2]] && [s[2]][1..] == [];
    assert Scan(org, [s[2]], "", cutoff, false) == ConvertedOne(org, s[2]);
    assert Scan(org, [s[1], s[2]], "", cutoff, false) == ConvertedOne(org, s[1]) + ConvertedOne(org, s[2]);
  }

  /**
   * Newest first D, C, B, A with cursor B: D and C are sent, in that order,
   * B is skipped and everything after it too, and the cursor moves to D.
   */
  lemma ResumesAfterCursor()
    ensures var r := Cycle("acme", OnePage([Ev("D", Now), Ev("C", Now - 1), Ev("B", Now - 2), Ev("A", Now - 3)], None),
                           map[TrackedRepo := "B"]);
      && r.Continue?
      && r.st.cursors == map[TrackedRepo := "D"]
      && |r.st.sent| == 2 && r.st.sent[0].id == "D" && r.st.sent[1].id == "C"
  {
    var s := [Ev("D", Now), Ev("C", Now - 1), Ev("B", Now - 2), Ev("A", Now - 3)];
    var env := OnePage(s, None);
    OnlyTrackedRepoCycle("acme", env, map[TrackedRepo := "B"]);
    SinglePageWalk(env, s, 2);
    ScanResumes("acme");
  }

  /** A first cycle, with no cursor yet: all three fresh events are sent and the cursor becomes the newest. */
  lemma FirstCycleSendsEverythingFresh()
    ensures var r := Cycle("acme", OnePage([Ev("C", Now), Ev("B", Now - 1), Ev("A", Now - 2)], None), map[]);
      && r.Continue?
      && r.st.cursors == map[TrackedRepo := "C"]
      && |r.st.sent| == 3 && r.st.sent[0].id == "C" && r.st.sent[1].id == "B" && r.st.sent[2].id == "A"
  {
    var s := [Ev("C", Now), Ev("B", Now - 1), Ev("A", Now - 2)];
    var env := OnePage(s, None);
    OnlyTrackedRepoCycle("acme", env, map[]);
    SinglePageWalk(env, s, 2);
    ScanFromScratch("acme");
  }

  /**
   * Two waits are granted: the listing call and the repository; the wait
   * before the first event page fails and the cycle aborts with the
   * repository entry created, its cursor still empty, and nothing sent.
   */
  lemma LimiterAbortsInsideWalk()
    ensures var r := Cycle("acme", OnePage([Ev("C", Now)], Some(2)), map[]);
      && r == Abort(CycleState(map[TrackedRepo := ""], [], 2), LimiterError)
  {
    OnlyTrackedRepoCycle("acme", OnePage([Ev("C", Now)], Some(2)), map[]);
  }
}
