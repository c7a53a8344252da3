/**
 * The per-repository cursor store of the collector: EventTracker maps a
 * repository name to a RepoState object that holds the last seen event ID.
 * Entries are created on first access and never removed.
 */
module Tracker {

  /** RepoState: one repository's last seen event ID ("" until the first update). */
  class RepoState {
    var lastEventID: string

    constructor ()
      ensures lastEventID == ""
    {
      lastEventID := "";
    }

    method Update(id: string)
      modifies this
      ensures lastEventID == id
    {
      lastEventID := id;
    }

    method Get() returns (id: string)
      ensures id == lastEventID
    {
      id := lastEventID;
    }
  }

  /** The cursor a map holds for a repository, "" for an unseen one. */
  function Cursor(cursors: map<string, string>, repo: string): (id: string)
    ensures repo !in cursors ==> id == ""
  {
    if repo in cursors then cursors[repo] else ""
  }

  /** The map after a lazy read of repo: an unseen repository gets an empty entry. */
  function Touch(cursors: map<string, string>, repo: string): (m: map<string, string>)
    ensures m.Keys == cursors.Keys + {repo}
    ensures m[repo] == Cursor(cursors, repo)
    ensures forall r :: r in cursors ==> m[r] == cursors[r]
  {
    if repo in cursors then cursors else cursors[repo := ""]
  }

  class EventTracker {
    var repos: map<string, RepoState>
    ghost var Repr: set<object>

    /** Every state is owned by the tracker and no two repositories share one. */
    ghost predicate Valid()
      reads this, Repr
    {
      && this in Repr
      && (forall r | r in repos :: repos[r] in Repr)
      && (forall r, q | r in repos && q in repos && r != q :: repos[r] != repos[q])
    }

    /** The abstract value: each known repository's last seen event ID. */
    ghost function Cursors(): (m: map<string, string>)
      requires Valid()
      reads this, Repr
      ensures m.Keys == repos.Keys
    {
      map r | r in repos :: repos[r].lastEventID
    }

    constructor ()
      ensures Valid() && fresh(Repr) && Cursors() == map[]
    {
      repos := map[];
      Repr := {this};
    }

    /**
     * GetLastEventID: the stored ID, or "" for an unseen repository, whose
     * entry is created by the read. No stored value changes.
     */
    method GetLastEventID(repo: string) returns (id: string)
      requires Valid()
      modifies this
      ensures Valid() && fresh(Repr - old(Repr))
      ensures Cursors() == Touch(old(Cursors()), repo)
      ensures id == Cursor(old(Cursors()), repo)
    {
      var state: RepoState;
      if repo in repos {
        state := repos[repo];
      } else {
        state := new RepoState();
        repos := repos[repo := state];
        Repr := Repr + {state};
      }
      id := state.Get();
    }

    /**
     * UpdateLastEventID: creates the entry when the repository is unseen, then
     * sets it; every other repository keeps its value.
     */
    method UpdateLastEventID(repo: string, id: string)
      requires Valid()
      modifies Repr
      ensures Valid() && fresh(Repr - old(Repr))
      ensures Cursors() == old(Cursors())[repo := id]
    {
      var state: RepoState;
      if repo in repos {
        state := repos[repo];
      } else {
        state := new RepoState();
        repos := repos[repo := state];
        Repr := Repr + {state};
      }
      state.Update(id);
    }
  }

  // ---------------------------------------------------------------------------
  // What the two operations promise, stated on the abstract map

  /** A read of an unseen repository returns "" and adds exactly that key. */
  lemma ReadOfUnseenRepo(cursors: map<string, string>, repo: string)
    requires repo !in cursors
    ensures Cursor(cursors, repo) == ""
    ensures Touch(cursors, repo).Keys == cursors.Keys + {repo}
    ensures Touch(cursors, repo)[repo] == ""
  {
  }

  /** A read never changes a stored value, and a second read returns the same. */
  lemma ReadKeepsValues(cursors: map<string, string>, repo: string)
    ensures forall r :: r in cursors ==> Cursor(Touch(cursors, repo), r) == Cursor(cursors, r)
    ensures Cursor(Touch(cursors, repo), repo) == Cursor(cursors, repo)
    ensures Touch(Touch(cursors, repo), repo) == Touch(cursors, repo)
  {
  }

  /** After an update the repository reads back the new ID; every other repository is untouched. */
  lemma UpdateThenRead(cursors: map<string, string>, repo: string, id: string, other: string)
    requires other != repo
    ensures Cursor(cursors[repo := id], repo) == id
    ensures Cursor(cursors[repo := id], other) == Cursor(cursors, other)
    ensures Touch(cursors[repo := id], repo) == cursors[repo := id]
  {
  }

  /** Two updates of the same repository: the latest wins. */
  lemma LatestUpdateWins(cursors: map<string, string>, repo: string, first: string, second: string)
    ensures cursors[repo := first][repo := second] == cursors[repo := second]
  {
  }

  /** Neither operation removes a key: the key set only grows. */
  lemma KeysOnlyGrow(cursors: map<string, string>, repo: string, id: string)
    ensures cursors.Keys <= Touch(cursors, repo).Keys
    ensures cursors.Keys <= cursors[repo := id].Keys
  {
  }
}
