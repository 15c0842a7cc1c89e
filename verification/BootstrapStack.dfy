/** Materializing and verifying the sibling repository stack (`bootstrap_stack.py`). */
module BootstrapStack {
  import opened Wrappers
  import opened Remotes

  /** What the lock file asks for. */
  datatype Locked = Locked(name: string, path: string, url: string, revision: string)

  /** A checked-out repository: its origin, its HEAD and whether `git status` reports anything. */
  datatype Repo = Repo(origin: string, head: string, dirty: bool)

  type Tree = map<string, Repo>

  datatype Failure = CommandFailed | WrongRemote | WrongHead | DirtyWorktree | Missing

  predicate SameRemote(repo: Repo, locked: Locked) {
    RemoteIdentity(repo.origin) == RemoteIdentity(locked.url)
  }

  /** What `verify` checks. */
  predicate Verified(t: Tree, locked: Locked) {
    locked.path in t && SameRemote(t[locked.path], locked) && t[locked.path].head == locked.revision
  }

  /** What `materialize` leaves when every git command it runs succeeds. */
  function Step(t: Tree, locked: Locked, repair: bool): Result<Tree, Failure> {
    if locked.path !in t then Ok(t[locked.path := Repo(locked.url, locked.revision, false)])
    else
      var repo := t[locked.path];
      if !SameRemote(repo, locked) then Err(WrongRemote)
      else if repo.head == locked.revision then Ok(t)
      else if !repair then Err(WrongHead)
      else if repo.dirty then Err(DirtyWorktree)
      else Ok(t[locked.path := repo.(head := locked.revision)])
  }

  function Run(t: Tree, lock: seq<Locked>, repair: bool): Result<Tree, Failure>
    decreases |lock|
  {
    if lock == [] then Ok(t)
    else match Step(t, lock[0], repair)
      case Ok(next) => Run(next, lock[1..], repair)
      case Err(e) => Err(e)
  }

  /** A repository that was there at the start: at its own HEAD, or moved, from clean, to a locked revision. */
  ghost predicate Respected(before: Tree, now: Tree, lock: seq<Locked>, repair: bool) {
    forall path :: path in before ==>
      && path in now
      && now[path].origin == before[path].origin
      && (now[path] == before[path]
          || (repair && !before[path].dirty && !now[path].dirty
              && exists locked :: locked in lock && locked.path == path && now[path].head == locked.revision))
  }

  /** What a verification holds against a repository. */
  predicate Blamed(t: Tree, locked: Locked, failure: Failure) {
    match failure
    case Missing => locked.path !in t
    case WrongRemote => locked.path in t && !SameRemote(t[locked.path], locked)
    case WrongHead =>
      locked.path in t && SameRemote(t[locked.path], locked) && t[locked.path].head != locked.revision
    case _ => false
  }

  /** The failure is that of the first repository that does not verify. */
  ghost predicate FirstBlamed(t: Tree, lock: seq<Locked>, failure: Failure) {
    exists i :: 0 <= i < |lock| && Blamed(t, lock[i], failure) && forall k :: 0 <= k < i ==> Verified(t, lock[k])
  }

  class Workspace {
    var tree: Tree
    /** Every state the workspace went through, in order. */
    ghost var trace: seq<Tree>

    /** Whether a git command has failed in this run. */
    ghost var broken: bool

    ghost method Record()
      modifies this`trace
      ensures trace == old(trace) + [tree]
    {
      trace := trace + [tree];
    }

    /** A git query, which may fail. */
    method Query() returns (ok: bool)
      modifies this`broken
      ensures broken == (old(broken) || !ok)
    {
      ok := *;
      broken := broken || !ok;
    }

    /** `git clone --no-checkout`: the remote's default HEAD and an empty work tree. */
    method Clone(locked: Locked) returns (ok: bool, defaultHead: string)
      requires locked.path !in tree
      modifies this
      ensures ok ==> tree == old(tree)[locked.path := Repo(locked.url, defaultHead, true)]
      ensures ok ==> trace == old(trace) + [tree]
      ensures !ok ==> tree == old(tree) && trace == old(trace)
      ensures broken == (old(broken) || !ok)
    {
      ok := Query();
      defaultHead := *;
      if ok {
        tree := tree[locked.path := Repo(locked.url, defaultHead, true)];
        Record();
      }
    }

    /** `git checkout --detach`: HEAD moves, or nothing happens. */
    method Checkout(locked: Locked) returns (ok: bool)
      requires locked.path in tree
      modifies this
      ensures ok ==> tree == old(tree)[locked.path := old(tree)[locked.path].(head := locked.revision, dirty := false)]
      ensures ok ==> trace == old(trace) + [tree]
      ensures !ok ==> tree == old(tree) && trace == old(trace)
      ensures broken == (old(broken) || !ok)
    {
      ok := Query();
      if ok {
        tree := tree[locked.path := tree[locked.path].(head := locked.revision, dirty := false)];
        Record();
      }
    }

    /**
     * `materialize`: clone what is missing; otherwise check the remote and the HEAD, and move a
     * clean repository only when asked to.
     */
    method Materialize(locked: Locked, repair: bool) returns (r: Result<(), Failure>)
      modifies this
      ensures old(trace) <= trace
      ensures r.Ok? ==> Step(old(tree), locked, repair) == Ok(tree)
      ensures r.Err? && r.error != CommandFailed ==> Step(old(tree), locked, repair) == Err(r.error)
      ensures broken == (old(broken) || r == Err(CommandFailed))
      ensures Respected(old(tree), tree, [locked], repair)
      ensures forall k :: |old(trace)| <= k < |trace| ==> Respected(old(tree), trace[k], [locked], repair)
    {
      if locked.path !in tree {
        var cloned, defaultHead := Clone(locked);
        if !cloned {
          return Err(CommandFailed);
        }
        var selected := Checkout(locked);
        assert selected ==> tree == old(tree)[locked.path := Repo(locked.url, locked.revision, false)];
        return if selected then Ok(()) else Err(CommandFailed);
      }
      var queried := Query();
      if !queried {
        return Err(CommandFailed);
      }
      if !SameRemote(tree[locked.path], locked) {
        return Err(WrongRemote);
      }
      if tree[locked.path].head == locked.revision {
        return Ok(());
      }
      if !repair {
        return Err(WrongHead);
      }
      if tree[locked.path].dirty {
        return Err(DirtyWorktree);
      }
      var fetched := Query();
      if !fetched {
        return Err(CommandFailed);
      }
      assert locked in [locked];
      var selected := Checkout(locked);
      return if selected then Ok(()) else Err(CommandFailed);
    }

    /** `verify`: either git query may fail; a refusal names what is wrong. */
    method Verify(locked: Locked) returns (r: Result<(), Failure>)
      modifies this`broken
      ensures r.Ok? ==> Verified(tree, locked)
      ensures r.Err? && r.error != CommandFailed ==> Blamed(tree, locked, r.error)
      ensures broken == (old(broken) || r == Err(CommandFailed))
    {
      if locked.path !in tree {
        return Err(Missing);
      }
      var named := Query();
      if !named {
        return Err(CommandFailed);
      }
      if !SameRemote(tree[locked.path], locked) {
        return Err(WrongRemote);
      }
      var parsed := Query();
      if !parsed {
        return Err(CommandFailed);
      }
      return if tree[locked.path].head == locked.revision then Ok(()) else Err(WrongHead);
    }

    /**
     * The loop of `main`: repositories in lock order, up to the first failure. Unless a git command
     * failed, what comes out is what the workspace and the lock decide.
     */
    method RunStack(lock: seq<Locked>, verifyOnly: bool, repair: bool) returns (r: Result<(), Failure>)
      modifies this
      ensures old(trace) <= trace
      ensures r == Err(CommandFailed) <==> broken
      ensures verifyOnly ==> tree == old(tree) && trace == old(trace)
      ensures verifyOnly && r.Ok? ==> AllVerified(tree, lock)
      ensures verifyOnly && r.Err? && !broken ==> FirstBlamed(tree, lock, r.error)
      ensures !verifyOnly && r.Ok? ==> Run(old(tree), lock, repair) == Ok(tree)
      ensures !verifyOnly && r.Err? && !broken ==> Run(old(tree), lock, repair) == Err(r.error)
      ensures Respected(old(tree), tree, lock, repair)
      ensures forall k :: |old(trace)| <= k < |trace| ==> Respected(old(tree), trace[k], lock, repair)
    {
      broken := false;
      ghost var start := tree;
      for i := 0 to |lock|
        invariant start == old(tree) && old(trace) <= trace && !broken
        invariant verifyOnly ==> tree == start && trace == old(trace)
        invariant verifyOnly ==> forall k :: 0 <= k < i ==> Verified(tree, lock[k])
        invariant !verifyOnly ==> Run(start, lock, repair) == Run(tree, lock[i..], repair)
        invariant Respected(start, tree, lock, repair)
        invariant forall k :: |old(trace)| <= k < |trace| ==> Respected(start, trace[k], lock, repair)
      {
        assert lock[i..][0] == lock[i] && lock[i..][1..] == lock[i + 1..];
        if verifyOnly {
          r := Verify(lock[i]);
        } else {
          ghost var tree0, trace0 := tree, trace;
          r := Materialize(lock[i], repair);
          RespectedStates(start, tree0, tree, trace, |trace0|, lock, lock[i], repair);
        }
        if r.Err? {
          return;
        }
      }
      return Ok(());
    }
  }

  lemma RespectedThen(before: Tree, mid: Tree, now: Tree, lock: seq<Locked>, locked: Locked, repair: bool)
    requires Respected(before, mid, lock, repair) && Respected(mid, now, [locked], repair) && locked in lock
    ensures Respected(before, now, lock, repair)
  {
    forall path | path in before
      ensures path in now && now[path].origin == before[path].origin
      ensures now[path] == before[path]
              || (repair && !before[path].dirty && !now[path].dirty
                  && exists locked :: locked in lock && locked.path == path && now[path].head == locked.revision)
    {
      assert path in mid;
    }
  }

  lemma RespectedStates(
    before: Tree, mid: Tree, now: Tree, states: seq<Tree>, from: nat, lock: seq<Locked>, locked: Locked, repair: bool)
    requires Respected(before, mid, lock, repair) && locked in lock
    requires Respected(mid, now, [locked], repair)
    requires forall k :: from <= k < |states| ==> Respected(mid, states[k], [locked], repair)
    ensures Respected(before, now, lock, repair)
    ensures forall k :: from <= k < |states| ==> Respected(before, states[k], lock, repair)
  {
    RespectedThen(before, mid, now, lock, locked, repair);
    forall k | from <= k < |states|
      ensures Respected(before, states[k], lock, repair)
    {
      RespectedThen(before, mid, states[k], lock, locked, repair);
    }
  }

  ghost predicate AllVerified(t: Tree, lock: seq<Locked>) {
    forall locked :: locked in lock ==> Verified(t, locked)
  }

  /** No path is locked at two revisions. */
  ghost predicate OneRevision(lock: seq<Locked>) {
    forall a, b :: a in lock && b in lock && a.path == b.path ==> a.revision == b.revision
  }

  /** No path is locked to two remotes. */
  ghost predicate OneRemote(lock: seq<Locked>) {
    forall a, b :: a in lock && b in lock && a.path == b.path ==> RemoteIdentity(a.url) == RemoteIdentity(b.url)
  }

  /** One step verifies its own repository and unsettles no other, nor one locked at the same revision. */
  lemma StepVerifies(t: Tree, locked: Locked, repair: bool, other: Locked)
    requires Step(t, locked, repair).Ok?
    ensures Verified(Step(t, locked, repair).value, locked)
    ensures Verified(t, other) && (other.path == locked.path && repair ==> other.revision == locked.revision) ==>
              Verified(Step(t, locked, repair).value, other)
  {
  }

  lemma {:induction false} StaysVerified(t: Tree, lock: seq<Locked>, repair: bool, other: Locked)
    requires Run(t, lock, repair).Ok? && Verified(t, other)
    requires repair ==> forall a :: a in lock && a.path == other.path ==> a.revision == other.revision
    ensures Verified(Run(t, lock, repair).value, other)
    decreases |lock|
  {
    if lock != [] {
      StepVerifies(t, lock[0], repair, other);
      StaysVerified(Step(t, lock[0], repair).value, lock[1..], repair, other);
    }
  }

  /** What was materialized verifies: always without repair, and with it when no path has two revisions. */
  lemma {:induction false} MaterializedVerifies(t: Tree, lock: seq<Locked>, repair: bool)
    requires Run(t, lock, repair).Ok? && (repair ==> OneRevision(lock))
    ensures AllVerified(Run(t, lock, repair).value, lock)
    decreases |lock|
  {
    if lock != [] {
      var next := Step(t, lock[0], repair).value;
      assert forall locked :: locked in lock[1..] ==> locked in lock;
      StepVerifies(t, lock[0], repair, lock[0]);
      StaysVerified(next, lock[1..], repair, lock[0]);
      MaterializedVerifies(next, lock[1..], repair);
      assert lock == [lock[0]] + lock[1..];
    }
  }

  /** Origins never change and every one is checked, so a finished run rules out two remotes for a path. */
  lemma {:induction false} RunChecksRemotes(t: Tree, lock: seq<Locked>, repair: bool, path: string)
    requires Run(t, lock, repair).Ok?
    ensures path in t ==>
              path in Run(t, lock, repair).value && Run(t, lock, repair).value[path].origin == t[path].origin
    ensures forall a :: a in lock && a.path == path ==>
              path in Run(t, lock, repair).value && SameRemote(Run(t, lock, repair).value[path], a)
    decreases |lock|
  {
    if lock != [] {
      RunChecksRemotes(Step(t, lock[0], repair).value, lock[1..], repair, path);
      assert lock == [lock[0]] + lock[1..];
    }
  }

  /** A workspace no repository of which stands in the way: right remotes, clean work trees. */
  ghost predicate Ready(t: Tree, lock: seq<Locked>) {
    && (forall path :: path in t ==> !t[path].dirty)
    && (forall a :: a in lock && a.path in t ==> SameRemote(t[a.path], a))
  }

  lemma TailIn(lock: seq<Locked>)
    requires lock != []
    ensures forall a :: a in lock <==> a == lock[0] || a in lock[1..]
  {
    assert lock == [lock[0]] + lock[1..];
  }

  lemma ReadyStep(t: Tree, first: Locked, rest: seq<Locked>)
    requires Ready(t, rest) && !(first.path in t && t[first.path].dirty)
    requires first.path in t ==> SameRemote(t[first.path], first)
    requires forall a :: a in rest && a.path == first.path ==> RemoteIdentity(a.url) == RemoteIdentity(first.url)
    ensures Step(t, first, true).Ok? && Ready(Step(t, first, true).value, rest)
  {
  }

  lemma {:induction false} ReadyRuns(t: Tree, lock: seq<Locked>)
    requires Ready(t, lock) && OneRemote(lock)
    ensures Run(t, lock, true).Ok?
    decreases |lock|
  {
    if lock != [] {
      TailIn(lock);
      ReadyStep(t, lock[0], lock[1..]);
      ReadyRuns(Step(t, lock[0], true).value, lock[1..]);
    }
  }

  /** A stack that verifies is left alone and never refused, with repair or without. */
  lemma {:induction false} VerifiedRuns(t: Tree, lock: seq<Locked>, repair: bool)
    requires AllVerified(t, lock)
    ensures Run(t, lock, repair) == Ok(t)
    decreases |lock|
  {
    if lock != [] {
      TailIn(lock);
      assert Verified(t, lock[0]) && Step(t, lock[0], repair) == Ok(t);
      VerifiedRuns(t, lock[1..], repair);
    }
  }

  /** A single repository: what is done to it, and when it is refused. */
  lemma StepTable(t: Tree, locked: Locked, repair: bool)
    ensures var r := Step(t, locked, repair);
            if locked.path !in t then
              r == Ok(t[locked.path := Repo(locked.url, locked.revision, false)])
            else if RemoteIdentity(t[locked.path].origin) != RemoteIdentity(locked.url) then
              r == Err(WrongRemote)
            else
              && (r == Ok(t) <==> t[locked.path].head == locked.revision)
              && (r == Err(WrongHead) <==> t[locked.path].head != locked.revision && !repair)
              && (r == Err(DirtyWorktree) <==>
                    t[locked.path].head != locked.revision && repair && t[locked.path].dirty)
  {
    if locked.path in t && t[locked.path].head != locked.revision {
      var moved := t[locked.path := t[locked.path].(head := locked.revision)];
      assert moved[locked.path] != t[locked.path];
    }
  }

  /** From any workspace, a run that succeeds leaves a stack that verifies. */
  ghost predicate Dependable(lock: seq<Locked>, repair: bool) {
    forall t :: Run(t, lock, repair).Ok? ==> AllVerified(Run(t, lock, repair).value, lock)
  }

  /**
   * Success implies verification exactly when repair is off, or no path is locked at two
   * revisions, or some path is locked to two remotes (and no run succeeds). Distinct paths are
   * therefore enough.
   */
  lemma DependableIff(lock: seq<Locked>, repair: bool)
    ensures Dependable(lock, repair) <==> !repair || OneRevision(lock) || !OneRemote(lock)
  {
    if !repair || OneRevision(lock) || !OneRemote(lock) {
      forall t | Run(t, lock, repair).Ok?
        ensures AllVerified(Run(t, lock, repair).value, lock)
      {
        forall a, b | a in lock && b in lock && a.path == b.path
          ensures RemoteIdentity(a.url) == RemoteIdentity(b.url)
        {
          RunChecksRemotes(t, lock, repair, a.path);
        }
        MaterializedVerifies(t, lock, repair);
      }
    } else {
      ReadyRuns(map[], lock);
      var final := Run(map[], lock, true).value;
      var a, b :| a in lock && b in lock && a.path == b.path && a.revision != b.revision;
      assert !(Verified(final, a) && Verified(final, b));
    }
  }
}
