/** The Dolt remote that lives inside the beads worktree, and the recovery directory it is moved to while the
    worktree is rebuilt. Every filesystem step is recorded, so a crash is a run cut off after any of them. */
module StagedRemote {
  import opened Wrappers

  datatype Phase = Checking | Pruning | Staging | Recreating | Restoring | Syncing

  datatype Error = Failed(at: Phase) | StagedRemoteExists | RecoveryRestore(recovery: Error, restore: Error)

  /** What is pushed to a remote is appended to its history. */
  datatype Remote = Remote(history: seq<nat>)

  /** The worktree directory, which may hold `.beads/dolt-remote`. */
  datatype Tree = Tree(remote: Option<Remote>)

  datatype State = State(worktree: Option<Tree>, recovery: Option<Remote>)

  /** The remote in the worktree. */
  function Home(s: State): Option<Remote> {
    if s.worktree.Some? then s.worktree.value.remote else None
  }

  /** The remote that counts: the staged one if there is one, otherwise the one in the worktree. */
  function Valued(s: State): Option<Remote> {
    if s.recovery.Some? then s.recovery else Home(s)
  }

  // ---------- What a run may do to the remote ----------

  /** The valued remote is untouched. */
  predicate Same(a: State, b: State) {
    Valued(a).Some? ==> Valued(b) == Valued(a)
  }

  /** The valued remote has lost nothing. */
  predicate Keeps(a: State, b: State) {
    Valued(a).Some? ==> Valued(b).Some? && Valued(a).value.history <= Valued(b).value.history
  }

  /** `after` continues `before` with states that all leave the valued remote alone. */
  predicate Steady(before: seq<State>, after: seq<State>) {
    && 0 < |before| <= |after|
    && before == after[..|before|]
    && forall k :: |before| <= k < |after| ==> Same(before[|before| - 1], after[k])
  }

  /** `trail` never loses anything from one state to the next. */
  predicate Guarded(trail: seq<State>) {
    forall k :: 0 <= k < |trail| - 1 ==> Keeps(trail[k], trail[k + 1])
  }

  lemma SteadyThen(a: seq<State>, b: seq<State>, c: seq<State>)
    requires Steady(a, b) && Steady(b, c)
    ensures Steady(a, c)
  {
    forall k | |a| <= k < |c| ensures Same(a[|a| - 1], c[k]) {
      if k < |b| { assert c[k] == b[k]; }
    }
  }

  lemma {:induction false} NeverLoses(trail: seq<State>, i: nat, j: nat)
    requires Guarded(trail) && i <= j < |trail|
    ensures Keeps(trail[i], trail[j])
    decreases j
  {
    if i < j {
      NeverLoses(trail, i, j - 1);
      assert Keeps(trail[j - 1], trail[j - 1 + 1]);
    }
  }

  /** A run cut off anywhere has lost nothing either. */
  lemma CutOff(trail: seq<State>, n: nat)
    requires Guarded(trail) && n <= |trail|
    ensures Guarded(trail[..n])
  {
    forall k | 0 <= k < n - 1 ensures Keeps(trail[..n][k], trail[..n][k + 1]) {
      assert Keeps(trail[k], trail[k + 1]);
    }
  }

  /** No result of a restoration that itself went wrong. */
  predicate Settled<T>(r: Result<T, Error>) {
    r.Ok? || (r.error != Failed(Restoring) && !r.error.RecoveryRestore?)
  }

  // ---------- The filesystem and the push ----------

  /** Which of a function's path checks and filesystem calls succeed. */
  datatype Io = Io(checked: bool, removed: bool, created: bool, moved: bool)

  /** What Git answers: whether the worktree is one, which branches there are, whether adding it succeeds. */
  datatype Git = Git(inside: bool, pruned: bool, branch: bool, onOrigin: bool, added: bool)

  datatype World = World(checked: bool, git: Git, stage: Io, recreate: Io, restore: Io)

  /** Recreation goes through: its checks, its removal of a worktree that is there, and adding one if there is a
      branch to add. */
  predicate Recreates(w: World, had: bool) {
    && w.recreate.checked
    && (had ==> w.recreate.removed)
    && (w.git.branch || w.git.onOrigin ==> w.git.added)
  }

  /** All that is published, in order. */
  function Flat(batches: seq<seq<nat>>): seq<nat> {
    if batches == [] then [] else Flat(batches[..|batches| - 1]) + batches[|batches| - 1]
  }

  predicate Fine(io: Io) {
    io.checked && io.removed && io.created && io.moved
  }

  predicate AllFine(w: World) {
    w.checked && w.git.pruned && w.git.added && Fine(w.stage) && Fine(w.recreate) && Fine(w.restore)
  }

  class Disk {
    var worktree: Option<Tree>
    var recovery: Option<Remote>
    /** Every state so far, for crashes to cut back to. */
    var trail: seq<State>

    function Now(): State
      reads this
    {
      State(worktree, recovery)
    }

    ghost predicate Valid()
      reads this
    {
      trail != [] && trail[|trail| - 1] == Now() && Guarded(trail)
    }

    constructor (tree: Option<Tree>, staged: Option<Remote>)
      ensures Valid() && Now() == State(tree, staged) && trail == [Now()]
    {
      worktree, recovery, trail := tree, staged, [State(tree, staged)];
    }

    /** One filesystem step: the disk is as given from here on. */
    method Step(tree: Option<Tree>, staged: Option<Remote>)
      requires Valid() && Keeps(Now(), State(tree, staged))
      modifies this
      ensures Valid() && Now() == State(tree, staged)
      ensures trail == old(trail) + [Now()]
      ensures old(Same(Now(), State(tree, staged))) ==> Steady(old(trail), trail)
    {
      worktree, recovery := tree, staged;
      trail := trail + [Now()];
    }

    /** Empties a directory holding no valued remote; it may fail with any part of it gone. */
    method RemoveRemote(ok: bool)
      requires Valid() && worktree.Some? && recovery.Some?
      modifies this
      ensures Valid() && Steady(old(trail), trail)
      ensures recovery == old(recovery) && worktree.Some?
      ensures ok ==> Home(Now()) == None
    {
      var steps :| 0 <= steps;
      for i := 0 to steps
        invariant Valid() && Steady(old(trail), trail)
        invariant recovery == old(recovery) && worktree.Some?
      {
        var rest: Remote := *;
        ghost var before := trail;
        Step(Some(Tree(Some(rest))), recovery);
        SteadyThen(old(trail), before, trail);
      }
      if ok {
        ghost var before := trail;
        Step(Some(Tree(None)), recovery);
        SteadyThen(old(trail), before, trail);
      }
    }

    /** Moves a staged remote back, replacing whatever is in its place. */
    method Restore(io: Io) returns (r: Result<(), Error>)
      requires Valid()
      modifies this
      ensures Valid() && Steady(old(trail), trail)
      ensures r.Ok? ==> recovery == None && Home(Now()) == Valued(old(Now()))
      ensures r.Ok? && old(recovery) == None ==> Now() == old(Now())
      ensures r.Err? ==> r.error == Failed(Restoring)
      ensures r.Ok? <==>
        && io.checked
        && (old(recovery).Some? ==> (old(Home(Now())).Some? ==> io.removed) && io.created && io.moved)
    {
      if !io.checked { return Err(Failed(Restoring)); }
      if recovery == None { return Ok(()); }
      if worktree.Some? && worktree.value.remote.Some? {
        RemoveRemote(io.removed);
        if !io.removed { return Err(Failed(Restoring)); }
      }
      ghost var before := trail;
      if !io.created { return Err(Failed(Restoring)); }
      Step(Some(Tree(None)), recovery);
      SteadyThen(old(trail), before, trail);
      before := trail;
      if !io.moved { return Err(Failed(Restoring)); }
      Step(Some(Tree(recovery)), None);
      SteadyThen(old(trail), before, trail);
      r := Ok(());
    }

    /** Moves the worktree's remote out of the way. */
    method Stage(io: Io) returns (r: Result<bool, Error>)
      requires Valid()
      modifies this
      ensures Valid() && Steady(old(trail), trail)
      ensures r.Ok? ==> Home(Now()) == None && r.value == old(Home(Now())).Some?
      ensures r.Ok? && r.value ==> recovery == old(Home(Now()))
      ensures r.Err? || !r.value ==> Now() == old(Now())
      ensures worktree.Some? == old(worktree).Some?
      ensures r.Err? ==> r.error in {Failed(Staging), StagedRemoteExists}
      ensures r == Err(StagedRemoteExists) <==> io.checked && old(recovery).Some? && old(Home(Now())).Some?
      ensures r.Ok? <==> io.checked && (old(Home(Now())).Some? ==> old(recovery) == None && io.moved)
    {
      if !io.checked { return Err(Failed(Staging)); }
      if worktree == None || worktree.value.remote == None { return Ok(false); }
      if recovery.Some? { return Err(StagedRemoteExists); }
      if !io.moved { return Err(Failed(Staging)); }
      Step(Some(Tree(None)), worktree.value.remote);
      r := Ok(true);
    }

    /** Removes the worktree and checks it out again, from the branch or from the origin's. Git may leave any tree
        behind, with or without a remote of its own; without either branch there is nothing to check out. */
    method Recreate(io: Io, git: Git) returns (r: Result<bool, Error>)
      requires Valid() && Home(Now()) == None
      modifies this
      ensures Valid() && Steady(old(trail), trail)
      ensures recovery == old(recovery)
      ensures r.Err? ==> r.error == Failed(Recreating)
      ensures r.Ok? ==> r.value == worktree.Some? == (git.branch || git.onOrigin)
      ensures r.Ok? <==>
        io.checked && (old(worktree).Some? ==> io.removed) && (git.branch || git.onOrigin ==> git.added)
    {
      if !io.checked { return Err(Failed(Recreating)); }
      ghost var before := trail;
      if worktree.Some? {
        if !io.removed { return Err(Failed(Recreating)); }
        Step(None, recovery);
        SteadyThen(old(trail), before, trail);
        before := trail;
      }
      if !git.branch && !git.onOrigin { return Ok(false); }
      var tree: Option<Tree> := *;
      Step(tree, recovery);
      SteadyThen(old(trail), before, trail);
      before := trail;
      if !git.added { return Err(Failed(Recreating)); }
      var checkedOut: Tree := *;
      if tree.Some? { checkedOut := tree.value; }
      Step(Some(checkedOut), recovery);
      SteadyThen(old(trail), before, trail);
      r := Ok(true);
    }

    /** Makes sure there is a worktree, carrying the remote over a recreation. */
    method Ensure(w: World) returns (r: Result<bool, Error>)
      requires Valid()
      modifies this
      ensures Valid() && Steady(old(trail), trail)
      ensures old(recovery) == None && Settled(r) ==>
        recovery == None && (old(Home(Now())).Some? ==> Home(Now()) == old(Home(Now())))
      ensures r == Err(StagedRemoteExists) ==> old(recovery).Some? && old(Home(Now())).Some?
      ensures r.Ok? && r.value ==> worktree.Some?
      ensures AllFine(w) && old(recovery) == None ==>
        r.Ok? && r.value == ((old(worktree).Some? && w.git.inside) || w.git.branch || w.git.onOrigin)
      ensures w.checked && old(worktree).Some? && w.git.inside ==> Now() == old(Now())
      ensures r.Ok? ==>
        var early := old(worktree).Some? && w.git.inside;
        && w.checked && r.value == (early || w.git.branch || w.git.onOrigin)
        && (early || ((old(worktree).Some? ==> w.git.pruned) && Recreates(w, old(worktree).Some?)))
      ensures r == Err(Failed(Recreating)) ==> !Recreates(w, old(worktree).Some?)
      ensures r == Err(Failed(Restoring)) ==> Recreates(w, old(worktree).Some?)
      ensures r.Err? && r.error.RecoveryRestore? ==>
        r.error == RecoveryRestore(Failed(Recreating), Failed(Restoring)) && !Recreates(w, old(worktree).Some?)
    {
      if !w.checked { return Err(Failed(Checking)); }
      if worktree.Some? && w.git.inside { return Ok(true); }
      if worktree.Some? && !w.git.pruned { return Err(Failed(Pruning)); }
      var staged := Stage(w.stage);
      if staged.Err? { return Err(staged.error); }
      ghost var before := trail;
      var recreated := Recreate(w.recreate, w.git);
      SteadyThen(old(trail), before, trail);
      if !staged.value { return recreated; }
      before := trail;
      var restored := Restore(w.restore);
      SteadyThen(old(trail), before, trail);
      r := match (recreated, restored)
        case (Ok(made), Ok(_)) => Ok(made)
        case (Err(e), Ok(_)) => Err(e)
        case (Ok(_), Err(e)) => Err(e)
        case (Err(e), Err(f)) => Err(RecoveryRestore(e, f));
    }

    /** Publishing appends to the worktree's remote, if there is one, batch by batch. */
    method Sync(batches: seq<seq<nat>>)
      requires Valid() && recovery == None
      modifies this
      ensures Valid() && recovery == None
      ensures |old(trail)| <= |trail| && old(trail) == trail[..|old(trail)|]
      ensures Home(Now()) == match old(Home(Now()))
                             case None => None
                             case Some(remote) => Some(Remote(remote.history + Flat(batches)))
    {
      ghost var before := Home(Now());
      if worktree.Some? && worktree.value.remote.Some? {
        assert batches[..0] == [] && before.value.history + [] == before.value.history;
        for i := 0 to |batches|
          invariant Valid() && recovery == None
          invariant |old(trail)| <= |trail| && old(trail) == trail[..|old(trail)|]
          invariant Home(Now()) == Some(Remote(before.value.history + Flat(batches[..i])))
        {
          var history := worktree.value.remote.value.history;
          assert batches[..i + 1][..i] == batches[..i];
          assert history + batches[i] == before.value.history + (Flat(batches[..i]) + batches[i]);
          Step(Some(Tree(Some(Remote(history + batches[i])))), None);
        }
        assert batches[..|batches|] == batches;
      }
    }

    /** Restore what an earlier run left staged, publish, and make sure of the worktree. */
    method Push(first: Io, published: seq<seq<nat>>, synced: bool, w: World) returns (r: Result<bool, Error>)
      requires Valid()
      modifies this
      ensures Valid()
      ensures |old(trail)| <= |trail| && old(trail) == trail[..|old(trail)|]
      ensures r != Err(StagedRemoteExists)
      ensures r.Ok? ==> recovery == None
      ensures Fine(first) && synced && AllFine(w) ==> r.Ok?
      ensures r.Ok? && old(Valued(Now())).Some? ==>
        Home(Now()) == Valued(Now()) == Some(Remote(old(Valued(Now())).value.history + Flat(published)))
    {
      var restored := Restore(first);
      if restored.Err? { return Err(restored.error); }
      Sync(published);
      if !synced { return Err(Failed(Syncing)); }
      r := Ensure(w);
    }

    /** Any number of pushes, each but the last cut off after any of its steps. Whatever was in the valued remote at
        one point of the run is in it at every later one. */
    method CrashingRuns(n: nat, first: Io, published: seq<seq<nat>>, synced: bool, w: World)
      returns (last: Result<bool, Error>)
      requires Valid()
      modifies this
      ensures Valid() && last != Err(StagedRemoteExists)
      ensures Fine(first) && synced && AllFine(w) ==> last.Ok? && recovery == None && Keeps(old(Now()), Now())
      ensures forall i, j :: 0 <= i <= j < |trail| ==> Keeps(trail[i], trail[j])
    {
      for i := 0 to n
        invariant Valid() && |old(trail)| <= |trail| && old(trail) == trail[..|old(trail)|]
      {
        var from := |trail|;
        var first: Io, published: seq<seq<nat>>, synced: bool, w: World := *, *, *, *;
        var _ := Push(first, published, synced, w);
        CrashAfter(from);
      }
      ghost var here := |old(trail)| - 1;
      last := Push(first, published, synced, w);
      assert trail[here] == old(trail)[here];
      forall i: nat, j: nat | i <= j < |trail| ensures Keeps(trail[i], trail[j]) {
        NeverLoses(trail, i, j);
      }
    }

    /** The run stops after one of the steps since `from`; the disk stays as that step left it. */
    method CrashAfter(from: nat)
      requires Valid() && 0 < from <= |trail|
      modifies this
      ensures Valid() && from <= |trail| <= |old(trail)| && trail == old(trail)[..|trail|]
    {
      var at :| from <= at <= |trail|;
      CutOff(trail, at);
      trail := trail[..at];
      worktree, recovery := trail[at - 1].worktree, trail[at - 1].recovery;
    }
  }
}
