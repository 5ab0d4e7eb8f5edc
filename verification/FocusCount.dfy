/** The reference-counted focus registrations: a directory with one record file per file name, shared by every
    target with that name. Each create and remove holds the lock of its file throughout. A target is its bytes, one
    character each. */
module FocusCount {
  import opened Wrappers

  const MAX := 0xFFFF_FFFF_FFFF_FFFF

  // ---------- File names ----------

  predicate Digit(c: char) { '0' <= c <= '9' }

  predicate Safe(c: char) {
    'a' <= c <= 'z' || 'A' <= c <= 'Z' || Digit(c) || c == '_' || c == '-'
  }

  function Sanitized(target: string): string {
    seq(|target|, i requires 0 <= i < |target| => if Safe(target[i]) then target[i] else '-')
  }

  function FileName(target: string): string {
    Sanitized(target) + ".json"
  }

  predicate Digits(s: string) {
    s != "" && forall i :: 0 <= i < |s| ==> Digit(s[i])
  }

  predicate Session(s: string) {
    s != "" && forall i :: 0 <= i < |s| ==> ' ' <= s[i] && s[i] != '\U{7F}'
  }

  /** `session:window.pane`, cut at i and j. */
  predicate Cut(t: string, i: nat, j: nat)
    requires i < j < |t|
  {
    t[i] == ':' && t[j] == '.' && Session(t[..i]) && Digits(t[i + 1..j]) && Digits(t[j + 1..])
  }

  /** A tmux pane by its number or by its place. */
  predicate TmuxTarget(t: string) {
    (t != "" && t[0] == '%' && Digits(t[1..])) || exists i: nat, j: nat | i < j < |t| :: Cut(t, i, j)
  }

  predicate Dashed(c: char) { !Safe(c) || c == '-' }

  /** Two targets share a file exactly when they differ only in characters that a file name writes as a dash. */
  lemma SameFileExactly(a: string, b: string)
    ensures FileName(a) == FileName(b) <==>
      |a| == |b| && forall i :: 0 <= i < |a| ==> a[i] == b[i] || (Dashed(a[i]) && Dashed(b[i]))
  {
    if FileName(a) == FileName(b) {
      assert |a| + 5 == |FileName(a)| == |FileName(b)| == |b| + 5;
      forall i | 0 <= i < |a| ensures a[i] == b[i] || (Dashed(a[i]) && Dashed(b[i])) {
        assert FileName(a)[i] == Sanitized(a)[i] && FileName(b)[i] == Sanitized(b)[i];
      }
    }
    if |a| == |b| && forall i :: 0 <= i < |a| ==> a[i] == b[i] || (Dashed(a[i]) && Dashed(b[i])) {
      assert Sanitized(a) == Sanitized(b);
    }
  }

  // ---------- The records ----------

  /** A record keeps its target, its count and the terminal route once one is known. */
  datatype Record = Record(target: string, count: nat, route: Option<string>)

  type Directory = map<string, Record>

  function FileOf(files: Directory, target: string): Option<Record> {
    if FileName(target) in files then Some(files[FileName(target)]) else None
  }

  function Put(files: Directory, target: string, f: Option<Record>): Directory {
    if f.Some? then files[FileName(target) := f.value] else files - {FileName(target)}
  }

  datatype Created = Overflow | Written(record: Record)

  /** Creating: count up a record of the same target, replace one of another, start one otherwise; a route is
      filled in only where there is none. */
  function Create(f: Option<Record>, target: string, route: Option<string>): Created {
    if f.Some? && f.value.target == target && f.value.count == MAX then Overflow else
    var r := if f.Some? && f.value.target == target then f.value.(count := f.value.count + 1)
             else Record(target, 1, None);
    Written(if r.route == None then r.(route := route) else r)
  }

  /** Removing: leave an absent or foreign record alone, count down, and delete at the last. */
  function Remove(f: Option<Record>, target: string): Option<Record> {
    if f == None || f.value.target != target then f
    else if f.value.count > 1 then Some(f.value.(count := f.value.count - 1))
    else None
  }

  datatype Op = Add(target: string, route: Option<string>) | Drop(target: string)

  /** The files, and every registration created and not yet removed. */
  datatype State = State(files: Directory, live: multiset<string>)

  /** One locked operation; a drop of a registration nobody holds does not happen. */
  function Step(s: State, op: Op): State {
    var f := FileOf(s.files, op.target);
    match op
    case Add(target, route) =>
      (match Create(f, target, route)
       case Overflow => s
       case Written(r) => State(Put(s.files, target, Some(r)), s.live + multiset{target}))
    case Drop(target) =>
      if target in s.live then State(Put(s.files, target, Remove(f, target)), s.live - multiset{target}) else s
  }

  function Run(s: State, ops: seq<Op>): State
    decreases |ops|
  {
    if ops == [] then s else Run(Step(s, ops[0]), ops[1..])
  }

  class Registry {
    var files: Directory
    ghost var live: multiset<string>

    ghost function Value(): State
      reads this
    {
      State(files, live)
    }

    constructor ()
      ensures Value() == State(map[], multiset{})
    {
      files, live := map[], multiset{};
    }

    method Register(target: string, route: Option<string>) returns (ok: bool)
      modifies this
      ensures Value() == Step(old(Value()), Add(target, route))
      ensures ok == Create(FileOf(old(files), target), target, route).Written?
    {
      hide FileName;
      var name := FileName(target);
      var record := Record(target, 1, None);
      if name in files && files[name].target == target {
        record := files[name];
        if record.count == MAX { return false; }
        record := record.(count := record.count + 1);
      }
      if record.route == None { record := record.(route := route); }
      files := files[name := record];
      live := live + multiset{target};
      ok := true;
    }

    /** A registration is removed by its own holder, so it is live. */
    method Unregister(target: string)
      requires target in live
      modifies this
      ensures Value() == Step(old(Value()), Drop(target))
    {
      hide FileName;
      var name := FileName(target);
      if name in files && files[name].target == target {
        if files[name].count > 1 {
          files := files[name := files[name].(count := files[name].count - 1)];
        } else {
          files := files - {name};
        }
      }
      live := live - multiset{target};
      assert name !in old(files) ==> files - {name} == files;
    }
  }

  // ---------- Different names never meet ----------

  /** The two states agree on one file and the registrations that share it. */
  ghost predicate Agree(s: State, u: State, name: string) {
    && (name in s.files <==> name in u.files)
    && (name in s.files ==> s.files[name] == u.files[name])
    && (forall t :: FileName(t) == name ==> s.live[t] == u.live[t])
  }

  /** The operations on one file, in order. */
  function Named(ops: seq<Op>, name: string): seq<Op> {
    if ops == [] then []
    else (if FileName(ops[0].target) == name then [ops[0]] else []) + Named(ops[1..], name)
  }

  lemma StepAgrees(s: State, u: State, op: Op, name: string)
    requires Agree(s, u, name)
    ensures FileName(op.target) == name ==> Agree(Step(s, op), Step(u, op), name)
    ensures FileName(op.target) != name ==> Agree(Step(s, op), u, name)
  {
    hide FileName;
  }

  /** What becomes of one file does not depend on the operations on any other, however they are interleaved. */
  lemma {:induction false} NamesAreSeparate(s: State, u: State, ops: seq<Op>, name: string)
    requires Agree(s, u, name)
    ensures Agree(Run(s, ops), Run(u, Named(ops, name)), name)
    decreases |ops|
  {
    if ops != [] {
      var rest := Named(ops[1..], name);
      StepAgrees(s, u, ops[0], name);
      if FileName(ops[0].target) == name {
        NamesAreSeparate(Step(s, ops[0]), Step(u, ops[0]), ops[1..], name);
        assert Named(ops, name)[0] == ops[0] && Named(ops, name)[1..] == rest;
      } else {
        NamesAreSeparate(Step(s, ops[0]), u, ops[1..], name);
        assert Named(ops, name) == rest;
      }
    }
  }

  // ---------- Counting ----------

  predicate CountedAt(s: State, name: string) {
    name in s.files ==>
      && FileName(s.files[name].target) == name
      && 1 <= s.files[name].count <= s.live[s.files[name].target]
      && s.files[name].count <= MAX
  }

  predicate Counted(s: State) {
    forall name :: name in s.files ==> CountedAt(s, name)
  }

  lemma StepCountsAt(s: State, op: Op, name: string)
    requires CountedAt(s, name) && CountedAt(s, FileName(op.target))
    ensures CountedAt(Step(s, op), name)
  {
    hide FileName;
  }

  lemma StepCounts(s: State, op: Op)
    requires Counted(s)
    ensures Counted(Step(s, op))
  {
    forall name | name in Step(s, op).files ensures CountedAt(Step(s, op), name) {
      assert CountedAt(s, name) && CountedAt(s, FileName(op.target));
      hide Step, FileName;
      StepCountsAt(s, op, name);
    }
  }

  /** Under any interleaving, colliding targets included, every record counts at least one and at most the live
      registrations of its target. */
  lemma {:induction false} CountBounded(s: State, ops: seq<Op>)
    requires Counted(s)
    ensures Counted(Run(s, ops))
    decreases |ops|
  {
    hide Step, Counted;
    if ops != [] {
      StepCounts(s, ops[0]);
      CountBounded(Step(s, ops[0]), ops[1..]);
    }
  }

  /** The file says who is registered under its name: it is there for every such live target, with the exact
      count, and for no other. */
  ghost predicate Accurate(s: State, name: string) {
    && (forall t :: t in s.live && FileName(t) == name ==>
          name in s.files && s.files[name].target == t && s.files[name].count == s.live[t])
    && (name in s.files ==> s.files[name].target in s.live && FileName(s.files[name].target) == name)
  }

  /** No other target with the same file name is live. */
  predicate Alone(live: multiset<string>, target: string) {
    forall t :: t in live && FileName(t) == FileName(target) ==> t == target
  }

  /** An operation keeps its file accurate exactly unless it registers a target while another with the same file
      name is live. */
  lemma AccurateExactly(s: State, op: Op)
    requires Accurate(s, FileName(op.target))
    ensures Accurate(Step(s, op), FileName(op.target)) <==> op.Drop? || Alone(s.live, op.target)
  {
    var u, name := Step(s, op), FileName(op.target);
    if op.Add? {
      if Alone(s.live, op.target) {
        AddKeeps(s, op);
      } else {
        var other :| other in s.live && FileName(other) == name && other != op.target;
        assert u.live[op.target] == s.live[op.target] + 1;
        assert other in u.live && op.target in u.live;
      }
    } else {
      DropKeeps(s, op);
    }
  }

  lemma AddKeeps(s: State, op: Op)
    requires op.Add? && Accurate(s, FileName(op.target)) && Alone(s.live, op.target)
    ensures Accurate(Step(s, op), FileName(op.target))
  {
  }

  lemma DropKeeps(s: State, op: Op)
    requires op.Drop? && Accurate(s, FileName(op.target))
    ensures Accurate(Step(s, op), FileName(op.target))
  {
  }

  /** No registration under this name meets a live one of another target. */
  predicate Collisionless(s: State, ops: seq<Op>, name: string)
    decreases |ops|
  {
    ops != [] ==>
      && (ops[0].Add? && FileName(ops[0].target) == name ==> Alone(s.live, ops[0].target))
      && Collisionless(Step(s, ops[0]), ops[1..], name)
  }

  /** Without collisions under its name a file counts exactly, and is gone exactly when no registration that would
      use it lives. */
  lemma {:induction false} CountExact(s: State, ops: seq<Op>, name: string)
    requires Accurate(s, name) && Collisionless(s, ops, name)
    ensures Accurate(Run(s, ops), name)
    ensures name !in Run(s, ops).files <==> forall t :: t in Run(s, ops).live ==> FileName(t) != name
    decreases |ops|
  {
    if ops != [] {
      var u := Step(s, ops[0]);
      if FileName(ops[0].target) == name {
        AccurateExactly(s, ops[0]);
      } else {
        assert Agree(s, s, name);
        StepAgrees(s, s, ops[0], name);
        AgreeAccurate(u, s, name);
      }
      CountExact(u, ops[1..], name);
    }
  }

  /** The file is accurate at every moment of a run. */
  ghost predicate AccurateThroughout(s: State, ops: seq<Op>, name: string) {
    forall n: nat :: n <= |ops| ==> Accurate(Run(s, ops[..n]), name)
  }

  /** A file stays accurate throughout a run exactly when no registration under its name meets a live one of another
      target. */
  lemma {:induction false} AccurateRunsExactly(s: State, ops: seq<Op>, name: string)
    requires Accurate(s, name)
    ensures AccurateThroughout(s, ops, name) <==> Collisionless(s, ops, name)
    decreases |ops|
  {
    if ops == [] {
      assert forall n: nat :: n <= |ops| ==> ops[..n] == [];
    } else {
      var t := Step(s, ops[0]);
      StepAccurate(s, ops[0], name);
      FirstStep(s, ops, name);
      hide Step, Accurate, AccurateThroughout, Alone, FileName;
      if Accurate(t, name) { AccurateRunsExactly(t, ops[1..], name); }
    }
  }

  lemma StepAccurate(s: State, op: Op, name: string)
    requires Accurate(s, name)
    ensures Accurate(Step(s, op), name) <==> (op.Add? && FileName(op.target) == name ==> Alone(s.live, op.target))
  {
    if FileName(op.target) == name {
      AccurateExactly(s, op);
    } else {
      StepAgrees(s, s, op, name);
      AgreeAccurate(Step(s, op), s, name);
    }
  }

  lemma FirstStep(s: State, ops: seq<Op>, name: string)
    requires ops != [] && Accurate(s, name)
    ensures AccurateThroughout(s, ops, name) <==>
      Accurate(Step(s, ops[0]), name) && AccurateThroughout(Step(s, ops[0]), ops[1..], name)
  {
    hide Step, Accurate;
    var t := Step(s, ops[0]);
    forall n: nat | n < |ops| ensures Run(s, ops[..n + 1]) == Run(t, ops[1..][..n]) {
      assert ops[..n + 1][0] == ops[0] && ops[..n + 1][1..] == ops[1..][..n];
    }
    assert ops[1..][..0] == [] && Run(t, []) == t;
    if AccurateThroughout(s, ops, name) {
      forall n: nat | n <= |ops[1..]| ensures Accurate(Run(t, ops[1..][..n]), name) {
        assert Accurate(Run(s, ops[..n + 1]), name);
      }
      assert Accurate(Run(t, ops[1..][..0]), name);
    }
    if AccurateThroughout(t, ops[1..], name) {
      forall n: nat | n <= |ops| ensures Accurate(Run(s, ops[..n]), name) {
        if n == 0 {
          assert ops[..0] == [];
        } else {
          assert Accurate(Run(t, ops[1..][..n - 1]), name);
          assert Run(s, ops[..n - 1 + 1]) == Run(t, ops[1..][..n - 1]);
        }
      }
    }
  }

  lemma AgreeAccurate(s: State, u: State, name: string)
    requires Agree(s, u, name) && Accurate(u, name)
    ensures Accurate(s, name)
  {
    forall t | t in s.live && FileName(t) == name
      ensures name in s.files && s.files[name].target == t && s.files[name].count == s.live[t]
    {
      assert s.live[t] == u.live[t];
      assert t in u.live;
    }
    if name in s.files { assert s.live[s.files[name].target] == u.live[u.files[name].target]; }
  }

  // ---------- Routes ----------

  /** A registration is refused exactly when its own record is full. One that is not leaves a record of its target
      whose route is the one already known, and otherwise the one it brings. */
  lemma RegistrationRecorded(s: State, target: string, route: Option<string>)
    requires Counted(s)
    ensures var (u, name) := (Step(s, Add(target, route)), FileName(target));
            var own := name in s.files && s.files[name].target == target;
            if own && s.files[name].count == MAX then u == s
            else
              && u.live == s.live + multiset{target}
              && name in u.files && u.files[name].target == target
              && u.files[name].count == (if own then s.files[name].count + 1 else 1)
              && u.files[name].route == (if own && s.files[name].route.Some? then s.files[name].route else route)
  {
    hide FileName;
  }

  /** An operation that leaves a record of the same target leaves its route. */
  lemma RouteKept(s: State, op: Op, name: string)
    requires name in s.files && s.files[name].route.Some?
    ensures var files := Step(s, op).files;
            name in files && files[name].target == s.files[name].target ==> files[name].route == s.files[name].route
  {
  }

  predicate Recorded(s: State, name: string, target: string) {
    name in s.files && s.files[name].target == target
  }

  /** Over a run in which every state has a record of the target, the route never changes. */
  lemma {:induction false} RouteStable(s: State, ops: seq<Op>, name: string, target: string)
    requires Recorded(s, name, target) && s.files[name].route.Some?
    requires forall n :: 0 <= n <= |ops| ==> Recorded(Run(s, ops[..n]), name, target)
    ensures Recorded(Run(s, ops), name, target) && Run(s, ops).files[name].route == s.files[name].route
    decreases |ops|
  {
    if ops != [] {
      var t := Step(s, ops[0]);
      assert ops[..1] == [ops[0]] && Run(s, ops[..1]) == Run(t, []) == t;
      assert Recorded(Run(s, ops[..1]), name, target);
      RouteKept(s, ops[0], name);
      forall n | 0 <= n <= |ops[1..]| ensures Recorded(Run(t, ops[1..][..n]), name, target) {
        assert ops[..n + 1][1..] == ops[1..][..n] && ops[..n + 1][0] == ops[0];
        assert Run(s, ops[..n + 1]) == Run(t, ops[1..][..n]);
        assert Recorded(Run(s, ops[..n + 1]), name, target);
      }
      RouteStable(t, ops[1..], name, target);
    }
  }

  // ---------- A collision ----------

  function Place(session: string, window: string, pane: string): string {
    session + ":" + window + "." + pane
  }

  lemma PlaceIsTarget(session: string, window: string, pane: string)
    requires Session(session) && Digits(window) && Digits(pane)
    ensures TmuxTarget(Place(session, window, pane))
  {
    var t, i := Place(session, window, pane), |session|;
    var j := i + 1 + |window|;
    assert t[..i] == session && t[i + 1..j] == window && t[j + 1..] == pane;
    assert Cut(t, i, j);
  }

  /** Sessions that a file name writes alike give targets with one file name. */
  lemma PlacesShare(left: string, right: string, window: string, pane: string)
    requires Sanitized(left) == Sanitized(right)
    ensures FileName(Place(left, window, pane)) == FileName(Place(right, window, pane))
    ensures left != right ==> Place(left, window, pane) != Place(right, window, pane)
  {
    var (a, b) := (Place(left, window, pane), Place(right, window, pane));
    assert |Sanitized(left)| == |left| && |Sanitized(right)| == |right|;
    forall i | 0 <= i < |a| ensures Sanitized(a)[i] == Sanitized(b)[i] {
      if i < |left| { assert Sanitized(left)[i] == Sanitized(right)[i]; }
    }
    assert a[..|left|] == left && b[..|right|] == right;
  }

  /** Two different valid targets with one file name: `a.x:1.2` and `a-x:1.2`. */
  lemma ValidTargetsCollide()
    ensures var (a, b) := (Place("a.x", "1", "2"), Place("a-x", "1", "2"));
            TmuxTarget(a) && TmuxTarget(b) && a != b && FileName(a) == FileName(b)
  {
    PlaceIsTarget("a.x", "1", "2");
    PlaceIsTarget("a-x", "1", "2");
    assert "a.x"[1] == '.' && "a-x"[1] == '-';
    assert Sanitized("a.x") == Sanitized("a-x");
    PlacesShare("a.x", "a-x", "1", "2");
  }

  /** Whenever two targets share a file name, the record can vanish while a registration is still live. */
  lemma CollisionLosesRecord(a: string, b: string)
    requires a != b && FileName(a) == FileName(b)
    ensures var s := Run(State(map[], multiset{}), [Add(a, None), Add(b, None), Drop(b)]);
            FileOf(s.files, a) == None && s.live == multiset{a}
  {
    var s0 := State(map[], multiset{});
    var ops := [Add(a, None), Add(b, None), Drop(b)];
    var s1 := Step(s0, ops[0]);
    var s2 := Step(s1, ops[1]);
    var s3 := Step(s2, ops[2]);
    assert ops[1..] == [Add(b, None), Drop(b)] && ops[1..][1..] == [Drop(b)];
    assert Run(s0, ops) == Run(s1, ops[1..]) == Run(s2, ops[1..][1..]) == Run(s3, ops[1..][1..][1..]);
    assert s3.live == multiset{a};
  }
}
