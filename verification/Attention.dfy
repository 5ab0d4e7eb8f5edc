/** The attention tables: pending targets by sequence, and one saved return position. Every operation is one
    committed transaction under the writer lock. */
module Attention {
  import opened Wrappers

  datatype Row = Row(identity: string, sequence: nat)

  type Table = map<string, Row>

  /** What visiting a target comes to. */
  datatype Nav = Success(origin: Option<string>) | Retry | Stale

  // ---------- The list the table stands for ----------

  predicate Distinct(t: Table) {
    forall a, b :: a in t && b in t && a != b ==> t[a].sequence != t[b].sequence
  }

  predicate Later(t: Table, a: string, b: string) {
    a in t && b in t && t[a].sequence > t[b].sequence
  }

  predicate Descending(t: Table, l: seq<string>) {
    forall i, j :: 0 <= i < j < |l| ==> Later(t, l[i], l[j])
  }

  /** `l` is the table's targets, each once, most recent first. */
  ghost predicate Lists(t: Table, l: seq<string>) {
    (forall x :: x in t <==> x in l) && Descending(t, l)
  }

  lemma DescendingParts(t: Table, a: seq<string>, b: seq<string>)
    requires Descending(t, a + b)
    ensures Descending(t, a) && Descending(t, b)
    ensures forall x, y :: x in a && y in b ==> Later(t, x, y)
  {
    var l := a + b;
    forall i, j | 0 <= i < j < |a| ensures Later(t, a[i], a[j]) { assert Later(t, l[i], l[j]); }
    forall i, j | 0 <= i < j < |b| ensures Later(t, b[i], b[j]) { assert Later(t, l[|a| + i], l[|a| + j]); }
    forall x, y | x in a && y in b ensures Later(t, x, y) {
      var i :| 0 <= i < |a| && a[i] == x;
      var j :| 0 <= j < |b| && b[j] == y;
      assert Later(t, l[i], l[|a| + j]);
    }
  }

  lemma DescendingWhole(t: Table, a: seq<string>, b: seq<string>)
    requires Descending(t, a) && Descending(t, b)
    requires forall x, y :: x in a && y in b ==> Later(t, x, y)
    ensures Descending(t, a + b)
  {
    var l := a + b;
    forall i, j | 0 <= i < j < |l| ensures Later(t, l[i], l[j]) {
      if j < |a| { assert Later(t, a[i], a[j]); }
      else if i >= |a| { assert Later(t, b[i - |a|], b[j - |a|]); }
      else { assert a[i] in a && b[j - |a|] in b; }
    }
  }

  lemma DescendingOther(t: Table, u: Table, l: seq<string>)
    requires Descending(t, l) && forall x :: x in l && x in t ==> x in u && u[x] == t[x]
    ensures Descending(u, l)
  {
    forall i, j | 0 <= i < j < |l| ensures Later(u, l[i], l[j]) {
      assert Later(t, l[i], l[j]);
      assert l[i] in l && l[j] in l;
    }
  }

  /** Taking an entry out of the middle of the list takes its row out of the table. */
  lemma Middle(t: Table, a: seq<string>, x: string, b: seq<string>)
    requires Lists(t, a + ([x] + b))
    ensures Lists(t - {x}, a + b)
  {
    DescendingParts(t, a, [x] + b);
    DescendingParts(t, [x], b);
    assert x in [x] && x in [x] + b;
    assert x !in a && x !in b;
    DescendingWhole(t, a, b);
    DescendingOther(t, t - {x}, a + b);
  }

  /** The list without one target. */
  function Minus(l: seq<string>, x: string): seq<string> {
    if l == [] then [] else (if l[0] == x then [] else [l[0]]) + Minus(l[1..], x)
  }

  lemma {:induction false} MinusIs(t: Table, l: seq<string>, x: string)
    requires Lists(t, l)
    ensures Lists(t - {x}, Minus(l, x))
  {
    if l != [] {
      var u := t - {l[0]};
      TailLists(t, l);
      MinusIs(u, l[1..], x);
      var m := Minus(l[1..], x);
      if l[0] == x {
        assert u - {x} == t - {x};
        assert [] + m == m;
      } else {
        assert forall y :: y in m <==> y in t && y != l[0] && y != x;
        assert t - {x} - {l[0]} == u - {x};
        HeadLists(t - {x}, l[0], m);
      }
    }
  }

  lemma TailLists(t: Table, l: seq<string>)
    requires Lists(t, l) && l != []
    ensures Lists(t - {l[0]}, l[1..])
    ensures forall y :: y in l[1..] ==> Later(t, l[0], y)
  {
    assert l == [] + ([l[0]] + l[1..]) == [l[0]] + l[1..];
    Middle(t, [], l[0], l[1..]);
    assert [] + l[1..] == l[1..];
    DescendingParts(t, [l[0]], l[1..]);
    assert l[0] in [l[0]];
  }

  lemma HeadLists(t: Table, x: string, l: seq<string>)
    requires x in t && Lists(t - {x}, l)
    requires forall y :: y in l ==> t[x].sequence > t[y].sequence
    ensures Lists(t, [x] + l)
  {
    DescendingOther(t - {x}, t, l);
    DescendingWhole(t, [x], l);
  }

  lemma EmptyList(t: Table, l: seq<string>)
    requires Lists(t, l)
    ensures l == [] <==> t == map[]
  {
    if l != [] { assert l[0] in l; }
  }

  /** A table stands for at most one list. */
  lemma {:induction false} OneList(t: Table, a: seq<string>, b: seq<string>)
    requires Lists(t, a) && Lists(t, b)
    ensures a == b
  {
    if a == [] || b == [] {
      EmptyList(t, a);
      EmptyList(t, b);
    } else {
      TailLists(t, a);
      TailLists(t, b);
      assert a == [a[0]] + a[1..] && b == [b[0]] + b[1..];
      assert a[0] in b && b[0] in a;
      OneList(t - {a[0]}, a[1..], b[1..]);
    }
  }

  // ---------- What focusing does to the list ----------

  datatype Scanned = Scanned(kept: seq<string>, success: Option<Option<string>>, failed: bool)

  /** Walk the list until the first success: stale entries go, retried ones stay, the rest is not looked at. */
  function Scan(l: seq<string>, visit: string -> Nav): Scanned {
    if l == [] then Scanned([], None, false) else
    match visit(l[0])
    case Success(origin) => Scanned(l[1..], Some(origin), false)
    case Retry =>
      var r := Scan(l[1..], visit);
      Scanned([l[0]] + r.kept, r.success, r.success == None)
    case Stale => Scan(l[1..], visit)
  }

  predicate FirstSuccess(l: seq<string>, visit: string -> Nav, k: nat) {
    && k <= |l|
    && (forall i :: 0 <= i < k ==> !visit(l[i]).Success?)
    && (k < |l| ==> visit(l[k]).Success?)
  }

  function Retried(l: seq<string>, visit: string -> Nav): seq<string> {
    if l == [] then [] else (if visit(l[0]) == Retry then [l[0]] else []) + Retried(l[1..], visit)
  }

  /** Focusing keeps, in order, the retried entries before the first success and every older entry; it fails
      exactly when nothing succeeded and something must be retried. */
  lemma {:induction false} ScanIs(l: seq<string>, visit: string -> Nav, k: nat)
    requires FirstSuccess(l, visit, k)
    ensures var r := Scan(l, visit);
            && r.kept == Retried(l[..k], visit) + (if k < |l| then l[k + 1..] else [])
            && r.success == (if k < |l| then Some(visit(l[k]).origin) else None)
            && (r.failed <==> k == |l| && exists i :: 0 <= i < |l| && visit(l[i]) == Retry)
  {
    if l != [] && k > 0 {
      var t := l[1..];
      assert forall i :: 0 <= i < |t| ==> t[i] == l[i + 1];
      assert FirstSuccess(t, visit, k - 1) by {
        assert forall i :: 0 <= i < k - 1 ==> t[i] == l[i + 1];
      }
      ScanIs(t, visit, k - 1);
      assert l[..k][1..] == t[..k - 1];
      if k < |l| { assert t[k..] == l[k + 1..]; }
      var r := Scan(t, visit);
      if visit(l[0]) == Retry {
        var tail := if k < |l| then l[k + 1..] else [];
        assert [l[0]] + (Retried(t[..k - 1], visit) + tail) == ([l[0]] + Retried(t[..k - 1], visit)) + tail;
      } else {
        assert [] + Retried(t[..k - 1], visit) == Retried(t[..k - 1], visit);
        if k == |l| && r.failed {
          var i :| 0 <= i < |t| && visit(t[i]) == Retry;
          assert visit(l[i + 1]) == Retry;
        }
        if i :| 0 <= i < |l| && visit(l[i]) == Retry { assert t[i - 1] == l[i]; }
      }
    }
  }

  function Visit(t: Table, registered: map<string, string>, navigate: string -> Nav): string -> Nav {
    x => if x in t && x in registered && registered[x] == t[x].identity then navigate(x) else Stale
  }

  /** The target is registered with the very identity it was enqueued under. */
  predicate Current(t: Table, registered: map<string, string>, x: string) {
    x in t && x in registered && t[x].identity == registered[x]
  }

  /** The current targets whose navigation must be retried. */
  function Waiting(l: seq<string>, t: Table, registered: map<string, string>, navigate: string -> Nav): seq<string> {
    if l == [] then [] else
    (if Current(t, registered, l[0]) && navigate(l[0]) == Retry then [l[0]] else [])
    + Waiting(l[1..], t, registered, navigate)
  }

  lemma {:induction false} WaitingIs(l: seq<string>, t: Table, registered: map<string, string>, navigate: string -> Nav)
    ensures Retried(l, Visit(t, registered, navigate)) == Waiting(l, t, registered, navigate)
  {
    if l != [] { WaitingIs(l[1..], t, registered, navigate); }
  }

  /** What focusing does, said of registrations and navigation: with k the first target that is current and can be
      navigated to, the current targets before it that must be retried and all targets after it are kept, in order;
      the position becomes that target's origin; and it fails exactly when there is no such target and some current
      one must be retried. A target that is not current is never navigated to. */
  lemma FocusExactly(l: seq<string>, t: Table, registered: map<string, string>, navigate: string -> Nav, k: nat)
    requires k <= |l|
    requires forall i :: 0 <= i < k ==> !(Current(t, registered, l[i]) && navigate(l[i]).Success?)
    requires k < |l| ==> Current(t, registered, l[k]) && navigate(l[k]).Success?
    ensures var r := Scan(l, Visit(t, registered, navigate));
            && r.kept == Waiting(l[..k], t, registered, navigate) + (if k < |l| then l[k + 1..] else [])
            && r.success == (if k < |l| then Some(navigate(l[k]).origin) else None)
            && (r.failed <==>
                 k == |l| && exists i :: 0 <= i < |l| && Current(t, registered, l[i]) && navigate(l[i]) == Retry)
  {
    var visit := Visit(t, registered, navigate);
    assert FirstSuccess(l, visit, k);
    ScanIs(l, visit, k);
    WaitingIs(l[..k], t, registered, navigate);
    if i :| 0 <= i < |l| && visit(l[i]) == Retry {
      assert Current(t, registered, l[i]) && navigate(l[i]) == Retry;
    }
    if i :| 0 <= i < |l| && Current(t, registered, l[i]) && navigate(l[i]) == Retry { assert visit(l[i]) == Retry; }
  }

  // ---------- The tables ----------

  class Tables {
    var pending: Table
    var position: Option<string>

    ghost predicate Valid()
      reads this
    {
      Distinct(pending)
    }

    constructor ()
      ensures Valid() && pending == map[] && position == None
    {
      pending, position := map[], None;
    }

    /** MAX(sequence), 0 for an empty table. */
    method MaxSequence() returns (m: nat)
      ensures forall t :: t in pending ==> pending[t].sequence <= m
      ensures if pending == map[] then m == 0 else exists t :: t in pending && pending[t].sequence == m
    {
      m := 0;
      var left := pending.Keys;
      while left != {}
        invariant left <= pending.Keys
        invariant forall t :: t in pending && t !in left ==> pending[t].sequence <= m
        invariant m == 0 || exists t :: t in pending && pending[t].sequence == m
        decreases left
      {
        var t :| t in left;
        if pending[t].sequence > m { m := pending[t].sequence; }
        left := left - {t};
      }
      if m == 0 && pending != map[] { var t :| t in pending; }
    }

    /** A registered target becomes the most recent, wherever it was; any other changes nothing. */
    method Enqueue(target: string, registered: Option<string>)
      requires Valid()
      modifies this`pending
      ensures Valid()
      ensures registered == None ==> pending == old(pending)
      ensures registered.Some? ==> target in pending && pending[target].identity == registered.value
      ensures pending - {target} == old(pending) - {target}
      ensures forall l :: registered.Some? && Lists(old(pending), l) ==> Lists(pending, [target] + Minus(l, target))
    {
      if registered.Some? {
        var m := MaxSequence();
        ghost var before := pending;
        pending := pending[target := Row(registered.value, m + 1)];
        assert pending - {target} == before - {target};
        forall l | Lists(before, l) ensures Lists(pending, [target] + Minus(l, target)) {
          MinusIs(before, l, target);
          HeadLists(pending, target, Minus(l, target));
        }
      }
    }

    /** The rows by descending sequence. */
    method Select() returns (l: seq<string>)
      requires Valid()
      ensures Lists(pending, l)
    {
      l := [];
      var left := pending;
      while left != map[]
        invariant left.Keys <= pending.Keys && forall t :: t in left ==> left[t] == pending[t]
        invariant forall x :: x in pending <==> x in l || x in left
        invariant forall x :: x in l ==> x !in left
        invariant forall x, y :: x in l && y in left ==> Later(pending, x, y)
        invariant Descending(pending, l)
        decreases left.Keys
      {
        var t := Latest(left);
        DescendingWhole(pending, l, [t]);
        l := l + [t];
        left := left - {t};
      }
    }

    method Latest(rows: Table) returns (t: string)
      requires rows != map[] && Distinct(rows)
      ensures t in rows && forall u :: u in rows && u != t ==> rows[u].sequence < rows[t].sequence
    {
      t :| t in rows;
      var left := rows.Keys - {t};
      while left != {}
        invariant left <= rows.Keys && t in rows && t !in left
        invariant forall u :: u in rows && u !in left && u != t ==> rows[u].sequence < rows[t].sequence
        decreases left
      {
        var u :| u in left;
        left := left - {u};
        if rows[u].sequence > rows[t].sequence { t := u; }
      }
    }

    /** Visits the pending targets, most recent first. A row whose identity is not the registered one is stale;
        otherwise navigation decides. The return position changes only on success. */
    method Focus(registered: map<string, string>, navigate: string -> Nav) returns (failed: bool, ghost l: seq<string>)
      requires Valid()
      modifies this
      ensures Valid() && Lists(old(pending), l)
      ensures var r := Scan(l, Visit(old(pending), registered, navigate));
              && Lists(pending, r.kept)
              && Within(pending, old(pending))
              && failed == r.failed
              && position == if r.success.Some? then r.success.value else old(position)
    {
      hide Scan, Behind, Walked, Within, Lists, Distinct;
      var entries := Select();
      l := entries;
      ghost var before, visit := pending, Visit(pending, registered, navigate);
      failed := false;
      var i := 0;
      ghost var kept: seq<string>, rest := [], entries;
      Started(pending, entries, visit);
      while i < |entries|
        invariant i <= |entries| && rest == entries[i..] && position == old(position)
        invariant Walked(before, pending, kept + rest)
        invariant failed <==> kept != []
        invariant Scan(entries, visit) == Behind(kept, Scan(rest, visit))
      {
        var target := entries[i];
        ghost var left := entries[i + 1..];
        DropFirst(entries, i);
        Ahead(before, pending, kept, target, left);
        var result := Stale;
        if target in registered && registered[target] == pending[target].identity { result := navigate(target); }
        assert result == visit(target);
        Advance(kept, target, left, visit);
        rest := left;
        if result != Retry {
          pending := pending - {target};
        } else {
          failed := true;
          kept := kept + [target];
        }
        if result.Success? {
          failed := false;
          position := result.origin;
          assert Walked(before, pending, kept + rest);
          assert Scan(entries, visit) == Scanned(kept + rest, Some(result.origin), false);
          break;
        }
        i := i + 1;
      }
      Finished(before, pending, kept, rest, visit);
    }

    /** Goes back to the saved position. A position that no longer parses is stale; all but a retry clear it. */
    method ReturnToOrigin(parses: bool, navigate: string -> Nav) returns (failed: bool)
      modifies this`position
      ensures var result := if old(position) == None || !parses then Stale else navigate(old(position).value);
              && failed == (old(position).Some? && result == Retry)
              && position == if result == Retry then old(position) else None
    {
      failed := false;
      if position.Some? {
        var result := if parses then navigate(position.value) else Stale;
        failed := result == Retry;
        if result != Retry { position := None; }
      }
    }
  }

  /** Where a walk over `l` stands: only rows of the starting table are left, and they are those of `l`. */
  ghost predicate Walked(before: Table, t: Table, l: seq<string>) {
    && Distinct(before)
    && Lists(t, l)
    && Within(t, before)
  }

  /** Every row of `t` is a row of `u`. */
  predicate Within(t: Table, u: Table) {
    forall x :: x in t ==> x in u && t[x] == u[x]
  }

  lemma Started(t: Table, l: seq<string>, visit: string -> Nav)
    requires Distinct(t) && Lists(t, l)
    ensures l[0..] == l && [] + l == l && Walked(t, t, l)
    ensures Behind([], Scan(l, visit)) == Scan(l, visit)
  {
    assert [] + Scan(l, visit).kept == Scan(l, visit).kept;
  }

  lemma Finished(before: Table, t: Table, kept: seq<string>, rest: seq<string>, visit: string -> Nav)
    requires Walked(before, t, kept + rest)
    ensures Distinct(t) && Within(t, before) && Lists(t, kept + rest)
    ensures rest == [] ==> Behind(kept, Scan(rest, visit)) == Scanned(kept + rest, None, kept != [])
  {
  }

  lemma DropFirst(l: seq<string>, i: nat)
    requires i < |l|
    ensures l[i..] == [l[i]] + l[i + 1..]
  {
  }

  lemma Ahead(before: Table, t: Table, kept: seq<string>, target: string, rest: seq<string>)
    requires Walked(before, t, kept + ([target] + rest))
    ensures target in t && target in before && t[target] == before[target]
    ensures Walked(before, t - {target}, kept + rest)
    ensures Walked(before, t, kept + [target] + rest)
  {
    assert target in [target] + rest;
    assert target in kept + ([target] + rest);
    Middle(t, kept, target, rest);
    assert kept + [target] + rest == kept + ([target] + rest);
  }

  /** A failed scan has no success. */
  lemma {:induction false} FailedScan(l: seq<string>, visit: string -> Nav)
    ensures Scan(l, visit).failed ==> Scan(l, visit).success == None
  {
    if l != [] { FailedScan(l[1..], visit); }
  }

  /** One more entry visited, with `kept` already behind. */
  lemma Advance(kept: seq<string>, target: string, rest: seq<string>, visit: string -> Nav)
    ensures var r := Behind(kept, Scan([target] + rest, visit));
      match visit(target)
      case Success(origin) => r == Scanned(kept + rest, Some(origin), false)
      case Retry => r == Behind(kept + [target], Scan(rest, visit))
      case Stale => r == Behind(kept, Scan(rest, visit))
  {
    FailedScan(rest, visit);
    assert ([target] + rest)[1..] == rest;
    assert kept + [target] + Scan(rest, visit).kept == kept + ([target] + Scan(rest, visit).kept);
  }

  /** A scan that has already kept some entries to retry. */
  function Behind(kept: seq<string>, r: Scanned): Scanned {
    Scanned(kept + r.kept, r.success, r.failed || (kept != [] && r.success == None))
  }
}
