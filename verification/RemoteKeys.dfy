/** Planning and applying the key changes on the hosting service. */
module RemoteKeys {
  import opened Wrappers

  datatype RemoteKey = RemoteKey(id: nat, title: string, key: string, readOnly: Option<bool>)

  datatype Kind = Deploy | Signing

  datatype Plan = Reuse | Create | Replace(ids: seq<nat>, create: bool)

  /** A plan, or the keys that are in the way. */
  type Planned = Result<Plan, seq<RemoteKey>>

  // ---------- Comparing keys ----------

  /** Unicode white space. */
  predicate White(c: char) {
    var n := c as int;
    || 0x09 <= n <= 0x0D || n == 0x20 || n == 0x85 || n == 0xA0 || n == 0x1680
    || 0x2000 <= n <= 0x200A || n == 0x2028 || n == 0x2029 || n == 0x202F || n == 0x205F || n == 0x3000
  }

  function SkipWhite(s: string): (r: string)
    ensures |r| <= |s|
  {
    if s != "" && White(s[0]) then SkipWhite(s[1..]) else s
  }

  function FieldLength(s: string): (n: nat)
    ensures n <= |s|
  {
    if s == "" || White(s[0]) then 0 else 1 + FieldLength(s[1..])
  }

  /** The first two fields of a public key line, joined by one space; None when there are not two. */
  function Normalized(value: string): Option<string> {
    var s := SkipWhite(value);
    var n := FieldLength(s);
    var t := SkipWhite(s[n..]);
    var m := FieldLength(t);
    if n == 0 || m == 0 then None else Some(s[..n] + " " + t[..m])
  }

  predicate SameKey(left: string, right: string) {
    Normalized(left).Some? && Normalized(left) == Normalized(right)
  }

  const SUFFIX := "-signing"
  const PREFIX := "signing-"

  /** A title ending in the suffix may have been written with the name behind the prefix instead. */
  predicate LegacyTitle(title: string, actual: string) {
    |title| >= |SUFFIX| && title[|title| - |SUFFIX|..] == SUFFIX && actual == PREFIX + title[..|title| - |SUFFIX|]
  }

  predicate Matches(kind: Kind, k: RemoteKey, title: string, publicKey: string) {
    match kind
    case Deploy => k.title == title && SameKey(k.key, publicKey) && k.readOnly == Some(false)
    case Signing => (k.title == title || LegacyTitle(title, k.title)) && SameKey(k.key, publicKey)
  }

  predicate Conflicts(k: RemoteKey, title: string, publicKey: string) {
    k.title == title || SameKey(k.key, publicKey)
  }

  predicate InTheWay(kind: Kind, k: RemoteKey, title: string, publicKey: string) {
    Conflicts(k, title, publicKey) && !Matches(kind, k, title, publicKey)
  }

  // ---------- What the comparisons mean ----------

  predicate Blank(s: string) { forall i :: 0 <= i < |s| ==> White(s[i]) }

  predicate Solid(s: string) { s != "" && forall i :: 0 <= i < |s| ==> !White(s[i]) }

  /** A public key line: a type and a body, with any white space before and between them, and after them nothing or
      white space and anything more. */
  datatype Line = Line(lead: string, kind: string, gap: string, body: string, rest: string)

  predicate Formed(l: Line) {
    && Blank(l.lead) && Solid(l.kind) && l.gap != "" && Blank(l.gap) && Solid(l.body)
    && (l.rest != "" ==> White(l.rest[0]))
  }

  function Text(l: Line): string {
    l.lead + (l.kind + (l.gap + (l.body + l.rest)))
  }

  lemma {:induction false} SkipsBlank(lead: string, rest: string)
    requires Blank(lead) && (rest != "" ==> !White(rest[0]))
    ensures SkipWhite(lead + rest) == rest
  {
    if lead == "" {
      assert lead + rest == rest;
    } else {
      assert (lead + rest)[1..] == lead[1..] + rest;
      SkipsBlank(lead[1..], rest);
    }
  }

  lemma {:induction false} FieldEnds(field: string, rest: string)
    requires (forall i :: 0 <= i < |field| ==> !White(field[i])) && (rest != "" ==> White(rest[0]))
    ensures FieldLength(field + rest) == |field|
  {
    if field == "" {
      assert field + rest == rest;
    } else {
      assert (field + rest)[1..] == field[1..] + rest;
      FieldEnds(field[1..], rest);
    }
  }

  /** A well-formed line comes down to its type and its body. */
  lemma LineNormalized(l: Line)
    requires Formed(l)
    ensures Normalized(Text(l)) == Some(l.kind + " " + l.body)
  {
    var (after, tail) := (l.kind + (l.gap + (l.body + l.rest)), l.body + l.rest);
    SkipsBlank(l.lead, after);
    FieldEnds(l.kind, l.gap + tail);
    assert after[|l.kind|..] == l.gap + tail && after[..|l.kind|] == l.kind;
    SkipsBlank(l.gap, tail);
    FieldEnds(l.body, l.rest);
    assert tail[..|l.body|] == l.body;
  }

  lemma {:induction false} Skipped(s: string) returns (lead: string)
    ensures Blank(lead) && s == lead + SkipWhite(s) && (SkipWhite(s) != "" ==> !White(SkipWhite(s)[0]))
    ensures s != "" && White(s[0]) ==> lead != ""
  {
    if s != "" && White(s[0]) {
      var more := Skipped(s[1..]);
      lead := [s[0]] + more;
    } else {
      lead := "";
    }
  }

  lemma {:induction false} FirstField(s: string) returns (field: string, rest: string)
    ensures s == field + rest && field == s[..FieldLength(s)] && rest == s[FieldLength(s)..]
    ensures (forall i :: 0 <= i < |field| ==> !White(field[i])) && (rest != "" ==> White(rest[0]))
  {
    if s != "" && !White(s[0]) {
      var more;
      more, rest := FirstField(s[1..]);
      field := [s[0]] + more;
    } else {
      field, rest := "", s;
    }
  }

  lemma TwoFields(s: string)
    ensures var a := SkipWhite(s);
            var b := SkipWhite(a[FieldLength(a)..]);
            Normalized(s).Some? <==> a[..FieldLength(a)] != "" && b[..FieldLength(b)] != ""
  {
  }

  /** Whatever comes down to two fields is such a line, so only lines without two fields are refused. */
  lemma NormalizedIsLine(s: string) returns (l: Line)
    ensures Normalized(s).Some? ==> Formed(l) && Text(l) == s
  {
    TwoFields(s);
    hide SkipWhite, FieldLength, Normalized, White;
    var lead := Skipped(s);
    var kind, after := FirstField(SkipWhite(s));
    var gap := Skipped(after);
    var body, rest := FirstField(SkipWhite(after));
    l := Line(lead, kind, gap, body, rest);
  }

  /** Two well-formed lines are the same key exactly when both their types and their bodies are equal. */
  lemma SameKeyExactly(a: Line, b: Line)
    requires Formed(a) && Formed(b)
    ensures SameKey(Text(a), Text(b)) <==> a.kind == b.kind && a.body == b.body
  {
    LineNormalized(a);
    LineNormalized(b);
    if a.kind + " " + a.body == b.kind + " " + b.body {
      FieldEnds(a.kind, " " + a.body);
      FieldEnds(b.kind, " " + b.body);
      assert a.kind + " " + a.body == a.kind + (" " + a.body) && b.kind + " " + b.body == b.kind + (" " + b.body);
      var n := |a.kind|;
      assert (a.kind + (" " + a.body))[..n] == a.kind && (b.kind + (" " + b.body))[..n] == b.kind;
      assert (a.kind + (" " + a.body))[n + 1..] == a.body && (b.kind + (" " + b.body))[n + 1..] == b.body;
    }
  }

  /** A line without two fields is the same key as nothing. */
  lemma MalformedIsNoKey(a: string, b: string)
    requires Normalized(a) == None || Normalized(b) == None
    ensures !SameKey(a, b)
  {
  }

  /** A deploy key matches on its title, its key and write access; a signing key on its key and its title, or the
      title's older form. */
  lemma MatchesExactly(k: RemoteKey, title: string, stored: Line, asked: Line)
    requires Formed(stored) && Formed(asked) && k.key == Text(stored)
    ensures Matches(Deploy, k, title, Text(asked)) <==>
      k.title == title && stored.kind == asked.kind && stored.body == asked.body && k.readOnly == Some(false)
    ensures Matches(Signing, k, title, Text(asked)) <==>
      && (k.title == title || exists name :: title == name + "-signing" && k.title == "signing-" + name)
      && stored.kind == asked.kind && stored.body == asked.body
    ensures Conflicts(k, title, Text(asked)) <==>
      k.title == title || (stored.kind == asked.kind && stored.body == asked.body)
  {
    SameKeyExactly(stored, asked);
    LegacyExactly(title, k.title);
  }

  lemma LegacyExactly(title: string, actual: string)
    ensures LegacyTitle(title, actual) <==> exists name :: title == name + "-signing" && actual == "signing-" + name
  {
    if LegacyTitle(title, actual) {
      var name := title[..|title| - |SUFFIX|];
      assert title == name + "-signing" && actual == "signing-" + name;
    }
    if name :| title == name + "-signing" && actual == "signing-" + name {
      assert title[|title| - |SUFFIX|..] == SUFFIX && title[..|title| - |SUFFIX|] == name;
    }
  }

  // ---------- The plan ----------

  function Blocking(kind: Kind, keys: seq<RemoteKey>, title: string, publicKey: string): seq<RemoteKey> {
    if keys == [] then []
    else
      (if InTheWay(kind, keys[0], title, publicKey) then [keys[0]] else [])
      + Blocking(kind, keys[1..], title, publicKey)
  }

  function Ids(keys: seq<RemoteKey>): seq<nat> {
    if keys == [] then [] else [keys[0].id] + Ids(keys[1..])
  }

  predicate HasMatch(kind: Kind, keys: seq<RemoteKey>, title: string, publicKey: string) {
    exists i :: 0 <= i < |keys| && Matches(kind, keys[i], title, publicKey)
  }

  function PlanFor(kind: Kind, keys: seq<RemoteKey>, title: string, publicKey: string, force: bool): Planned {
    var blocking := Blocking(kind, keys, title, publicKey);
    var found := HasMatch(kind, keys, title, publicKey);
    if blocking == [] then Ok(if found then Reuse else Create)
    else if !force then Err(blocking)
    else Ok(Replace(Ids(blocking), !found))
  }

  // ---------- Applying it ----------

  function Without(keys: seq<RemoteKey>, ids: seq<nat>): seq<RemoteKey> {
    if keys == [] then [] else (if keys[0].id in ids then [] else [keys[0]]) + Without(keys[1..], ids)
  }

  /** The key as the service stores it. */
  function NewKey(kind: Kind, id: nat, title: string, publicKey: string): RemoteKey {
    RemoteKey(id, title, publicKey, if kind == Deploy then Some(false) else None)
  }

  function Applied(kind: Kind, keys: seq<RemoteKey>, title: string, publicKey: string, plan: Plan, id: nat)
    : seq<RemoteKey>
  {
    match plan
    case Reuse => keys
    case Create => keys + [NewKey(kind, id, title, publicKey)]
    case Replace(ids, create) => Without(keys, ids) + if create then [NewKey(kind, id, title, publicKey)] else []
  }

  /** The service. Any call may fail, and then changes nothing. */
  class Service {
    var keys: seq<RemoteKey>

    method Delete(id: nat, fails: bool) returns (ok: bool)
      modifies this
      ensures ok == !fails && keys == if fails then old(keys) else Without(old(keys), [id])
    {
      if !fails { keys := Without(keys, [id]); }
      ok := !fails;
    }

    method CreateKey(kind: Kind, id: nat, title: string, publicKey: string, fails: bool) returns (ok: bool)
      modifies this
      ensures ok == !fails && keys == if fails then old(keys) else old(keys) + [NewKey(kind, id, title, publicKey)]
    {
      if !fails { keys := keys + [NewKey(kind, id, title, publicKey)]; }
      ok := !fails;
    }

    /** The apply loop; `failAt` is the call that fails, if there are so many. A failure part way has deleted
        the first `deleted` of the planned keys and done nothing else. */
    method Apply(kind: Kind, title: string, publicKey: string, plan: Plan, id: nat, failAt: nat)
      returns (ok: bool, deleted: nat)
      modifies this
      ensures ok ==> keys == Applied(kind, old(keys), title, publicKey, plan, id)
      ensures !ok ==> failAt == if plan.Replace? then deleted else 0
      ensures !ok && plan.Replace? ==> deleted <= |plan.ids| && keys == Without(old(keys), plan.ids[..deleted])
      ensures !ok && !plan.Replace? ==> keys == old(keys)
    {
      ok, deleted := true, 0;
      match plan
      case Reuse =>
      case Create =>
        ok := CreateKey(kind, id, title, publicKey, failAt == 0);
      case Replace(ids, create) =>
        WithoutNone(keys);
        while deleted < |ids|
          invariant deleted <= |ids| && keys == Without(old(keys), ids[..deleted])
        {
          ok := Delete(ids[deleted], failAt == deleted);
          if !ok { return; }
          WithoutMore(old(keys), ids[..deleted], ids[deleted]);
          assert ids[..deleted] + [ids[deleted]] == ids[..deleted + 1];
          deleted := deleted + 1;
        }
        assert ids[..deleted] == ids;
        ok := true;
        if create { ok := CreateKey(kind, id, title, publicKey, failAt == deleted); }
    }
  }

  lemma {:induction false} WithoutNone(keys: seq<RemoteKey>)
    ensures Without(keys, []) == keys
  {
    if keys != [] { WithoutNone(keys[1..]); assert keys == [keys[0]] + keys[1..]; }
  }

  lemma {:induction false} WithoutMore(keys: seq<RemoteKey>, ids: seq<nat>, id: nat)
    ensures Without(Without(keys, ids), [id]) == Without(keys, ids + [id])
  {
    if keys != [] {
      WithoutMore(keys[1..], ids, id);
      if keys[0].id !in ids {
        assert Without(keys, ids) == [keys[0]] + Without(keys[1..], ids);
        assert Without(keys, ids)[1..] == Without(keys[1..], ids);
      } else {
        assert Without(keys, ids) == Without(keys[1..], ids);
      }
    }
  }

  // ---------- Convergence ----------

  predicate UniqueIds(keys: seq<RemoteKey>) {
    forall i, j :: 0 <= i < j < |keys| ==> keys[i].id != keys[j].id
  }

  lemma {:induction false} BlockingAre(kind: Kind, keys: seq<RemoteKey>, title: string, publicKey: string, k: RemoteKey)
    ensures k in Blocking(kind, keys, title, publicKey) <==> k in keys && InTheWay(kind, k, title, publicKey)
  {
    if keys != [] {
      BlockingAre(kind, keys[1..], title, publicKey, k);
      assert keys == [keys[0]] + keys[1..];
    }
  }

  lemma {:induction false} IdsAre(keys: seq<RemoteKey>, id: nat)
    ensures id in Ids(keys) <==> exists k :: k in keys && k.id == id
  {
    if keys != [] {
      IdsAre(keys[1..], id);
      assert keys == [keys[0]] + keys[1..];
      assert keys[0] in keys;
    }
  }

  lemma {:induction false} NothingBlocks(kind: Kind, keys: seq<RemoteKey>, title: string, publicKey: string)
    ensures Blocking(kind, keys, title, publicKey) == [] <==>
      forall i :: 0 <= i < |keys| ==> !InTheWay(kind, keys[i], title, publicKey)
  {
    if keys != [] {
      NothingBlocks(kind, keys[1..], title, publicKey);
      assert forall i :: 0 < i < |keys| ==> keys[i] == keys[1..][i - 1];
    }
  }

  lemma {:induction false} WithoutKeeps(keys: seq<RemoteKey>, ids: seq<nat>, k: RemoteKey)
    ensures k in Without(keys, ids) <==> k in keys && k.id !in ids
  {
    if keys != [] { WithoutKeeps(keys[1..], ids, k); assert keys == [keys[0]] + keys[1..]; }
  }

  /** After a plan is applied exactly the keys in the way are gone, and a created key is the only new one. */
  lemma AppliedExactly(kind: Kind, keys: seq<RemoteKey>, title: string, publicKey: string, force: bool, id: nat,
        k: RemoteKey)
    requires UniqueIds(keys)
    requires PlanFor(kind, keys, title, publicKey, force).Ok?
    ensures var plan := PlanFor(kind, keys, title, publicKey, force).value;
            k in Applied(kind, keys, title, publicKey, plan, id) <==>
              || (k in keys && !InTheWay(kind, k, title, publicKey))
              || (!HasMatch(kind, keys, title, publicKey) && k == NewKey(kind, id, title, publicKey))
  {
    NothingBlocks(kind, keys, title, publicKey);
    var blocking := Blocking(kind, keys, title, publicKey);
    IdsAre(blocking, k.id);
    WithoutKeeps(keys, Ids(blocking), k);
    BlockingAre(kind, keys, title, publicKey, k);
    forall other | other in blocking && other.id == k.id && k in keys ensures other == k {
      BlockingAre(kind, keys, title, publicKey, other);
    }
  }

  /** Without force a conflict yields no plan, so nothing is applied; with force there is always a plan. */
  lemma ForceDecides(kind: Kind, keys: seq<RemoteKey>, title: string, publicKey: string, force: bool)
    ensures PlanFor(kind, keys, title, publicKey, force).Ok? <==>
      force || forall i :: 0 <= i < |keys| ==> !InTheWay(kind, keys[i], title, publicKey)
  {
    NothingBlocks(kind, keys, title, publicKey);
  }

  /** Planning again after applying asks for nothing more, exactly when the public key has its two fields:
      a malformed key matches nothing, not even itself. */
  lemma Converges(kind: Kind, keys: seq<RemoteKey>, title: string, publicKey: string, force: bool, again: bool,
        id: nat)
    requires UniqueIds(keys)
    requires PlanFor(kind, keys, title, publicKey, force).Ok?
    ensures var plan := PlanFor(kind, keys, title, publicKey, force).value;
            var after := Applied(kind, keys, title, publicKey, plan, id);
            PlanFor(kind, after, title, publicKey, again) == Ok(Reuse) <==> Normalized(publicKey).Some?
  {
    var plan := PlanFor(kind, keys, title, publicKey, force).value;
    var after := Applied(kind, keys, title, publicKey, plan, id);
    var made := NewKey(kind, id, title, publicKey);
    NothingBlocks(kind, after, title, publicKey);
    forall i | 0 <= i < |after|
      ensures after[i] in after && (InTheWay(kind, after[i], title, publicKey) ==> after[i] == made)
    {
      AppliedExactly(kind, keys, title, publicKey, force, id, after[i]);
    }
    if Normalized(publicKey).Some? {
      assert Matches(kind, made, title, publicKey);
      if HasMatch(kind, keys, title, publicKey) {
        var i :| 0 <= i < |keys| && Matches(kind, keys[i], title, publicKey);
        AppliedExactly(kind, keys, title, publicKey, force, id, keys[i]);
        var j :| 0 <= j < |after| && after[j] == keys[i];
      } else {
        AppliedExactly(kind, keys, title, publicKey, force, id, made);
        var j :| 0 <= j < |after| && after[j] == made;
      }
    }
  }

  lemma {:induction false} WithoutUnique(keys: seq<RemoteKey>, ids: seq<nat>)
    requires UniqueIds(keys)
    ensures UniqueIds(Without(keys, ids))
  {
    if keys != [] {
      var rest := Without(keys[1..], ids);
      assert UniqueIds(keys[1..]) by {
        assert forall i :: 0 <= i < |keys| - 1 ==> keys[1..][i] == keys[i + 1];
      }
      WithoutUnique(keys[1..], ids);
      if keys[0].id !in ids {
        forall i | 0 <= i < |rest| ensures rest[i].id != keys[0].id {
          WithoutKeeps(keys[1..], ids, rest[i]);
          var j :| 0 <= j < |keys[1..]| && keys[1..][j] == rest[i];
          assert keys[j + 1] == rest[i];
        }
        assert Without(keys, ids) == [keys[0]] + rest;
      } else {
        assert Without(keys, ids) == rest;
      }
    }
  }

  /** However far a forced application got before a call failed, forcing once more settles it: the plan made
      from what was left asks for nothing after it is applied, exactly when the public key is well formed. */
  lemma ForceRecovers(kind: Kind, keys: seq<RemoteKey>, title: string, publicKey: string, deleted: nat, again: bool,
        id: nat)
    requires UniqueIds(keys) && PlanFor(kind, keys, title, publicKey, true).Ok?
    requires var plan := PlanFor(kind, keys, title, publicKey, true).value;
             deleted <= if plan.Replace? then |plan.ids| else 0
    ensures var plan := PlanFor(kind, keys, title, publicKey, true).value;
            var left := if plan.Replace? then Without(keys, plan.ids[..deleted]) else keys;
            && PlanFor(kind, left, title, publicKey, true).Ok?
            && var retry := PlanFor(kind, left, title, publicKey, true).value;
               var after := Applied(kind, left, title, publicKey, retry, id);
               PlanFor(kind, after, title, publicKey, again) == Ok(Reuse) <==> Normalized(publicKey).Some?
  {
    var plan := PlanFor(kind, keys, title, publicKey, true).value;
    if plan.Replace? { WithoutUnique(keys, plan.ids[..deleted]); }
    var left := if plan.Replace? then Without(keys, plan.ids[..deleted]) else keys;
    Converges(kind, left, title, publicKey, true, again, id);
  }

  /** A malformed key is created again every time: the first key it made now stands in its own way. */
  lemma MalformedKeyConflicts()
    ensures PlanFor(Deploy, [], "laptop", "ssh-ed25519", false) == Ok(Create)
    ensures PlanFor(Deploy, [NewKey(Deploy, 1, "laptop", "ssh-ed25519")], "laptop", "ssh-ed25519", false).Err?
  {
    var key := "ssh-ed25519";
    assert SkipWhite(key) == key;
    NoSecondField(key);
    var keys := [NewKey(Deploy, 1, "laptop", key)];
    assert InTheWay(Deploy, keys[0], "laptop", key);
    NothingBlocks(Deploy, keys, "laptop", key);
  }

  lemma {:induction false} WholeField(s: string)
    requires forall i :: 0 <= i < |s| ==> !White(s[i])
    ensures FieldLength(s) == |s|
  {
    if s != "" { WholeField(s[1..]); }
  }

  lemma NoSecondField(s: string)
    requires s != "" && forall i :: 0 <= i < |s| ==> !White(s[i])
    ensures Normalized(s) == None
  {
    WholeField(s);
    assert s[|s|..] == "";
  }
}
