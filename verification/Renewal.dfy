/** When a launch renews its staged credential, and how often it may fail to. Times are nanoseconds. */
module Renewal {
  import opened Wrappers

  const SECOND := 1_000_000_000
  const ADVANCE := 300 * SECOND
  const RETRY := 30 * SECOND

  /** The earliest instant the platform clock can represent. */
  const EARLIEST := -0x8000_0000_0000_0000 * SECOND

  datatype Error = Unavailable | Credential | Expired | Staging

  datatype Time = Time(wall: int, monotonic: nat)

  function Min(a: int, b: int): int { if a < b then a else b }

  function RenewalAt(expiresAt: int, now: int): Result<int, Error> {
    if expiresAt <= now then Err(Expired) else
    var at := expiresAt - Min(ADVANCE, (expiresAt - now) / 10);
    if at < EARLIEST then Err(Credential) else Ok(at)
  }

  /** Renewal at `at` is strictly after the check and no later than the expiry, ahead of it by five minutes, or by a
      tenth of what remained at the check, to the nanosecond, where that is less. */
  predicate InTime(expiresAt: int, checkedAt: int, at: int) {
    && checkedAt < at <= expiresAt
    && expiresAt - at <= ADVANCE
    && 10 * (expiresAt - at) <= expiresAt - checkedAt
    && (expiresAt - at == ADVANCE || 10 * (expiresAt - at + 1) > expiresAt - checkedAt)
  }

  /** An unexpired grant is renewed in time, and only an expired grant is refused. */
  lemma RenewalInTime(expiresAt: int, now: int)
    requires EARLIEST <= now
    ensures expiresAt <= now ==> RenewalAt(expiresAt, now) == Err(Expired)
    ensures now < expiresAt ==> var r := RenewalAt(expiresAt, now); r.Ok? && InTime(expiresAt, now, r.value)
  {
    if now < expiresAt { Tenth(expiresAt - now); }
  }

  lemma Tenth(n: nat)
    ensures 10 * (n / 10) <= n < 10 * (n / 10 + 1)
  {
  }

  // ---------- Sessions ----------

  datatype Attempt = NoAttempt | Failed(at: Time)

  /** A grant that was staged, and the wall clock when its expiry was checked. */
  datatype Staged = Staged(expiresAt: int, checkedAt: int)

  datatype State = State(expiresAt: int, renewAt: int, attempted: Attempt, staged: seq<Staged>)

  /** What one tick meets: the clock, the issuer's answer (an expiry), the wall clock after it, whether the
      staging succeeded, and the clock when a failure is recorded. */
  datatype Env = Env(now: Time, issued: Result<int, Error>, checked: int, stagingOk: bool, later: Time)

  datatype Outcome = Unchanged | Replaced | Retrying

  function SaturatingSub(a: nat, b: nat): nat { if a < b then 0 else a - b }

  predicate RetryDue(a: Time, now: Time) {
    || SaturatingSub(now.monotonic, a.monotonic) >= RETRY
    || now.wall - a.wall >= RETRY
  }

  predicate Due(s: State, now: Time) {
    now.wall >= s.renewAt && (s.attempted.Failed? ==> RetryDue(s.attempted.at, now))
  }

  function Renew(s: State, e: Env): Result<State, Error> {
    match e.issued
    case Err(error) => Err(error)
    case Ok(expiresAt) =>
      match RenewalAt(expiresAt, e.checked)
      case Err(error) => Err(error)
      case Ok(at) =>
        if !e.stagingOk then Err(Staging)
        else Ok(State(expiresAt, at, NoAttempt, s.staged + [Staged(expiresAt, e.checked)]))
  }

  function Tick(s: State, e: Env): (State, Outcome) {
    if !Due(s, e.now) then (s, Unchanged) else
    match Renew(s, e)
    case Ok(t) => (t, Replaced)
    case Err(_) => (s.(attempted := Failed(e.later)), Retrying)
  }

  function Create(e: Env): Result<State, Error> {
    Renew(State(0, 0, NoAttempt, []), e)
  }

  class Session {
    var expiresAt: int
    var renewAt: int
    var attempted: Attempt
    ghost var staged: seq<Staged>

    ghost function Value(): State
      reads this
    {
      State(expiresAt, renewAt, attempted, staged)
    }

    constructor (expires: int, at: int, ghost history: seq<Staged>)
      ensures Value() == State(expires, at, NoAttempt, history)
    {
      expiresAt, renewAt, attempted, staged := expires, at, NoAttempt, history;
    }

    /** The first grant is checked and staged before there is a session at all. */
    static method Open(e: Env) returns (s: Session?)
      ensures match Create(e)
              case Ok(t) => s != null && fresh(s) && s.Value() == t
              case Err(_) => s == null
    {
      if e.issued.Err? { return null; }
      var at := RenewalAt(e.issued.value, e.checked);
      if at.Err? || !e.stagingOk { return null; }
      s := new Session(e.issued.value, at.value, [] + [Staged(e.issued.value, e.checked)]);
    }

    method RenewNow(e: Env) returns (ok: bool)
      modifies this
      ensures match Renew(old(Value()), e)
              case Ok(t) => ok && Value() == t
              case Err(_) => !ok && Value() == old(Value())
    {
      if e.issued.Err? { return false; }
      var at := RenewalAt(e.issued.value, e.checked);
      if at.Err? || !e.stagingOk { return false; }
      staged := staged + [Staged(e.issued.value, e.checked)];
      expiresAt := e.issued.value;
      renewAt := at.value;
      attempted := NoAttempt;
      ok := true;
    }

    method TickNow(e: Env) returns (outcome: Outcome)
      modifies this
      ensures (Value(), outcome) == Tick(old(Value()), e)
    {
      if e.now.wall < renewAt || (attempted.Failed? && !RetryDue(attempted.at, e.now)) {
        return Unchanged;
      }
      var ok := RenewNow(e);
      if ok { return Replaced; }
      attempted := Failed(e.later);
      outcome := Retrying;
    }
  }

  // ---------- Over any sequence of ticks ----------

  function Run(s: State, es: seq<Env>): State
    decreases |es|
  {
    if es == [] then s else Run(Tick(s, es[0]).0, es[1..])
  }

  /** The moments at which failures were recorded, by the monotonic clock. */
  function Failures(s: State, es: seq<Env>): seq<nat>
    decreases |es|
  {
    if es == [] then [] else
    (if Tick(s, es[0]).1 == Retrying then [es[0].later.monotonic] else []) + Failures(Tick(s, es[0]).0, es[1..])
  }

  /** The issuer refuses, or what it issues is expired, or staging it fails. */
  predicate Refused(e: Env) {
    e.issued.Err? || RenewalAt(e.issued.value, e.checked).Err? || !e.stagingOk
  }

  /** While every renewal fails, however many ticks, nothing is extended: expiry, renewal time and what is staged
      stay as they were, and what is remembered of the attempts is the last one recorded. */
  lemma {:induction false} OutageExtendsNothing(s: State, es: seq<Env>)
    requires forall e :: e in es ==> Refused(e)
    ensures var (t, fs) := (Run(s, es), Failures(s, es));
            && t.expiresAt == s.expiresAt && t.renewAt == s.renewAt && t.staged == s.staged
            && if fs == [] then t.attempted == s.attempted
               else t.attempted.Failed? && t.attempted.at.monotonic == fs[|fs| - 1]
    decreases |es|
  {
    if es != [] {
      assert es[0] in es;
      var u, rest := Tick(s, es[0]).0, Failures(Tick(s, es[0]).0, es[1..]);
      OutageExtendsNothing(u, es[1..]);
      if Tick(s, es[0]).1 == Retrying {
        assert Failures(s, es) == [es[0].later.monotonic] + rest;
      } else {
        assert Failures(s, es) == rest;
      }
    }
  }

  /** The tick is due, said of its clocks and the failure remembered. */
  predicate DueNow(s: State, now: Time) {
    && s.renewAt <= now.wall
    && (s.attempted.Failed? ==>
         s.attempted.at.monotonic + RETRY <= now.monotonic || s.attempted.at.wall + RETRY <= now.wall)
  }

  /** What it meets is good: a grant is issued that has not expired, and staging it succeeds. */
  predicate Good(e: Env) {
    e.issued.Ok? && e.checked < e.issued.value && e.stagingOk
  }

  /** What a tick does, in every case: nothing before it is due; with something good it stages the new grant and
      renews that in time; otherwise it records the failed attempt and keeps everything else. */
  lemma TickExactly(s: State, e: Env)
    requires EARLIEST <= e.checked
    ensures var (t, outcome) := Tick(s, e);
      if !DueNow(s, e.now) then outcome == Unchanged && t == s
      else if !Good(e) then outcome == Retrying && t == s.(attempted := Failed(e.later))
      else
        && outcome == Replaced && t.expiresAt == e.issued.value && t.attempted == NoAttempt
        && t.staged == s.staged + [Staged(e.issued.value, e.checked)]
        && InTime(e.issued.value, e.checked, t.renewAt)
  {
    if e.issued.Ok? { RenewalInTime(e.issued.value, e.checked); }
  }

  /** Every credential staged was unexpired when it was checked, the expiry kept is that of the last, and its renewal
      is in time. */
  predicate Sound(s: State) {
    && (forall g :: g in s.staged ==> g.checkedAt < g.expiresAt)
    && s.staged != []
    && var last := s.staged[|s.staged| - 1];
       last.expiresAt == s.expiresAt && InTime(last.expiresAt, last.checkedAt, s.renewAt)
  }

  lemma TickSound(s: State, e: Env)
    requires Sound(s) && EARLIEST <= e.checked
    ensures Sound(Tick(s, e).0)
  {
    TickExactly(s, e);
    hide Tick, InTime;
  }

  /** What a tick stages: the grant issued, if it is due and good. */
  function StagedNow(s: State, e: Env): seq<Staged> {
    if DueNow(s, e.now) && Good(e) then [Staged(e.issued.value, e.checked)] else []
  }

  lemma TickStages(s: State, e: Env)
    requires EARLIEST <= e.checked
    ensures Tick(s, e).0.staged == s.staged + StagedNow(s, e)
  {
    TickExactly(s, e);
    hide Tick, InTime, DueNow;
    assert s.staged + [] == s.staged;
  }

  /** The grants that a run stages, in order. */
  function StagedInRun(s: State, es: seq<Env>): seq<Staged>
    decreases |es|
  {
    if es == [] then [] else StagedNow(s, es[0]) + StagedInRun(Tick(s, es[0]).0, es[1..])
  }

  lemma StagedAssociates(a: seq<Staged>, b: seq<Staged>, c: seq<Staged>)
    ensures (a + b) + c == a + (b + c)
  {
  }

  /** Over any run soundness is kept, and what has been staged is exactly what was issued and good when due. */
  lemma {:induction false} StagedUnexpired(s: State, es: seq<Env>)
    requires Sound(s) && forall e :: e in es ==> EARLIEST <= e.checked
    ensures Sound(Run(s, es)) && Run(s, es).staged == s.staged + StagedInRun(s, es)
    decreases |es|
  {
    hide Tick, Sound, StagedNow;
    if es == [] {
      assert s.staged + [] == s.staged;
    } else {
      assert es[0] in es;
      TickStages(s, es[0]);
      TickSound(s, es[0]);
      var t := Tick(s, es[0]).0;
      StagedUnexpired(t, es[1..]);
      StagedAssociates(s.staged, StagedNow(s, es[0]), StagedInRun(t, es[1..]));
    }
  }

  /** A session is created exactly from a good first grant, and is sound. */
  lemma CreatedSound(e: Env)
    requires EARLIEST <= e.checked
    ensures Create(e).Ok? <==> Good(e)
    ensures Create(e).Ok? ==>
      && Sound(Create(e).value) && Create(e).value.attempted == NoAttempt
      && Create(e).value.staged == [Staged(e.issued.value, e.checked)]
  {
    if e.issued.Ok? { RenewalInTime(e.issued.value, e.checked); }
  }

  /** Over every run of a session from its creation, renewal stays ahead of the expiry kept by the exact advance of
      the last grant staged. */
  lemma AlwaysInTime(first: Env, es: seq<Env>)
    requires EARLIEST <= first.checked && Good(first) && forall e :: e in es ==> EARLIEST <= e.checked
    ensures Create(first).Ok?
    ensures var s := Run(Create(first).value, es);
            var all := [Staged(first.issued.value, first.checked)] + StagedInRun(Create(first).value, es);
            && s.staged == all && s.expiresAt == all[|all| - 1].expiresAt
            && InTime(s.expiresAt, all[|all| - 1].checkedAt, s.renewAt)
  {
    CreatedSound(first);
    StagedUnexpired(Create(first).value, es);
  }

  /** The monotonic clock does not go back: each tick starts no earlier than the last one, and no earlier than a
      failure recorded at its end. */
  predicate Forward(s: State, es: seq<Env>, from: nat)
    decreases |es|
  {
    es != [] ==>
      var (t, outcome) := Tick(s, es[0]);
      && from <= es[0].now.monotonic
      && (outcome == Retrying ==> es[0].now.monotonic <= es[0].later.monotonic)
      && Forward(t, es[1..], if outcome == Retrying then es[0].later.monotonic else es[0].now.monotonic)
  }

  /** From one moment to another the wall clock does not gain a retry interval in less monotonic time. It may run
      slow, stand still or go back. */
  predicate NoLeap(a: Time, b: Time) {
    b.wall - a.wall >= RETRY ==> b.monotonic - a.monotonic >= RETRY
  }

  /** A tick that tries to renew after a failure. */
  predicate Retries(s: State, e: Env) {
    s.attempted.Failed? && Tick(s, e).1 != Unchanged
  }

  /** No leap from a failure to the tick that tries again. */
  predicate Leapless(s: State, es: seq<Env>)
    decreases |es|
  {
    es != [] ==> (Retries(s, es[0]) ==> NoLeap(s.attempted.at, es[0].now)) && Leapless(Tick(s, es[0]).0, es[1..])
  }

  /** Every retry starts at least a retry interval after the failure it follows. */
  predicate RetriesSpaced(s: State, es: seq<Env>)
    decreases |es|
  {
    es != [] ==>
      && (Retries(s, es[0]) ==> s.attempted.at.monotonic + RETRY <= es[0].now.monotonic)
      && RetriesSpaced(Tick(s, es[0]).0, es[1..])
  }

  /** Over any run, whatever its clocks do, the retries are spaced exactly when none follows a leap. */
  lemma {:induction false} RetriesSpacedExactly(s: State, es: seq<Env>)
    ensures RetriesSpaced(s, es) <==> Leapless(s, es)
    decreases |es|
  {
    if es != [] { RetriesSpacedExactly(Tick(s, es[0]).0, es[1..]); }
  }

  predicate Spaced(fs: seq<nat>) {
    forall i :: 0 <= i < |fs| - 1 ==> fs[i] + RETRY <= fs[i + 1]
  }

  /** The state remembers a failure at `last`, or a renewal made at least a retry interval after it. */
  predicate Remembers(s: State, last: Time, from: nat) {
    s.attempted == Failed(last) || (s.attempted == NoAttempt && last.monotonic + RETRY <= from)
  }

  lemma {:induction false} FailuresAfter(s: State, es: seq<Env>, from: nat, last: Time)
    requires Forward(s, es, from) && Leapless(s, es)
    requires Remembers(s, last, from) && last.monotonic <= from
    ensures Spaced([last.monotonic] + Failures(s, es))
    decreases |es|
  {
    if es != [] {
      var e, t := es[0], Tick(s, es[0]).0;
      var rest := Failures(t, es[1..]);
      if Tick(s, e).1 == Retrying {
        FailuresAfter(t, es[1..], e.later.monotonic, e.later);
        var now := [e.later.monotonic] + rest;
        assert forall i :: 0 <= i < |[last.monotonic] + now| - 1 ==>
          ([last.monotonic] + now)[i + 1] == now[i] && (i > 0 ==> ([last.monotonic] + now)[i] == now[i - 1]);
      } else {
        FailuresAfter(t, es[1..], e.now.monotonic, last);
        assert [] + rest == rest;
      }
    }
  }

  /** From a session that has not failed yet, failures are always a full retry interval apart, renewals in
      between or not, as long as no retry follows a leap of the wall clock. */
  lemma {:induction false} FailuresSpaced(s: State, es: seq<Env>, from: nat)
    requires Forward(s, es, from) && Leapless(s, es) && s.attempted == NoAttempt
    ensures Spaced(Failures(s, es))
    decreases |es|
  {
    if es != [] {
      var e, t := es[0], Tick(s, es[0]).0;
      if Tick(s, e).1 == Retrying {
        FailuresAfter(t, es[1..], e.later.monotonic, e.later);
      } else {
        FailuresSpaced(t, es[1..], e.now.monotonic);
        assert [] + Failures(t, es[1..]) == Failures(t, es[1..]);
      }
    }
  }

  lemma {:induction false} SpreadOut(fs: seq<nat>)
    requires Spaced(fs) && fs != []
    ensures fs[0] + (|fs| - 1) * RETRY <= fs[|fs| - 1]
  {
    if |fs| > 1 {
      var shorter := fs[..|fs| - 1];
      assert forall i :: 0 <= i < |shorter| - 1 ==> shorter[i] + RETRY <= shorter[i + 1];
      SpreadOut(shorter);
    }
  }

  /** Within any span of T there are at most T/30s + 1 failed attempts. */
  lemma FailuresBounded(s: State, es: seq<Env>, from: nat, i: nat, j: nat, span: nat)
    requires Forward(s, es, from) && Leapless(s, es) && s.attempted == NoAttempt
    requires i <= j < |Failures(s, es)| && Failures(s, es)[j] - Failures(s, es)[i] <= span
    ensures j - i + 1 <= span / RETRY + 1
  {
    FailuresSpaced(s, es, from);
    SpreadOut(Failures(s, es)[i..j + 1]);
    Quotient(j - i, span);
  }

  lemma Quotient(k: nat, span: nat)
    requires k * RETRY <= span
    ensures k <= span / RETRY
  {
    assert span == span / RETRY * RETRY + span % RETRY;
  }

  /** After a failure and once renewal is due, a tick in less monotonic time than a retry interval tries again
      exactly when the wall clock has gained the interval since. */
  lemma EarlyRetryExactly(s: State, e: Env)
    requires s.attempted.Failed? && s.renewAt <= e.now.wall
    requires e.now.monotonic < s.attempted.at.monotonic + RETRY
    ensures Tick(s, e).1 != Unchanged <==> !NoLeap(s.attempted.at, e.now)
  {
  }

  /** Two ticks one nanosecond apart between which the wall clock is set forward by the interval. */
  function LeapingTicks(): seq<Env> {
    [Env(Time(0, 0), Err(Unavailable), 0, false, Time(0, 0)),
     Env(Time(RETRY, 1), Err(Unavailable), 0, false, Time(RETRY, 1))]
  }

  /** A run in which a leap of the wall clock breaks the bound: two failures within a nanosecond. */
  lemma LeapBreaksBound(s: State)
    requires s.renewAt <= 0 && s.attempted == NoAttempt
    ensures var es := LeapingTicks();
            && Forward(s, es, 0) && !Leapless(s, es)
            && Failures(s, es) == [0, 1] && !Spaced(Failures(s, es))
            && 2 > (1 - 0) / RETRY + 1
  {
    var es := LeapingTicks();
    var t := Tick(s, es[0]).0;
    var u := Tick(t, es[1]).0;
    assert Forward(u, es[1..][1..], 1) && Failures(u, es[1..][1..]) == [];
    assert Forward(t, es[1..], 0) && Failures(t, es[1..]) == [1] + Failures(u, es[1..][1..]);
    assert Retries(t, es[1..][0]) && !NoLeap(t.attempted.at, es[1..][0].now);
    assert Failures(s, es) == [0] + Failures(t, es[1..]);
    assert Failures(s, es)[0] + RETRY > Failures(s, es)[1];
  }
}
