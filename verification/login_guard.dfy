/** The lockout of the login endpoint: recent failures are counted per address and per user name, and reaching the
    threshold closes the address or the name for a while. */
module LoginGuard {

  type Ip = string
  type User = string

  datatype Settings = Settings(maxAttempts: int, lockoutTime: real, attemptWindow: real)

  /** Recorded failures of one address or name, and the time until which it is locked. */
  datatype Gate = Gate(attempts: seq<real>, lockedUntil: real)

  /** How the credentials of an attempt fare; a failure is charged to the name only when the name is known. */
  datatype Credentials = Malformed | Wrong(userKnown: bool) | Incomplete | Right

  datatype Attempt = Attempt(time: real, ip: Ip, user: User, creds: Credentials)

  datatype Verdict = Refused | Invalid | Failure(locked: bool) | NeedsMore | Admitted

  datatype Guard = Guard(byIp: map<Ip, Gate>, byUser: map<User, Gate>)

  function Recent(ts: seq<real>, now: real, span: real): seq<real> {
    if ts == [] then []
    else Recent(ts[..|ts| - 1], now, span) + if now - ts[|ts| - 1] < span then [ts[|ts| - 1]] else []
  }

  /** An address or name without an entry has no failures and is open. */
  function GateOf(m: map<string, Gate>, key: string): Gate { if key in m then m[key] else Gate([], 0.0) }

  predicate Locked(m: map<string, Gate>, key: string, now: real) { key in m && m[key].lockedUntil > now }

  function PruneGate(g: Gate, now: real, span: real): Gate { g.(attempts := Recent(g.attempts, now, span)) }

  function Prune(m: map<string, Gate>, key: string, now: real, span: real): map<string, Gate> {
    if key in m then m[key := PruneGate(m[key], now, span)] else m
  }

  /** With one more failure the recent ones reach the threshold. */
  predicate Trips(g: Gate, now: real, threshold: int, c: Settings) {
    |Recent(g.attempts + [now], now, c.attemptWindow)| >= threshold
  }

  function ChargeGate(g: Gate, now: real, threshold: int, c: Settings): Gate {
    Gate(g.attempts + [now], if Trips(g, now, threshold, c) then now + c.lockoutTime else g.lockedUntil)
  }

  function Charge(m: map<string, Gate>, key: string, now: real, threshold: int, c: Settings): map<string, Gate> {
    m[key := ChargeGate(GateOf(m, key), now, threshold, c)]
  }

  /** Address and name are open and pruned: what the credentials lead to. */
  function Decide(c: Settings, s: Guard, a: Attempt): (Guard, Verdict) {
    match a.creds
    case Wrong(known) =>
      (Guard(Charge(s.byIp, a.ip, a.time, c.maxAttempts, c),
             if known then Charge(s.byUser, a.user, a.time, c.maxAttempts * 2, c) else s.byUser),
       Failure(Trips(GateOf(s.byIp, a.ip), a.time, c.maxAttempts, c) ||
               (known && Trips(GateOf(s.byUser, a.user), a.time, c.maxAttempts * 2, c))))
    case Right => (Guard(s.byIp - {a.ip}, s.byUser - {a.user}), Admitted)
    case _ => (s, NeedsMore)
  }

  function Login(c: Settings, s: Guard, a: Attempt): (Guard, Verdict) {
    if Locked(s.byIp, a.ip, a.time) then (s, Refused)
    else
      var s1 := s.(byIp := Prune(s.byIp, a.ip, a.time, c.attemptWindow));
      if a.creds.Malformed? then (s1, Invalid)
      else if Locked(s1.byUser, a.user, a.time) then (s1, Refused)
      else
        Decide(c, s1.(byUser := Prune(s1.byUser, a.user, a.time, c.attemptWindow)), a)
  }

  /** The entry of `key` lost its failures that are not recent; nothing else changed. */
  ghost predicate OnlyPruned(before: map<string, Gate>, after: map<string, Gate>, key: string, now: real, span: real) {
    && after.Keys == before.Keys
    && (forall k :: k in before && k != key ==> after[k] == before[k])
    && (key in before ==> after[key] == Gate(Recent(before[key].attempts, now, span), before[key].lockedUntil))
  }

  /** The entry of `key` has the new failure after its recent ones; nothing else changed. */
  ghost predicate OnlyCharged(before: map<string, Gate>, after: map<string, Gate>, key: string, now: real, span: real) {
    && after.Keys == before.Keys + {key}
    && (forall k :: k in before && k != key ==> after[k] == before[k])
    && after[key].attempts == (if key in before then Recent(before[key].attempts, now, span) else []) + [now]
  }

  /** When each verdict is given and what it does to the two tables: an attempt is admitted exactly when address and
      name are open and the credentials are right, and only then are failures forgotten that are still recent. */
  lemma LoginVerdicts(c: Settings, s: Guard, a: Attempt)
    ensures var (t, v) := Login(c, s, a);
            var ipShut := a.ip in s.byIp && s.byIp[a.ip].lockedUntil > a.time;
            var userShut := a.user in s.byUser && s.byUser[a.user].lockedUntil > a.time;
            && (v == Refused <==> ipShut || (a.creds != Malformed && userShut))
            && (v == Invalid <==> !ipShut && a.creds == Malformed)
            && (v == Admitted <==> !ipShut && !userShut && a.creds == Right)
            && (v == NeedsMore <==> !ipShut && !userShut && a.creds == Incomplete)
            && (v.Failure? <==> !ipShut && !userShut && a.creds.Wrong?)
            && (ipShut ==> t == s)
            && (v == Invalid || (v == Refused && !ipShut) ==>
                  t.byUser == s.byUser && OnlyPruned(s.byIp, t.byIp, a.ip, a.time, c.attemptWindow))
            && (v == NeedsMore ==>
                  && OnlyPruned(s.byIp, t.byIp, a.ip, a.time, c.attemptWindow)
                  && OnlyPruned(s.byUser, t.byUser, a.user, a.time, c.attemptWindow))
            && (v == Admitted ==> t.byIp == s.byIp - {a.ip} && t.byUser == s.byUser - {a.user})
  {
  }

  lemma ChargedEntry(m: map<string, Gate>, key: string, now: real, threshold: int, c: Settings)
    requires !Locked(m, key, now)
    ensures var pruned := Prune(m, key, now, c.attemptWindow); var after := Charge(pruned, key, now, threshold, c);
            && OnlyCharged(m, after, key, now, c.attemptWindow)
            && (c.lockoutTime > 0.0 && now >= 0.0 ==>
                  (Trips(GateOf(pruned, key), now, threshold, c) <==> key in after && after[key].lockedUntil > now))
  {
  }

  lemma FailureShape(c: Settings, s: Guard, a: Attempt)
    requires Login(c, s, a).1.Failure?
    ensures var (t, v) := Login(c, s, a);
            var byIp := Prune(s.byIp, a.ip, a.time, c.attemptWindow);
            var byUser := Prune(s.byUser, a.user, a.time, c.attemptWindow);
            && a.creds.Wrong? && !Locked(s.byIp, a.ip, a.time) && !Locked(s.byUser, a.user, a.time)
            && t.byIp == Charge(byIp, a.ip, a.time, c.maxAttempts, c)
            && t.byUser == (if a.creds.userKnown then Charge(byUser, a.user, a.time, c.maxAttempts * 2, c) else byUser)
            && v.locked == (Trips(GateOf(byIp, a.ip), a.time, c.maxAttempts, c) ||
                            (a.creds.userKnown && Trips(GateOf(byUser, a.user), a.time, c.maxAttempts * 2, c)))
  {
  }

  /** A failure is charged to the address, and to the name if that is known; it says `locked` exactly when it leaves one
      of the two locked. */
  lemma FailureVerdict(c: Settings, s: Guard, a: Attempt)
    requires Login(c, s, a).1.Failure?
    ensures var (t, v) := Login(c, s, a);
            && a.creds.Wrong?
            && OnlyCharged(s.byIp, t.byIp, a.ip, a.time, c.attemptWindow)
            && (if a.creds.userKnown then OnlyCharged(s.byUser, t.byUser, a.user, a.time, c.attemptWindow)
                else OnlyPruned(s.byUser, t.byUser, a.user, a.time, c.attemptWindow))
            && (c.lockoutTime > 0.0 && a.time >= 0.0 ==>
                  (v.locked <==>
                    || (a.ip in t.byIp && t.byIp[a.ip].lockedUntil > a.time)
                    || (a.creds.userKnown && a.user in t.byUser && t.byUser[a.user].lockedUntil > a.time)))
  {
    FailureShape(c, s, a);
    ChargedEntry(s.byIp, a.ip, a.time, c.maxAttempts, c);
    ChargedEntry(s.byUser, a.user, a.time, c.maxAttempts * 2, c);
  }

  class LoginEndpoint {
    const settings: Settings
    var byIp: map<Ip, Gate>
    var byUser: map<User, Gate>

    constructor (settings: Settings)
      ensures this.settings == settings && byIp == map[] && byUser == map[]
    {
      this.settings, byIp, byUser := settings, map[], map[];
    }

    method AuthLogin(a: Attempt) returns (v: Verdict)
      modifies this
      ensures (Guard(byIp, byUser), v) == Login(settings, Guard(old(byIp), old(byUser)), a)
      ensures var ipShut := a.ip in old(byIp) && old(byIp)[a.ip].lockedUntil > a.time;
              var userShut := a.user in old(byUser) && old(byUser)[a.user].lockedUntil > a.time;
              && (v == Admitted <==> !ipShut && !userShut && a.creds == Right)
              && (v == NeedsMore <==> !ipShut && !userShut && a.creds == Incomplete)
              && (v.Failure? <==> !ipShut && !userShut && a.creds.Wrong?)
              && (v == Refused <==> ipShut || (a.creds != Malformed && userShut))
      ensures v == Admitted ==> byIp == old(byIp) - {a.ip} && byUser == old(byUser) - {a.user}
    {
      if a.ip in byIp {
        if byIp[a.ip].lockedUntil > a.time { return Refused; }
        byIp := byIp[a.ip := byIp[a.ip].(attempts := Recent(byIp[a.ip].attempts, a.time, settings.attemptWindow))];
      }
      if a.creds.Malformed? { return Invalid; }
      if a.user in byUser {
        if byUser[a.user].lockedUntil > a.time { return Refused; }
        var recent := Recent(byUser[a.user].attempts, a.time, settings.attemptWindow);
        byUser := byUser[a.user := byUser[a.user].(attempts := recent)];
      }
      match a.creds
      case Wrong(known) =>
        var locked := RecordFailedAttempt(a, known);
        v := Failure(locked);
      case Right =>
        byIp, byUser := byIp - {a.ip}, byUser - {a.user};
        v := Admitted;
      case _ => v := NeedsMore;
    }

    method RecordFailedAttempt(a: Attempt, known: bool) returns (locked: bool)
      modifies this
      ensures byIp == Charge(old(byIp), a.ip, a.time, settings.maxAttempts, settings)
      ensures byUser == if known then Charge(old(byUser), a.user, a.time, settings.maxAttempts * 2, settings)
              else old(byUser)
      ensures locked == (Trips(GateOf(old(byIp), a.ip), a.time, settings.maxAttempts, settings) ||
                         (known && Trips(GateOf(old(byUser), a.user), a.time, settings.maxAttempts * 2, settings)))
    {
      locked := false;
      var g := GateOf(byIp, a.ip);
      g := g.(attempts := g.attempts + [a.time]);
      if |Recent(g.attempts, a.time, settings.attemptWindow)| >= settings.maxAttempts {
        g, locked := g.(lockedUntil := a.time + settings.lockoutTime), true;
      }
      byIp := byIp[a.ip := g];
      if known {
        var u := GateOf(byUser, a.user);
        u := u.(attempts := u.attempts + [a.time]);
        if |Recent(u.attempts, a.time, settings.attemptWindow)| >= settings.maxAttempts * 2 {
          u, locked := u.(lockedUntil := a.time + settings.lockoutTime), true;
        }
        byUser := byUser[a.user := u];
      }
    }
  }

  // ---------------------------------------------------------------- recent failures

  ghost predicate Sorted(ts: seq<real>) { forall i, j :: 0 <= i < j < |ts| ==> ts[i] <= ts[j] }

  lemma {:induction false} NoneRecent(ts: seq<real>, now: real, span: real)
    requires forall i :: 0 <= i < |ts| ==> now - ts[i] >= span
    ensures Recent(ts, now, span) == []
  {
    if ts != [] { NoneRecent(ts[..|ts| - 1], now, span); }
  }

  /** `r` is the tail of `ts` that is recent. */
  ghost predicate IsTail(ts: seq<real>, r: seq<real>, now: real, span: real) {
    && |r| <= |ts| && r == ts[|ts| - |r|..]
    && forall i :: 0 <= i < |ts| ==> (now - ts[i] < span <==> i >= |ts| - |r|)
  }

  /** Of times in order, the recent ones are a tail. */
  lemma {:induction false} RecentIsTail(ts: seq<real>, now: real, span: real)
    requires Sorted(ts)
    ensures IsTail(ts, Recent(ts, now, span), now, span)
  {
    if ts != [] {
      var init, last := ts[..|ts| - 1], ts[|ts| - 1];
      assert ts == init + [last];
      if now - last < span {
        RecentIsTail(init, now, span);
        TailGrows(init, Recent(init, now, span), last, now, span);
      } else {
        NoneRecent(init, now, span);
      }
    }
  }

  lemma TailGrows(ts: seq<real>, r: seq<real>, last: real, now: real, span: real)
    requires IsTail(ts, r, now, span) && now - last < span
    ensures IsTail(ts + [last], r + [last], now, span)
  {
  }

  // ---------------------------------------------------------------- one address or one name over a run

  /** The failure `k` completes a group of `n` within the attempt window. */
  predicate Completes(fs: seq<real>, k: int, n: int, c: Settings)
    requires n >= 1
  {
    n - 1 <= k < |fs| && fs[k] - fs[k - n + 1] < c.attemptWindow
  }

  /** A completed group is followed by a pause of the lockout time. */
  ghost predicate Spaced(fs: seq<real>, n: int, c: Settings)
    requires n >= 1
  {
    forall k :: Completes(fs, k, n, c) && k + 1 < |fs| ==> fs[k + 1] >= fs[k] + c.lockoutTime
  }

  /** `ts` is a tail of `fs`, and what is before it is old. */
  ghost predicate Covers(ts: seq<real>, fs: seq<real>, now: real, span: real) {
    |ts| <= |fs| && ts == fs[|fs| - |ts|..] && forall i :: 0 <= i < |fs| - |ts| ==> now - fs[i] >= span
  }

  /** The lock reflects the failures: the newest completed group locks, and only a completed group ever did. */
  ghost predicate LockFits(until: real, fs: seq<real>, n: int, c: Settings)
    requires n >= 1
  {
    && (Completes(fs, |fs| - 1, n, c) ==> until >= fs[|fs| - 1] + c.lockoutTime)
    && (until == 0.0 || exists k :: Completes(fs, k, n, c) && until == fs[k] + c.lockoutTime)
  }

  /** `fs` are all failures charged to the gate so far. */
  ghost predicate Tracks(g: Gate, fs: seq<real>, now: real, n: int, c: Settings)
    requires n >= 1
  {
    && Sorted(fs) && (fs != [] ==> fs[|fs| - 1] <= now) && Spaced(fs, n, c)
    && Covers(g.attempts, fs, now, c.attemptWindow) && LockFits(g.lockedUntil, fs, n, c)
  }

  lemma PruneCovers(ts: seq<real>, fs: seq<real>, before: real, now: real, span: real)
    requires Sorted(fs) && Covers(ts, fs, before, span) && before <= now
    ensures Covers(Recent(ts, now, span), fs, now, span)
  {
    var p := |fs| - |ts|;
    assert forall i :: 0 <= i < |ts| ==> ts[i] == fs[p + i];
    RecentIsTail(ts, now, span);
    var q := |ts| - |Recent(ts, now, span)|;
    assert ts[q..] == fs[p + q..];
    forall i | 0 <= i < p + q ensures now - fs[i] >= span {
      if i >= p { assert now - ts[i - p] >= span; }
    }
  }

  lemma ChargeSpaced(fs: seq<real>, until: real, now: real, n: int, c: Settings)
    requires n >= 1 && Spaced(fs, n, c) && LockFits(until, fs, n, c) && until <= now
    ensures Spaced(fs + [now], n, c)
  {
    var fs' := fs + [now];
    forall k | Completes(fs', k, n, c) && k + 1 < |fs'| ensures fs'[k + 1] >= fs'[k] + c.lockoutTime {
      assert Completes(fs, k, n, c);
    }
  }

  lemma ChargeLock(fs: seq<real>, until: real, now: real, n: int, c: Settings)
    requires n >= 1 && LockFits(until, fs, n, c)
    ensures var fs' := fs + [now];
            LockFits(if Completes(fs', |fs'| - 1, n, c) then now + c.lockoutTime else until, fs', n, c)
  {
    var fs' := fs + [now];
    if until != 0.0 {
      var k :| Completes(fs, k, n, c) && until == fs[k] + c.lockoutTime;
      assert Completes(fs', k, n, c) && fs'[k] == fs[k];
    }
  }

  lemma ChargeCovers(ts: seq<real>, fs: seq<real>, now: real, span: real)
    requires Covers(ts, fs, now, span)
    ensures Covers(ts + [now], fs + [now], now, span)
  {
    assert ts + [now] == (fs + [now])[|fs| - |ts|..];
  }

  lemma SortedGrows(fs: seq<real>, now: real)
    requires Sorted(fs) && (fs != [] ==> fs[|fs| - 1] <= now)
    ensures Sorted(fs + [now])
  {
  }

  lemma ChargeTracks(g: Gate, fs: seq<real>, now: real, n: int, c: Settings)
    requires n >= 1 && Tracks(g, fs, now, n, c) && g.lockedUntil <= now
    ensures Tracks(ChargeGate(g, now, n, c), fs + [now], now, n, c)
  {
    var fs', ts := fs + [now], g.attempts + [now];
    ChargeCovers(g.attempts, fs, now, c.attemptWindow);
    SortedGrows(fs, now);
    TripsMeans(fs', ts, now, n, c);
    ChargeSpaced(fs, g.lockedUntil, now, n, c);
    ChargeLock(fs, g.lockedUntil, now, n, c);
  }

  /** The recent failures reach the threshold exactly when the newest one completes a group. */
  lemma TripsMeans(fs: seq<real>, ts: seq<real>, now: real, n: int, c: Settings)
    requires n >= 1 && Sorted(fs) && fs != [] && fs[|fs| - 1] == now && ts != [] && Covers(ts, fs, now, c.attemptWindow)
    ensures |Recent(ts, now, c.attemptWindow)| >= n <==> Completes(fs, |fs| - 1, n, c)
  {
    var p := |fs| - |ts|;
    assert forall i :: 0 <= i < |ts| ==> ts[i] == fs[p + i];
    RecentIsTail(ts, now, c.attemptWindow);
    var q := |ts| - |Recent(ts, now, c.attemptWindow)|;
    if n <= |fs| {
      var k := |fs| - n;
      if k >= p { assert fs[k] == ts[k - p]; }
    }
  }

  /** Failures that come less than the attempt window apart: beyond the first `n`, each follows the one before it
      by at least the lockout time. */
  lemma {:induction false} SpacedOut(fs: seq<real>, n: int, c: Settings, i: nat, j: nat)
    requires n >= 1 && Sorted(fs) && Spaced(fs, n, c)
    requires i + n - 1 <= j < |fs| && fs[j] - fs[i] < c.attemptWindow
    ensures fs[j] >= fs[i + n - 1] + Steps(j - i - n + 1, c.lockoutTime)
  {
    StepOn(j - i - n, c.lockoutTime);
    if j > i + n - 1 {
      SpacedOut(fs, n, c, i, j - 1);
      assert Completes(fs, j - 1, n, c);
    }
  }

  /** `k` steps of `t`. */
  function Steps(k: int, t: real): real { k as real * t }

  lemma StepOn(k: int, t: real)
    ensures Steps(k + 1, t) == Steps(k, t) + t && Steps(0, t) == 0.0
  {
    assert (k + 1) as real == k as real + 1.0;
  }

  // ---------------------------------------------------------------- runs

  function After(c: Settings, run: seq<Attempt>): Guard {
    if run == [] then Guard(map[], map[]) else Login(c, After(c, run[..|run| - 1]), run[|run| - 1]).0
  }

  function VerdictOf(c: Settings, run: seq<Attempt>): Verdict
    requires run != []
  {
    Login(c, After(c, run[..|run| - 1]), run[|run| - 1]).1
  }

  /** The times of the failures charged to an address. */
  function FailuresOf(c: Settings, run: seq<Attempt>, ip: Ip): seq<real> {
    if run == [] then []
    else
      var a := run[|run| - 1];
      FailuresOf(c, run[..|run| - 1], ip) + if a.ip == ip && VerdictOf(c, run).Failure? then [a.time] else []
  }

  /** The times of the failures charged to a user name. */
  function UserFailuresOf(c: Settings, run: seq<Attempt>, user: User): seq<real> {
    if run == [] then []
    else
      var a := run[|run| - 1];
      UserFailuresOf(c, run[..|run| - 1], user) +
      if a.user == user && VerdictOf(c, run).Failure? && a.creds.userKnown then [a.time] else []
  }

  ghost predicate InOrder(run: seq<Attempt>) {
    && (forall i :: 0 <= i < |run| ==> run[i].time >= 0.0)
    && (forall i, j :: 0 <= i < j < |run| ==> run[i].time <= run[j].time)
  }

  lemma SnocRun(c: Settings, run: seq<Attempt>, a: Attempt)
    ensures After(c, run + [a]) == Login(c, After(c, run), a).0
            && VerdictOf(c, run + [a]) == Login(c, After(c, run), a).1
  {
    assert (run + [a])[..|run + [a]| - 1] == run;
  }

  /** The gate is untouched, pruned, or pruned and charged while it is open. */
  predicate Touched(g: Gate, g': Gate, now: real, n: int, c: Settings, charged: bool) {
    var p := PruneGate(g, now, c.attemptWindow);
    if charged then g.lockedUntil <= now && g' == ChargeGate(p, now, n, c) else g' == g || g' == p
  }

  lemma PruneElsewhere(m: map<string, Gate>, key: string, k: string, now: real, span: real)
    ensures GateOf(Prune(m, key, now, span), k) == if k == key then PruneGate(GateOf(m, k), now, span) else GateOf(m, k)
  {
  }

  lemma ChargeElsewhere(m: map<string, Gate>, key: string, k: string, now: real, threshold: int, c: Settings)
    ensures GateOf(Charge(m, key, now, threshold, c), k)
            == if k == key then ChargeGate(GateOf(m, k), now, threshold, c) else GateOf(m, k)
  {
  }

  /** One of the two tables after an attempt: untouched while locked, else pruned and then charged or cleared. */
  function TableAfter(m: map<string, Gate>, key: string, now: real, n: int, c: Settings,
                      charged: bool, cleared: bool): map<string, Gate> {
    Settled(Prune(m, key, now, c.attemptWindow), key, now, n, c, charged, cleared)
  }

  lemma TableEffect(m: map<string, Gate>, key: string, k: string, now: real, n: int, c: Settings, charged: bool)
    requires now >= 0.0 && (charged ==> !Locked(m, key, now))
    ensures var after := TableAfter(m, key, now, n, c, charged, false);
            Touched(GateOf(m, k), GateOf(after, k), now, n, c, charged && k == key)
  {
    PruneElsewhere(m, key, k, now, c.attemptWindow);
    ChargeElsewhere(Prune(m, key, now, c.attemptWindow), key, k, now, n, c);
  }

  lemma TableElsewhere(m: map<string, Gate>, key: string, k: string, now: real, n: int, c: Settings,
                       charged: bool, cleared: bool)
    requires k != key
    ensures GateOf(TableAfter(m, key, now, n, c, charged, cleared), k) == GateOf(m, k)
  {
    PruneElsewhere(m, key, k, now, c.attemptWindow);
    ChargeElsewhere(Prune(m, key, now, c.attemptWindow), key, k, now, n, c);
  }

  /** One table once the credentials are judged. */
  function Settled(p: map<string, Gate>, key: string, now: real, n: int, c: Settings,
                   charged: bool, cleared: bool): map<string, Gate> {
    if charged then Charge(p, key, now, n, c) else if cleared then p - {key} else p
  }

  /** A known name is charged with the failure. */
  predicate Charged(a: Attempt, v: Verdict) { v.Failure? && a.creds.Wrong? && a.creds.userKnown }

  lemma DecideTables(c: Settings, s: Guard, a: Attempt)
    ensures var (t, v) := Decide(c, s, a);
            && !v.Refused? && !v.Invalid? && (v.Failure? <==> a.creds.Wrong?)
            && t.byIp == Settled(s.byIp, a.ip, a.time, c.maxAttempts, c, v.Failure?, v.Admitted?)
            && t.byUser == Settled(s.byUser, a.user, a.time, c.maxAttempts * 2, c, Charged(a, v), v.Admitted?)
  {
    var (t, v) := Decide(c, s, a);
    match a.creds
    case Wrong(known) =>
      assert t.byIp == Charge(s.byIp, a.ip, a.time, c.maxAttempts, c);
      assert t.byUser == if known then Charge(s.byUser, a.user, a.time, c.maxAttempts * 2, c) else s.byUser;
    case Right =>
    case Malformed =>
    case Incomplete =>
  }

  /** The attempt is judged by its user name: the address is open and the request well formed. */
  predicate Judged(s: Guard, a: Attempt) {
    !Locked(s.byIp, a.ip, a.time) && !a.creds.Malformed? && !Locked(s.byUser, a.user, a.time)
  }

  function Pruned(c: Settings, s: Guard, a: Attempt): Guard {
    Guard(Prune(s.byIp, a.ip, a.time, c.attemptWindow), Prune(s.byUser, a.user, a.time, c.attemptWindow))
  }

  lemma LoginShape(c: Settings, s: Guard, a: Attempt)
    ensures Judged(s, a) ==> Login(c, s, a) == Decide(c, Pruned(c, s, a), a)
    ensures !Judged(s, a) ==>
              var (t, v) := Login(c, s, a);
              && (v.Refused? || v.Invalid?) && t.byUser == s.byUser
              && t.byIp == if Locked(s.byIp, a.ip, a.time) then s.byIp else Prune(s.byIp, a.ip, a.time, c.attemptWindow)
  {
  }

  lemma LoginByIp(c: Settings, s: Guard, a: Attempt)
    ensures var (t, v) := Login(c, s, a);
            if Locked(s.byIp, a.ip, a.time) then t.byIp == s.byIp && (v.Refused? || v.Invalid?)
            else t.byIp == TableAfter(s.byIp, a.ip, a.time, c.maxAttempts, c, v.Failure?, v.Admitted?)
  {
    LoginShape(c, s, a);
    if Judged(s, a) { DecideTables(c, Pruned(c, s, a), a); }
  }

  lemma LoginByUser(c: Settings, s: Guard, a: Attempt)
    ensures var (t, v) := Login(c, s, a);
            if !Judged(s, a) then t.byUser == s.byUser && (v.Refused? || v.Invalid?)
            else t.byUser == TableAfter(s.byUser, a.user, a.time, c.maxAttempts * 2, c, Charged(a, v), v.Admitted?)
  {
    LoginShape(c, s, a);
    if Judged(s, a) { DecideTables(c, Pruned(c, s, a), a); }
  }

  /** What an attempt does to one address. */
  lemma IpEffect(c: Settings, s: Guard, a: Attempt, ip: Ip)
    requires a.time >= 0.0 && (a.ip == ip ==> !Login(c, s, a).1.Admitted?)
    ensures var (t, v) := Login(c, s, a); var charged := a.ip == ip && v.Failure?;
            Touched(GateOf(s.byIp, ip), GateOf(t.byIp, ip), a.time, c.maxAttempts, c, charged)
  {
    LoginByIp(c, s, a);
    var v := Login(c, s, a).1;
    if !Locked(s.byIp, a.ip, a.time) {
      if a.ip == ip {
        TableEffect(s.byIp, a.ip, ip, a.time, c.maxAttempts, c, v.Failure?);
      } else {
        TableElsewhere(s.byIp, a.ip, ip, a.time, c.maxAttempts, c, v.Failure?, v.Admitted?);
      }
    }
  }

  /** What an attempt does to one user name. */
  lemma UserEffect(c: Settings, s: Guard, a: Attempt, user: User)
    requires a.time >= 0.0 && (a.user == user ==> !Login(c, s, a).1.Admitted?)
    ensures var (t, v) := Login(c, s, a);
            var charged := a.user == user && v.Failure? && a.creds.userKnown;
            Touched(GateOf(s.byUser, user), GateOf(t.byUser, user), a.time, c.maxAttempts * 2, c, charged)
  {
    LoginByUser(c, s, a);
    var v := Login(c, s, a).1;
    if Judged(s, a) {
      if a.user == user {
        TableEffect(s.byUser, a.user, user, a.time, c.maxAttempts * 2, c, Charged(a, v));
      } else {
        TableElsewhere(s.byUser, a.user, user, a.time, c.maxAttempts * 2, c, Charged(a, v), v.Admitted?);
      }
    }
  }

  lemma StepTracks(g: Gate, g': Gate, fs: seq<real>, before: real, now: real, n: int, c: Settings, charged: bool)
    requires n >= 1 && Tracks(g, fs, before, n, c) && before <= now && Touched(g, g', now, n, c, charged)
    ensures Tracks(g', if charged then fs + [now] else fs, now, n, c)
  {
    PruneCovers(g.attempts, fs, before, now, c.attemptWindow);
    var p := PruneGate(g, now, c.attemptWindow);
    assert Tracks(p, fs, now, n, c);
    if charged { ChargeTracks(p, fs, now, n, c); }
  }

  /** The time of the last attempt. */
  function Clock(run: seq<Attempt>): real { if run == [] then 0.0 else run[|run| - 1].time }

  lemma InOrderInit(run: seq<Attempt>, a: Attempt)
    requires InOrder(run + [a])
    ensures InOrder(run) && Clock(run) <= a.time && a.time >= 0.0
  {
    assert (run + [a])[|run|] == a;
    assert forall i :: 0 <= i < |run| ==> (run + [a])[i] == run[i];
  }

  /** No attempt from the address succeeded. */
  predicate NoSuccessFrom(c: Settings, run: seq<Attempt>, ip: Ip) {
    run == [] || (NoSuccessFrom(c, run[..|run| - 1], ip) && (run[|run| - 1].ip == ip ==> !VerdictOf(c, run).Admitted?))
  }

  predicate NoSuccessAs(c: Settings, run: seq<Attempt>, user: User) {
    run == [] || (NoSuccessAs(c, run[..|run| - 1], user)
        && (run[|run| - 1].user == user ==> !VerdictOf(c, run).Admitted?))
  }

  lemma IpStep(c: Settings, s: Guard, a: Attempt, ip: Ip, fs: seq<real>, before: real)
    requires c.maxAttempts >= 1 && Tracks(GateOf(s.byIp, ip), fs, before, c.maxAttempts, c) && before <= a.time
             && a.time >= 0.0
    requires a.ip == ip ==> !Login(c, s, a).1.Admitted?
    ensures var (t, v) := Login(c, s, a);
            Tracks(GateOf(t.byIp, ip), if a.ip == ip && v.Failure? then fs + [a.time] else fs, a.time, c.maxAttempts, c)
  {
    IpEffect(c, s, a, ip);
    var (t, v) := Login(c, s, a);
    StepTracks(GateOf(s.byIp, ip), GateOf(t.byIp, ip), fs, before, a.time, c.maxAttempts, c, a.ip == ip && v.Failure?);
  }

  lemma UserStep(c: Settings, s: Guard, a: Attempt, user: User, fs: seq<real>, before: real)
    requires c.maxAttempts >= 1 && Tracks(GateOf(s.byUser, user), fs, before, c.maxAttempts * 2, c) && before <= a.time
             && a.time >= 0.0
    requires a.user == user ==> !Login(c, s, a).1.Admitted?
    ensures var (t, v) := Login(c, s, a); var charged := a.user == user && v.Failure? && a.creds.userKnown;
            Tracks(GateOf(t.byUser, user), if charged then fs + [a.time] else fs, a.time, c.maxAttempts * 2, c)
  {
    UserEffect(c, s, a, user);
    var (t, v) := Login(c, s, a);
    var charged := a.user == user && v.Failure? && a.creds.userKnown;
    StepTracks(GateOf(s.byUser, user), GateOf(t.byUser, user), fs, before, a.time, c.maxAttempts * 2, c, charged);
  }

  lemma FailuresSnoc(c: Settings, run: seq<Attempt>, a: Attempt, ip: Ip, user: User)
    ensures var v := Login(c, After(c, run), a).1;
            && FailuresOf(c, run + [a], ip)
               == (if a.ip == ip && v.Failure? then FailuresOf(c, run, ip) + [a.time] else FailuresOf(c, run, ip))
            && UserFailuresOf(c, run + [a], user)
               == (if a.user == user && v.Failure? && a.creds.userKnown then UserFailuresOf(c, run, user) + [a.time]
                                                       else UserFailuresOf(c, run, user))
  {
    SnocRun(c, run, a);
    assert (run + [a])[..|run + [a]| - 1] == run;
    assert FailuresOf(c, run, ip) + [] == FailuresOf(c, run, ip)
           && UserFailuresOf(c, run, user) + [] == UserFailuresOf(c, run, user);
  }

  lemma {:induction false} IpRun(c: Settings, run: seq<Attempt>, ip: Ip)
    requires c.maxAttempts >= 1 && InOrder(run) && NoSuccessFrom(c, run, ip)
    ensures Tracks(GateOf(After(c, run).byIp, ip), FailuresOf(c, run, ip), Clock(run), c.maxAttempts, c)
  {
    if run != [] {
      var init, a := run[..|run| - 1], run[|run| - 1];
      assert run == init + [a];
      InOrderInit(init, a);
      IpRun(c, init, ip);
      IpStep(c, After(c, init), a, ip, FailuresOf(c, init, ip), Clock(init));
      FailuresSnoc(c, init, a, ip, a.user);
    }
  }

  lemma {:induction false} UserRun(c: Settings, run: seq<Attempt>, user: User)
    requires c.maxAttempts >= 1 && InOrder(run) && NoSuccessAs(c, run, user)
    ensures Tracks(GateOf(After(c, run).byUser, user), UserFailuresOf(c, run, user), Clock(run), c.maxAttempts * 2, c)
  {
    if run != [] {
      var init, a := run[..|run| - 1], run[|run| - 1];
      assert run == init + [a];
      InOrderInit(init, a);
      UserRun(c, init, user);
      UserStep(c, After(c, init), a, user, UserFailuresOf(c, init, user), Clock(init));
      FailuresSnoc(c, init, a, a.ip, user);
    }
  }

  /** The smallest integer that is not below `x`. */
  function Ceil(x: real): int { -((-x).Floor) }

  lemma CountFromPause(fs: seq<real>, n: int, c: Settings, i: nat, j: nat)
    requires n >= 1 && Sorted(fs) && Spaced(fs, n, c) && c.lockoutTime > 0.0
    requires i <= j < |fs| && fs[j] - fs[i] < c.attemptWindow
    ensures j - i + 1 <= n + Ceil(c.attemptWindow / c.lockoutTime) - 1
  {
    assert fs[i] <= fs[j];
    StepOn(0, c.lockoutTime);
    if j >= i + n - 1 {
      SpacedOut(fs, n, c, i, j);
      assert fs[i + n - 1] >= fs[i];
      BelowCeil(j - i - n + 1, c.lockoutTime, c.attemptWindow);
    } else {
      BelowCeil(0, c.lockoutTime, c.attemptWindow);
    }
  }

  lemma Times(k: real, x: real, t: real)
    requires k >= x && t > 0.0
    ensures k * t >= x * t
  {
  }

  /** Fewer than `span / t` whole steps of `t` fit into `span`. */
  lemma BelowCeil(k: int, t: real, span: real)
    requires t > 0.0 && Steps(k, t) < span
    ensures k <= Ceil(span / t) - 1
  {
    var x := span / t;
    assert x * t == span;
    if k as real >= x { Times(k as real, x, t); assert false; }
    assert (-x).Floor as real <= -x;
  }

  /** In a run without a successful login from the address, any failures charged to it that lie less than the
      attempt window apart number at most `maxAttempts + ceil(attemptWindow / lockoutTime) - 1`. */
  lemma LockoutBound(c: Settings, run: seq<Attempt>, ip: Ip, i: nat, j: nat)
    requires c.maxAttempts >= 1 && c.lockoutTime > 0.0 && InOrder(run) && NoSuccessFrom(c, run, ip)
    requires var fs := FailuresOf(c, run, ip); i <= j < |fs| && fs[j] - fs[i] < c.attemptWindow
    ensures j - i + 1 <= c.maxAttempts + Ceil(c.attemptWindow / c.lockoutTime) - 1
  {
    IpRun(c, run, ip);
    CountFromPause(FailuresOf(c, run, ip), c.maxAttempts, c, i, j);
  }

  /** The same for a user name, from however many addresses, with the threshold doubled. */
  lemma UserLockoutBound(c: Settings, run: seq<Attempt>, user: User, i: nat, j: nat)
    requires c.maxAttempts >= 1 && c.lockoutTime > 0.0 && InOrder(run) && NoSuccessAs(c, run, user)
    requires var fs := UserFailuresOf(c, run, user); i <= j < |fs| && fs[j] - fs[i] < c.attemptWindow
    ensures j - i + 1 <= c.maxAttempts * 2 + Ceil(c.attemptWindow / c.lockoutTime) - 1
  {
    UserRun(c, run, user);
    CountFromPause(UserFailuresOf(c, run, user), c.maxAttempts * 2, c, i, j);
  }

  /** An address is locked only for cause: some `maxAttempts` consecutive failures charged to it lie within the
      attempt window, and the last of them is less than the lockout time ago. */
  lemma LockedForCause(c: Settings, run: seq<Attempt>, ip: Ip, now: real) returns (k: int)
    requires c.maxAttempts >= 1 && InOrder(run) && NoSuccessFrom(c, run, ip) && now >= 0.0
    requires Locked(After(c, run).byIp, ip, now)
    ensures var fs := FailuresOf(c, run, ip); Completes(fs, k, c.maxAttempts, c) && now < fs[k] + c.lockoutTime
  {
    IpRun(c, run, ip);
    var fs := FailuresOf(c, run, ip);
    k :| Completes(fs, k, c.maxAttempts, c) && GateOf(After(c, run).byIp, ip).lockedUntil == fs[k] + c.lockoutTime;
  }
}
