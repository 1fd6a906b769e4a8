/** The per-client request limiter: a window opens with a client's first request and admits a fixed number. */
module RateLimiter {

  type Client = string

  datatype Window = Window(count: nat, start: real)

  datatype Request = Request(client: Client, time: real)

  type Counts = map<Client, Window>

  function Judge(limit: int, window: real, s: Counts, r: Request): (Counts, bool) {
    if limit <= 0 then (s, true)
    else if r.client !in s || r.time - s[r.client].start > window then (s[r.client := Window(1, r.time)], true)
    else if s[r.client].count >= limit then (s, false)
    else (s[r.client := s[r.client].(count := s[r.client].count + 1)], true)
  }

  class Limiter {
    const limit: int
    const window: real
    var counts: Counts

    constructor (limit: int, window: real)
      ensures this.limit == limit && this.window == window && counts == map[]
    {
      this.limit, this.window, counts := limit, window, map[];
    }

    method Check(client: Client, now: real) returns (ok: bool)
      modifies this
      ensures (counts, ok) == Judge(limit, window, old(counts), Request(client, now))
    {
      if limit <= 0 { return true; }
      if client !in counts {
        counts := counts[client := Window(1, now)];
        return true;
      }
      var info := counts[client];
      if now - info.start > window {
        info := info.(count := 1);
        info := info.(start := now);
        counts := counts[client := info];
        return true;
      }
      if info.count >= limit { return false; }
      counts := counts[client := info.(count := info.count + 1)];
      ok := true;
    }
  }

  // ---------------------------------------------------------------- runs

  function After(limit: int, window: real, rs: seq<Request>): Counts {
    if rs == [] then map[] else Judge(limit, window, After(limit, window, rs[..|rs| - 1]), rs[|rs| - 1]).0
  }

  /** The times of the accepted requests of one client. */
  function Accepted(limit: int, window: real, rs: seq<Request>, client: Client): seq<real> {
    if rs == [] then []
    else
      var init, r := rs[..|rs| - 1], rs[|rs| - 1];
      Accepted(limit, window, init, client) +
      if r.client == client && Judge(limit, window, After(limit, window, init), r).1 then [r.time] else []
  }

  /** The times of all requests of one client. */
  function Asked(rs: seq<Request>, client: Client): seq<real> {
    if rs == [] then []
    else Asked(rs[..|rs| - 1], client) + if rs[|rs| - 1].client == client then [rs[|rs| - 1].time] else []
  }

  /** A limit of zero or less switches the limiter off: every request is accepted and nothing is counted. */
  lemma {:induction false} NoLimit(limit: int, window: real, rs: seq<Request>, client: Client)
    requires limit <= 0
    ensures Accepted(limit, window, rs, client) == Asked(rs, client) && After(limit, window, rs) == map[]
  {
    if rs != [] { NoLimit(limit, window, rs[..|rs| - 1], client); }
  }

  ghost predicate Ordered(rs: seq<Request>) { forall i, j :: 0 <= i < j < |rs| ==> rs[i].time <= rs[j].time }

  /** How many of the times lie in the closed interval. */
  function CountIn(ts: seq<real>, lo: real, hi: real): nat {
    if ts == [] then 0 else CountIn(ts[..|ts| - 1], lo, hi) + if lo <= ts[|ts| - 1] <= hi then 1 else 0
  }

  /** How many of the times lie in the closed interval of length `window` that starts at `a`. */
  function Within(ts: seq<real>, a: real, window: real): nat { CountIn(ts, a, a + window) }

  lemma {:induction false} CountAppend(a: seq<real>, b: seq<real>, lo: real, hi: real)
    ensures CountIn(a + b, lo, hi) == CountIn(a, lo, hi) + CountIn(b, lo, hi)
  {
    if b == [] {
      assert a + b == a;
    } else {
      assert (a + b)[..|a + b| - 1] == a + b[..|b| - 1];
      CountAppend(a, b[..|b| - 1], lo, hi);
    }
  }

  lemma {:induction false} CountBounds(ts: seq<real>, lo: real, hi: real)
    ensures CountIn(ts, lo, hi) <= |ts|
    ensures (forall i :: 0 <= i < |ts| ==> ts[i] < lo || ts[i] > hi) ==> CountIn(ts, lo, hi) == 0
    ensures (forall i :: 0 <= i < |ts| ==> lo <= ts[i] <= hi) ==> CountIn(ts, lo, hi) == |ts|
  {
    if ts != [] { CountBounds(ts[..|ts| - 1], lo, hi); }
  }

  lemma {:induction false} CountWider(ts: seq<real>, lo: real, hi: real, lo': real, hi': real)
    requires forall i :: 0 <= i < |ts| && lo <= ts[i] <= hi ==> lo' <= ts[i] <= hi'
    ensures CountIn(ts, lo, hi) <= CountIn(ts, lo', hi')
  {
    if ts != [] { CountWider(ts[..|ts| - 1], lo, hi, lo', hi'); }
  }

  // ---------------------------------------------------------------- the bound

  /** The open window is the tail of the accepted times, starts at its first one and spans at most `window`;
      before it, at most `limit - 1` were accepted less than `window` before its start. */
  ghost predicate Sound(limit: int, window: real, acc: seq<real>, w: Window) {
    && 1 <= w.count <= limit && w.count <= |acc|
    && var b, c := acc[..|acc| - w.count], acc[|acc| - w.count..];
       && c[0] == w.start
       && (forall i :: 0 <= i < |c| ==> w.start <= c[i] <= w.start + window)
       && (forall i :: 0 <= i < |b| ==> b[i] <= w.start)
       && CountIn(b, w.start - window, w.start) <= limit - 1
       && (forall a: real :: Within(b, a, window) <= 2 * limit - 1)
  }

  lemma SoundBounds(limit: int, window: real, acc: seq<real>, w: Window, a: real)
    requires Sound(limit, window, acc, w)
    ensures Within(acc, a, window) <= 2 * limit - 1
  {
    var b, c := acc[..|acc| - w.count], acc[|acc| - w.count..];
    assert acc == b + c && Within(b, a, window) <= 2 * limit - 1;
    CountAppend(b, c, a, a + window);
    CountBounds(c, a, a + window);
    if a + window >= w.start { CountWider(b, a, a + window, w.start - window, w.start); }
  }

  /** Once `window` has passed since `start`, the first request of the window and all before it are left behind. */
  lemma LeftBehind(b: seq<real>, c: seq<real>, window: real, start: real, now: real)
    requires c != [] && c[0] == start && now - start > window && forall i :: 0 <= i < |b| ==> b[i] <= start
    ensures CountIn(b + c, now - window, now) <= |c| - 1
  {
    var d := c[1..];
    assert b + c == (b + [start]) + d;
    CountAppend(b + [start], d, now - window, now);
    CountBounds(b + [start], now - window, now);
    CountBounds(d, now - window, now);
  }

  lemma ReopenSound(limit: int, window: real, acc: seq<real>, w: Window, now: real)
    requires Sound(limit, window, acc, w) && now - w.start > window && window >= 0.0
    requires AllBefore(acc, now)
    ensures Sound(limit, window, acc + [now], Window(1, now))
  {
    var b, c := acc[..|acc| - w.count], acc[|acc| - w.count..];
    assert acc == b + c;
    LeftBehind(b, c, window, w.start, now);
    var ts := acc + [now];
    assert ts[..|ts| - 1] == acc && ts[|ts| - 1..] == [now];
    forall a: real ensures Within(acc, a, window) <= 2 * limit - 1 { SoundBounds(limit, window, acc, w, a); }
  }

  lemma ExtendSound(limit: int, window: real, acc: seq<real>, w: Window, now: real)
    requires Sound(limit, window, acc, w) && w.start <= now && now - w.start <= window && w.count < limit
    ensures Sound(limit, window, acc + [now], w.(count := w.count + 1))
  {
    var ts := acc + [now];
    assert ts[..|ts| - (w.count + 1)] == acc[..|acc| - w.count];
    assert ts[|ts| - (w.count + 1)..] == acc[|acc| - w.count..] + [now];
  }

  lemma FirstSound(limit: int, window: real, now: real)
    requires limit > 0 && window >= 0.0
    ensures Sound(limit, window, [now], Window(1, now))
  {
    assert [now][..0] == [];
  }

  lemma SnocRun(limit: int, window: real, rs: seq<Request>, r: Request, c: Client)
    ensures After(limit, window, rs + [r]) == Judge(limit, window, After(limit, window, rs), r).0
    ensures Accepted(limit, window, rs + [r], c) == Accepted(limit, window, rs, c) +
            (if r.client == c && Judge(limit, window, After(limit, window, rs), r).1 then [r.time] else [])
  {
    assert (rs + [r])[..|rs + [r]| - 1] == rs;
  }

  ghost predicate AllBefore(ts: seq<real>, now: real) { forall i :: 0 <= i < |ts| ==> ts[i] <= now }

  lemma {:induction false} AcceptedBefore(limit: int, window: real, rs: seq<Request>, client: Client, now: real)
    requires forall i :: 0 <= i < |rs| ==> rs[i].time <= now
    ensures AllBefore(Accepted(limit, window, rs, client), now)
  {
    if rs != [] {
      var init, r := rs[..|rs| - 1], rs[|rs| - 1];
      assert forall i :: 0 <= i < |init| ==> init[i] == rs[i];
      AcceptedBefore(limit, window, init, client, now);
      assert rs == init + [r];
      SnocRun(limit, window, init, r, client);
    }
  }

  /** The entry of a client accounts for its accepted requests so far. */
  ghost predicate Accounts(limit: int, window: real, s: Counts, acc: seq<real>, c: Client, now: real) {
    && (c in s ==> Sound(limit, window, acc, s[c]) && s[c].start <= now)
    && (c !in s ==> acc == [])
  }

  /** The accepted times after one more request. */
  function AcceptedNow(limit: int, window: real, s: Counts, acc: seq<real>, r: Request, c: Client): seq<real> {
    acc + if r.client == c && Judge(limit, window, s, r).1 then [r.time] else []
  }

  lemma AcceptAccounts(limit: int, window: real, s: Counts, acc: seq<real>, r: Request, before: real)
    requires limit > 0 && window >= 0.0 && Accounts(limit, window, s, acc, r.client, before) && before <= r.time
    requires AllBefore(acc, r.time) && Judge(limit, window, s, r).1
    ensures var t := Judge(limit, window, s, r).0;
            r.client in t && Sound(limit, window, acc + [r.time], t[r.client]) && t[r.client].start <= r.time
  {
    if r.client !in s {
      FirstSound(limit, window, r.time);
      assert acc + [r.time] == [r.time];
    } else if r.time - s[r.client].start > window {
      ReopenSound(limit, window, acc, s[r.client], r.time);
    } else {
      ExtendSound(limit, window, acc, s[r.client], r.time);
    }
  }

  lemma JudgeAccounts(limit: int, window: real, s: Counts, acc: seq<real>, r: Request, c: Client, before: real)
    requires limit > 0 && window >= 0.0 && Accounts(limit, window, s, acc, c, before) && before <= r.time
    requires AllBefore(acc, r.time)
    ensures Accounts(limit, window, Judge(limit, window, s, r).0, AcceptedNow(limit, window, s, acc, r, c), c, r.time)
  {
    if r.client == c && Judge(limit, window, s, r).1 {
      AcceptAccounts(limit, window, s, acc, r, before);
    } else {
      assert AcceptedNow(limit, window, s, acc, r, c) == acc;
    }
  }

  lemma {:induction false} RunAccounts(limit: int, window: real, rs: seq<Request>, c: Client, now: real)
    requires limit > 0 && window >= 0.0 && Ordered(rs) && (rs != [] ==> now >= rs[|rs| - 1].time)
    ensures Accounts(limit, window, After(limit, window, rs), Accepted(limit, window, rs, c), c, now)
  {
    if rs != [] {
      var init, r := rs[..|rs| - 1], rs[|rs| - 1];
      var before := if init == [] then r.time else init[|init| - 1].time;
      RunAccounts(limit, window, init, c, before);
      AcceptedBefore(limit, window, init, c, r.time);
      JudgeAccounts(limit, window, After(limit, window, init), Accepted(limit, window, init, c), r, c, before);
    }
  }

  /** In every run with a nondecreasing clock, every closed interval as long as the window contains at most
      `2 * limit - 1` accepted requests of each client. */
  lemma LimiterBound(limit: int, window: real, rs: seq<Request>, client: Client, a: real)
    requires limit > 0 && window >= 0.0 && Ordered(rs)
    ensures Within(Accepted(limit, window, rs, client), a, window) <= 2 * limit - 1
  {
    RunAccounts(limit, window, rs, client, if rs == [] then 0.0 else rs[|rs| - 1].time);
    if client in After(limit, window, rs) {
      SoundBounds(limit, window, Accepted(limit, window, rs, client), After(limit, window, rs)[client], a);
    }
  }

  /** A refusal is never premature: `limit` requests of the client were accepted in the window that ends now. */
  lemma RefusalJustified(limit: int, window: real, rs: seq<Request>, r: Request)
    requires window >= 0.0 && Ordered(rs + [r]) && !Judge(limit, window, After(limit, window, rs), r).1
    ensures CountIn(Accepted(limit, window, rs, r.client), r.time - window, r.time) >= limit
  {
    OrderedInit(rs, r);
    RunAccounts(limit, window, rs, r.client, r.time);
    AcceptedBefore(limit, window, rs, r.client, r.time);
    FullWindow(limit, window, Accepted(limit, window, rs, r.client), After(limit, window, rs)[r.client], r.time);
  }

  lemma OrderedInit(rs: seq<Request>, r: Request)
    requires Ordered(rs + [r])
    ensures Ordered(rs) && forall i :: 0 <= i < |rs| ==> rs[i].time <= r.time
  {
    assert (rs + [r])[|rs|] == r;
    assert forall i :: 0 <= i < |rs| ==> (rs + [r])[i] == rs[i];
  }

  lemma FullWindow(limit: int, window: real, acc: seq<real>, w: Window, now: real)
    requires Sound(limit, window, acc, w) && w.count >= limit && now - w.start <= window
    requires AllBefore(acc, now)
    ensures CountIn(acc, now - window, now) >= limit
  {
    var b, c := acc[..|acc| - w.count], acc[|acc| - w.count..];
    assert acc == b + c;
    TailCounts(b, c, now - window, now);
  }

  lemma TailCounts(b: seq<real>, c: seq<real>, lo: real, hi: real)
    requires forall i :: 0 <= i < |c| ==> lo <= c[i] <= hi
    ensures CountIn(b + c, lo, hi) >= |c|
  {
    CountAppend(b, c, lo, hi);
    CountBounds(c, lo, hi);
  }

  // ---------------------------------------------------------------- independence of clients

  function Only(rs: seq<Request>, client: Client): seq<Request> {
    if rs == [] then []
    else Only(rs[..|rs| - 1], client) + if rs[|rs| - 1].client == client then [rs[|rs| - 1]] else []
  }

  /** What a client gets depends on its own requests alone. */
  lemma {:induction false} ClientsIndependent(limit: int, window: real, rs: seq<Request>, client: Client)
    ensures Accepted(limit, window, rs, client) == Accepted(limit, window, Only(rs, client), client)
    ensures Agree(After(limit, window, rs), After(limit, window, Only(rs, client)), client)
  {
    if rs != [] {
      var init, r := rs[..|rs| - 1], rs[|rs| - 1];
      ClientsIndependent(limit, window, init, client);
      var o := Only(init, client);
      JudgeLocal(limit, window, After(limit, window, init), After(limit, window, o), r, client);
      if r.client == client {
        SnocRun(limit, window, o, r, client);
        assert Only(rs, client) == o + [r];
      } else {
        assert Only(rs, client) == o + [] == o;
      }
    }
  }

  predicate Agree(s: Counts, t: Counts, c: Client) { (c in s <==> c in t) && (c in s ==> s[c] == t[c]) }

  lemma JudgeLocal(limit: int, window: real, s: Counts, t: Counts, r: Request, c: Client)
    requires Agree(s, t, c)
    ensures r.client == c ==> Agree(Judge(limit, window, s, r).0, Judge(limit, window, t, r).0, c)
    ensures r.client == c ==> Judge(limit, window, s, r).1 == Judge(limit, window, t, r).1
    ensures r.client != c ==> Agree(Judge(limit, window, s, r).0, t, c)
  {
  }

  // ---------------------------------------------------------------- the bound is reached

  /** The run continued by `n` requests of a client at one time. */
  function Burst(rs: seq<Request>, client: Client, time: real, n: nat): seq<Request> {
    if n == 0 then rs else Burst(rs, client, time, n - 1) + [Request(client, time)]
  }

  function Times(time: real, n: nat): seq<real> { if n == 0 then [] else Times(time, n - 1) + [time] }

  /** The client's window is open at `time` and has room for `n` more. */
  predicate Room(limit: int, window: real, s: Counts, c: Client, time: real, n: nat) {
    c in s && time - s[c].start <= window && s[c].count + n <= limit
  }

  /** From `s` to `t` the client's window took in `n` more requests. */
  predicate Filled(s: Counts, t: Counts, c: Client, n: nat) {
    c in s && c in t && t[c] == Window(s[c].count + n, s[c].start)
  }

  lemma FillOne(limit: int, window: real, s: Counts, t: Counts, c: Client, time: real, n: nat)
    requires limit > 0 && Filled(s, t, c, n) && Room(limit, window, s, c, time, n + 1)
    ensures var (u, ok) := Judge(limit, window, t, Request(c, time)); ok && Filled(s, u, c, n + 1)
  {
  }

  lemma {:induction false} BurstFills(limit: int, window: real, rs: seq<Request>, c: Client, time: real, n: nat)
    requires limit > 0 && Room(limit, window, After(limit, window, rs), c, time, n)
    ensures Filled(After(limit, window, rs), After(limit, window, Burst(rs, c, time, n)), c, n)
  {
    if n > 0 {
      var all := Burst(rs, c, time, n - 1);
      BurstFills(limit, window, rs, c, time, n - 1);
      FillOne(limit, window, After(limit, window, rs), After(limit, window, all), c, time, n - 1);
      SnocRun(limit, window, all, Request(c, time), c);
    }
  }

  /** While the open window has room, a burst inside it is accepted as a whole. */
  lemma {:induction false} BurstAccepted(limit: int, window: real, rs: seq<Request>, c: Client, time: real, n: nat)
    requires limit > 0 && Room(limit, window, After(limit, window, rs), c, time, n)
    ensures Accepted(limit, window, Burst(rs, c, time, n), c) == Accepted(limit, window, rs, c) + Times(time, n)
    ensures Filled(After(limit, window, rs), After(limit, window, Burst(rs, c, time, n)), c, n)
  {
    BurstFills(limit, window, rs, c, time, n);
    if n > 0 {
      var all := Burst(rs, c, time, n - 1);
      BurstAccepted(limit, window, rs, c, time, n - 1);
      FillOne(limit, window, After(limit, window, rs), After(limit, window, all), c, time, n - 1);
      SnocRun(limit, window, all, Request(c, time), c);
    }
  }

  lemma {:induction false} CountTimes(time: real, n: nat, lo: real, hi: real)
    ensures |Times(time, n)| == n && CountIn(Times(time, n), lo, hi) == if lo <= time <= hi then n else 0
  {
    if n > 0 {
      CountTimes(time, n - 1, lo, hi);
      assert Times(time, n)[..n - 1] == Times(time, n - 1);
    }
  }

  /** The clock never runs back and has not passed `time`. */
  ghost predicate OrderedTo(rs: seq<Request>, time: real) {
    Ordered(rs) && forall i :: 0 <= i < |rs| ==> rs[i].time <= time
  }

  lemma OrderedSnoc(rs: seq<Request>, before: real, r: Request)
    requires OrderedTo(rs, before) && before <= r.time
    ensures OrderedTo(rs + [r], r.time)
  {
  }

  lemma {:induction false} BurstOrdered(rs: seq<Request>, c: Client, time: real, n: nat)
    requires OrderedTo(rs, time)
    ensures OrderedTo(Burst(rs, c, time, n), time)
  {
    if n > 0 {
      BurstOrdered(rs, c, time, n - 1);
      OrderedSnoc(Burst(rs, c, time, n - 1), time, Request(c, time));
    }
  }

  /** One request at 0 and a burst as its window closes. */
  lemma FirstWindow(limit: int, window: real, c: Client) returns (rs: seq<Request>)
    requires limit > 0 && window >= 1.0
    ensures OrderedTo(rs, window) && c in After(limit, window, rs) && After(limit, window, rs)[c].start == 0.0
    ensures Accepted(limit, window, rs, c) == ([] + [0.0]) + Times(window, limit - 1)
  {
    var first := [] + [Request(c, 0.0)];
    Opens(limit, window, [], c, 0.0);
    BurstAccepted(limit, window, first, c, window, limit - 1);
    BurstOrdered(first, c, window, limit - 1);
    rs := Burst(first, c, window, limit - 1);
  }

  /** Then another full window just after. */
  lemma SecondWindow(limit: int, window: real, c: Client, before: seq<Request>) returns (rs: seq<Request>)
    requires limit > 0 && window >= 1.0 && OrderedTo(before, window)
    requires c in After(limit, window, before) && After(limit, window, before)[c].start == 0.0
    ensures Ordered(rs)
    ensures Accepted(limit, window, rs, c)
            == Accepted(limit, window, before, c) + [window + 1.0] + Times(window + 1.0, limit - 1)
  {
    var second := before + [Request(c, window + 1.0)];
    Opens(limit, window, before, c, window + 1.0);
    OrderedSnoc(before, window, Request(c, window + 1.0));
    BurstAccepted(limit, window, second, c, window + 1.0, limit - 1);
    BurstOrdered(second, c, window + 1.0, limit - 1);
    rs := Burst(second, c, window + 1.0, limit - 1);
  }

  /** For every limit there is a run with a nondecreasing clock that reaches the bound. */
  lemma BoundIsReached(limit: int, window: real, c: Client) returns (rs: seq<Request>)
    requires limit > 0 && window >= 1.0
    ensures Ordered(rs) && Within(Accepted(limit, window, rs, c), 1.0, window) == 2 * limit - 1
  {
    var before := FirstWindow(limit, window, c);
    rs := SecondWindow(limit, window, c, before);
    ThreeGroups(0.0, Times(window, limit - 1), window + 1.0, Times(window + 1.0, limit - 1), 1.0, 1.0 + window);
    CountTimes(window, limit - 1, 1.0, 1.0 + window);
    CountTimes(window + 1.0, limit - 1, 1.0, 1.0 + window);
  }

  /** A request that finds no window, or an expired one, opens a new one. */
  lemma Opens(limit: int, window: real, rs: seq<Request>, c: Client, time: real)
    requires limit > 0 && (c in After(limit, window, rs) ==> time - After(limit, window, rs)[c].start > window)
    ensures var all := rs + [Request(c, time)];
            && c in After(limit, window, all) && After(limit, window, all)[c] == Window(1, time)
            && Accepted(limit, window, all, c) == Accepted(limit, window, rs, c) + [time]
  {
    SnocRun(limit, window, rs, Request(c, time), c);
  }

  lemma ThreeGroups(a: real, b: seq<real>, c: real, d: seq<real>, lo: real, hi: real)
    ensures CountIn((([] + [a]) + b) + [c] + d, lo, hi) == CountIn(b, lo, hi) + CountIn(d, lo, hi) +
                    (if lo <= a <= hi then 1 else 0) + (if lo <= c <= hi then 1 else 0)
  {
    CountAppend([a] + b + [c], d, lo, hi);
    CountAppend([a] + b, [c], lo, hi);
    CountAppend([a], b, lo, hi);
    assert [a][..0] == [] && [c][..0] == [] && [] + [a] == [a];
  }
}
