// The sliding-window limiter of internal/pubsub/pubsub.go: a pruned, expiring sorted set a
// key, driven by one atomic script. Times are nanoseconds on one clock.
module RateLimiter {
  import opened Prelude

  /** The set member that CheckRateLimit writes: its timestamp and a random number. */
  datatype Member = Member(at: int, nonce: int)

  /** A stored sorted set, member to score, and the time its key lapses. */
  datatype Bucket = Bucket(scores: map<Member, int>, expireAt: int)

  datatype Policy = Policy(limit: int, window: int)

  /** The nanoseconds PEXPIRE gives the key: the window cut to whole milliseconds, at least one. */
  function KeyLifetime(window: int): int {
    (if window < 1_000_000 then 1 else window / 1_000_000) * 1_000_000
  }

  function Live(b: Option<Bucket>, now: int): map<Member, int> {
    if b.None? || b.value.expireAt <= now then map[] else b.value.scores
  }

  /** The entries ZREMRANGEBYSCORE leaves. */
  function Outside(scores: map<Member, int>, min: int, max: int): map<Member, int> {
    map m | m in scores && !(min <= scores[m] <= max) :: scores[m]
  }

  function Pruned(scores: map<Member, int>, upTo: int): map<Member, int> {
    Outside(scores, 0, upTo)
  }

  /** The whole script on one key. A sorted set that becomes empty is no longer stored. */
  function Script(b: Option<Bucket>, p: Policy, m: Member): (Option<Bucket>, bool) {
    var kept := Pruned(Live(b, m.at), m.at - p.window);
    if |kept| >= p.limit then
      (if kept == map[] || b.None? then None else Some(Bucket(kept, b.value.expireAt)), false)
    else
      (Some(Bucket(kept[m := m.at], m.at + KeyLifetime(p.window))), true)
  }

  function Stored(store: map<string, Bucket>, key: string): Option<Bucket> {
    if key in store then Some(store[key]) else None
  }

  class RedisLimiter {
    var store: map<string, Bucket>

    constructor ()
      ensures store == map[]
    {
      store := map[];
    }

    method CheckRateLimit(key: string, limit: int, window: int, now: int, nonce: int) returns (allowed: bool)
      modifies this
      ensures (Stored(store, key), allowed)
           == Script(Stored(old(store), key), Policy(limit, window), Member(now, nonce))
      ensures forall k | k != key :: Stored(store, k) == Stored(old(store), k)
    {
      var windowMs := window / 1_000_000;
      if windowMs < 1 { windowMs := 1; }
      Expire(key, now);
      assert (if key in store then store[key].scores else map[]) == Live(Stored(old(store), key), now);
      RemoveRangeByScore(key, 0, now - window);
      var scores := if key in store then store[key].scores else map[];
      assert scores == Pruned(Live(Stored(old(store), key), now), now - window);
      if |scores| >= limit {
        return false;
      }
      store := store[key := Bucket(scores[Member(now, nonce) := now], now + windowMs * 1_000_000)];
      return true;
    }

    method Expire(key: string, now: int)
      modifies this
      ensures forall k | k != key :: Stored(store, k) == Stored(old(store), k)
      ensures Stored(store, key) ==
              if key in old(store) && now < old(store)[key].expireAt then Some(old(store)[key]) else None
    {
      if key in store && store[key].expireAt <= now { store := store - {key}; }
    }

    /** ZREMRANGEBYSCORE, member by member; an emptied key disappears. */
    method RemoveRangeByScore(key: string, min: int, max: int)
      modifies this
      ensures forall k | k != key :: Stored(store, k) == Stored(old(store), k)
      ensures key !in old(store) ==> store == old(store)
      ensures key in old(store) ==>
                var was := old(store)[key];
                var kept := Outside(was.scores, min, max);
                Stored(store, key) == if kept == map[] then None else Some(Bucket(kept, was.expireAt))
    {
      if key !in store { return; }
      var was := store[key];
      var kept := OutsideOf(was.scores, min, max);
      if kept == map[] {
        store := store - {key};
      } else {
        store := store[key := Bucket(kept, was.expireAt)];
      }
    }
  }

  method OutsideOf(scores: map<Member, int>, min: int, max: int) returns (kept: map<Member, int>)
    ensures kept == Outside(scores, min, max)
  {
    var todo := scores.Keys;
    kept := map[];
    while todo != {}
      invariant todo <= scores.Keys
      invariant forall m | m in kept :: m in scores && kept[m] == scores[m] && !(min <= scores[m] <= max)
      invariant forall m | m in scores && m !in todo && !(min <= scores[m] <= max) :: m in kept
      decreases todo
    {
      var m :| m in todo;
      if !(min <= scores[m] <= max) { kept := kept[m := scores[m]]; }
      todo := todo - {m};
    }
  }

  // ---------- Runs on one key ----------

  datatype Ledger = Ledger(bucket: Option<Bucket>, admitted: seq<Member>)

  function Check(s: Ledger, p: Policy, m: Member): Ledger {
    var (b, allowed) := Script(s.bucket, p, m);
    Ledger(b, if allowed then s.admitted + [m] else s.admitted)
  }

  function Run(p: Policy, calls: seq<Member>): Ledger {
    if calls == [] then Ledger(None, [])
    else Check(Run(p, calls[..|calls| - 1]), p, calls[|calls| - 1])
  }

  lemma RunAppend(p: Policy, calls: seq<Member>, m: Member)
    ensures Run(p, calls + [m]) == Check(Run(p, calls), p, m)
  {
    assert (calls + [m])[..|calls + [m]| - 1] == calls;
  }

  /** How many admitted requests lie in (lo, hi]. */
  function CountIn(admitted: seq<Member>, lo: int, hi: int): nat {
    if admitted == [] then 0
    else
      CountIn(admitted[..|admitted| - 1], lo, hi) + (if lo < admitted[|admitted| - 1].at <= hi then 1 else 0)
  }

  /** The admissions in (t - window, t]. */
  function InWindow(admitted: seq<Member>, window: int, t: int): nat {
    CountIn(admitted, t - window, t)
  }

  /** Timestamps never decrease and no two requests draw the same member. */
  predicate WellTimed(calls: seq<Member>) {
    && (forall k | 0 <= k < |calls| :: 0 <= calls[k].at)
    && (forall i, j | 0 <= i < j < |calls| :: calls[i].at <= calls[j].at && calls[i] != calls[j])
  }

  /** The key outlives every entry that can still count. */
  predicate WholeMillis(window: int) {
    window < 1_000_000 || window % 1_000_000 == 0
  }

  ghost predicate Tracks(s: Ledger, window: int, last: int) {
    && 0 <= last
    && (forall m | m in s.admitted :: 0 <= m.at <= last)
    && (forall i, j | 0 <= i < j < |s.admitted| :: s.admitted[i] != s.admitted[j])
    && (s.bucket.Some? ==>
          && (forall m | m in s.bucket.value.scores :: m in s.admitted && s.bucket.value.scores[m] == m.at)
          && (forall m | m in s.admitted :: m.at + window <= s.bucket.value.expireAt))
    && (forall m | m in s.admitted ::
          (s.bucket.Some? && m in s.bucket.value.scores) || m.at <= last - window)
  }

  lemma {:induction false} CountIsSize(admitted: seq<Member>, lo: int, hi: int)
    requires forall i, j | 0 <= i < j < |admitted| :: admitted[i] != admitted[j]
    ensures CountIn(admitted, lo, hi) == |set m | m in admitted && lo < m.at <= hi|
  {
    if admitted == [] {
      assert (set m | m in admitted && lo < m.at <= hi) == {};
    } else {
      var rest, m := admitted[..|admitted| - 1], admitted[|admitted| - 1];
      CountIsSize(rest, lo, hi);
      var smaller := set x | x in rest && lo < x.at <= hi;
      assert m !in rest;
      assert (set x | x in admitted && lo < x.at <= hi) == if lo < m.at <= hi then smaller + {m} else smaller;
    }
  }

  /** What the script counts is a count over everything ever admitted. */
  lemma KeptIsRecent(s: Ledger, p: Policy, last: int, now: int)
    requires Tracks(s, p.window, last) && last <= now
    ensures var kept := Pruned(Live(s.bucket, now), now - p.window);
            && kept.Keys == (set m | m in s.admitted && now - p.window < m.at <= now)
            && |kept| == InWindow(s.admitted, p.window, now)
  {
    var kept := Pruned(Live(s.bucket, now), now - p.window);
    forall m | m in s.admitted && now - p.window < m.at ensures m in kept {
      assert m in s.bucket.value.scores;
    }
    assert kept.Keys == set m | m in s.admitted && now - p.window < m.at <= now;
    assert |kept| == |kept.Keys|;
    CountIsSize(s.admitted, now - p.window, now);
  }

  /** One request is decided as a count over the complete history would decide it. */
  lemma ExactDecision(s: Ledger, p: Policy, last: int, m: Member)
    requires Tracks(s, p.window, last) && last <= m.at
    ensures Script(s.bucket, p, m).1 <==> InWindow(s.admitted, p.window, m.at) < p.limit
  {
    KeptIsRecent(s, p, last, m.at);
  }

  lemma CheckTracks(s: Ledger, p: Policy, last: int, m: Member)
    requires Tracks(s, p.window, last) && last <= m.at && WholeMillis(p.window) && m !in s.admitted
    ensures Tracks(Check(s, p, m), p.window, m.at)
  {
    KeptIsRecent(s, p, last, m.at);
    assert p.window <= KeyLifetime(p.window);
    var s' := Check(s, p, m);
    if s'.admitted == s.admitted {
      forall x | x in s'.admitted && x.at > m.at - p.window
        ensures s'.bucket.Some? && x in s'.bucket.value.scores
      {
        assert x in Pruned(Live(s.bucket, m.at), m.at - p.window);
      }
    }
  }

  lemma {:induction false} RunTracks(p: Policy, calls: seq<Member>)
    requires WellTimed(calls) && WholeMillis(p.window)
    ensures Tracks(Run(p, calls), p.window, if calls == [] then 0 else calls[|calls| - 1].at)
    ensures forall m | m in Run(p, calls).admitted :: m in calls
  {
    if calls != [] {
      var before, m := calls[..|calls| - 1], calls[|calls| - 1];
      RunTracks(p, before);
      assert m !in before;
      CheckTracks(Run(p, before), p, if before == [] then 0 else before[|before| - 1].at, m);
    }
  }

  /** In every run, each request is decided as a count over all earlier admissions decides it. */
  lemma RunDecidesExactly(p: Policy, calls: seq<Member>, k: nat)
    requires WellTimed(calls) && WholeMillis(p.window) && k < |calls|
    ensures var before := Run(p, calls[..k]);
            Script(before.bucket, p, calls[k]).1
            <==> InWindow(before.admitted, p.window, calls[k].at) < p.limit
  {
    RunTracks(p, calls[..k]);
    ExactDecision(Run(p, calls[..k]), p, if k == 0 then 0 else calls[k - 1].at, calls[k]);
  }

  // ---------- The bound ----------

  function AtLeastZero(x: int): nat { if x < 0 then 0 else x }

  ghost predicate Bounded(p: Policy, admitted: seq<Member>) {
    forall t :: InWindow(admitted, p.window, t) <= AtLeastZero(p.limit)
  }

  lemma {:induction false} CountWidens(admitted: seq<Member>, lo: int, hi: int, lo': int, hi': int)
    requires lo' <= lo
    requires forall m | m in admitted :: m.at <= hi'
    ensures CountIn(admitted, lo, hi) <= CountIn(admitted, lo', hi')
  {
    if admitted != [] {
      CountWidens(admitted[..|admitted| - 1], lo, hi, lo', hi');
    }
  }

  lemma AdmitBounded(p: Policy, admitted: seq<Member>, m: Member)
    requires Bounded(p, admitted)
    requires forall x | x in admitted :: x.at <= m.at
    requires InWindow(admitted, p.window, m.at) < p.limit
    ensures Bounded(p, admitted + [m])
  {
    var longer := admitted + [m];
    assert longer[..|longer| - 1] == admitted;
    forall t ensures InWindow(longer, p.window, t) <= AtLeastZero(p.limit) {
      assert InWindow(admitted, p.window, t) <= AtLeastZero(p.limit);
      if m.at <= t {
        CountWidens(admitted, t - p.window, t, m.at - p.window, m.at);
      }
    }
  }

  predicate Fits(b: Option<Bucket>, limit: int) {
    b.Some? ==> |b.value.scores| <= AtLeastZero(limit)
  }

  lemma ScriptFits(b: Option<Bucket>, p: Policy, m: Member)
    requires Fits(b, p.limit)
    ensures Fits(Script(b, p, m).0, p.limit)
  {
    PrunedSize(Live(b, m.at), m.at - p.window);
  }

  lemma CheckBounded(s: Ledger, p: Policy, last: int, m: Member)
    requires Tracks(s, p.window, last) && last <= m.at
    requires Bounded(p, s.admitted) && Fits(s.bucket, p.limit)
    ensures Bounded(p, Check(s, p, m).admitted) && Fits(Check(s, p, m).bucket, p.limit)
  {
    ScriptFits(s.bucket, p, m);
    ExactDecision(s, p, last, m);
    if Script(s.bucket, p, m).1 {
      AdmitBounded(p, s.admitted, m);
    }
  }

  /** No window of any instant ever holds more than `limit` admissions, nor the set more entries. */
  lemma {:induction false} RunBounded(p: Policy, calls: seq<Member>)
    requires WellTimed(calls) && WholeMillis(p.window)
    ensures Bounded(p, Run(p, calls).admitted) && Fits(Run(p, calls).bucket, p.limit)
  {
    if calls != [] {
      var before, m := calls[..|calls| - 1], calls[|calls| - 1];
      RunBounded(p, before);
      RunTracks(p, before);
      CheckBounded(Run(p, before), p, if before == [] then 0 else before[|before| - 1].at, m);
    }
  }

  lemma PrunedSize(scores: map<Member, int>, upTo: int)
    ensures |Pruned(scores, upTo)| <= |scores|
  {
    assert |Pruned(scores, upTo)| == |Pruned(scores, upTo).Keys| && |scores| == |scores.Keys|;
    SubsetSize(Pruned(scores, upTo).Keys, scores.Keys);
  }

  /** A key lives the whole milliseconds of its window after each admission, and one at least. */
  lemma AdmissionSetsLifetime(b: Option<Bucket>, p: Policy, m: Member)
    requires Script(b, p, m).1
    ensures var b' := Script(b, p, m).0;
            && b'.Some? && m in b'.value.scores && b'.value.scores[m] == m.at
            && var life := b'.value.expireAt - m.at;
            && life % 1_000_000 == 0
            && (if p.window < 1_000_000 then life == 1_000_000 else life <= p.window < life + 1_000_000)
  {
  }

  // ---------- Windows that are not whole milliseconds ----------

  function Burst(n: nat): seq<Member> {
    if n == 0 then [] else Burst(n - 1) + [Member(0, n)]
  }

  lemma {:induction false} BurstMembers(n: nat)
    ensures |Burst(n)| == n
    ensures forall k | 0 <= k < n :: Burst(n)[k] == Member(0, k + 1)
  {
    if n > 0 {
      BurstMembers(n - 1);
    }
  }

  function BurstLedger(p: Policy, n: nat): Ledger {
    if n == 0 then Ledger(None, []) else Ledger(Some(Bucket(BurstScores(n), KeyLifetime(p.window))), Burst(n))
  }

  lemma BurstStep(p: Policy, n: nat, before: seq<Member>)
    requires 0 < n <= p.limit && p.window > 0
    requires Run(p, before) == BurstLedger(p, n - 1)
    ensures Run(p, before + [Member(0, n)]) == BurstLedger(p, n)
  {
    RunAppend(p, before, Member(0, n));
    CheckBurst(p, n);
  }

  lemma CheckBurst(p: Policy, n: nat)
    requires 0 < n <= p.limit && p.window > 0
    ensures Check(BurstLedger(p, n - 1), p, Member(0, n)) == BurstLedger(p, n)
  {
    BurstScoresSize(n - 1);
    var was := Live(BurstLedger(p, n - 1).bucket, 0);
    assert was == BurstScores(n - 1);
    assert Pruned(was, 0 - p.window) == was;
  }

  lemma {:induction false} BurstRun(p: Policy, n: nat)
    requires n <= p.limit && p.window > 0
    ensures Run(p, Burst(n)) == BurstLedger(p, n)
  {
    if n > 0 {
      BurstRun(p, n - 1);
      BurstStep(p, n, Burst(n - 1));
    }
  }

  function BurstScores(n: nat): map<Member, int> {
    if n == 0 then map[] else BurstScores(n - 1)[Member(0, n) := 0]
  }

  lemma {:induction false} BurstScoresSize(n: nat)
    ensures |BurstScores(n)| == n
    ensures forall m | m in BurstScores(n) :: m.nonce <= n && BurstScores(n)[m] == 0
  {
    if n > 0 {
      BurstScoresSize(n - 1);
      assert Member(0, n) !in BurstScores(n - 1);
    }
  }

  lemma {:induction false} CountAll(admitted: seq<Member>, lo: int, hi: int)
    requires forall m | m in admitted :: lo < m.at <= hi
    ensures CountIn(admitted, lo, hi) == |admitted|
  {
    if admitted != [] {
      CountAll(admitted[..|admitted| - 1], lo, hi);
    }
  }

  /** The run that a truncated expiry lets through: a full burst, and one request as the key lapses. */
  function Overrun(p: Policy): seq<Member> {
    Burst(AtLeastZero(p.limit)) + [Member(KeyLifetime(p.window), 0)]
  }

  lemma OverrunAdmitted(p: Policy)
    requires p.limit >= 1 && p.window > 0
    ensures Run(p, Overrun(p)).admitted == Overrun(p)
    ensures |Overrun(p)| == p.limit + 1 && WellTimed(Overrun(p))
    ensures forall m | m in Overrun(p) :: 0 <= m.at <= KeyLifetime(p.window)
  {
    var calls := Overrun(p);
    BurstRun(p, p.limit);
    BurstMembers(p.limit);
    assert calls[..|calls| - 1] == Burst(p.limit);
  }

  lemma CrowdedIsUnbounded(p: Policy, admitted: seq<Member>, t: int)
    requires forall m | m in admitted :: t - p.window < m.at <= t
    requires |admitted| > AtLeastZero(p.limit)
    ensures !Bounded(p, admitted)
  {
    CountAll(admitted, t - p.window, t);
    assert InWindow(admitted, p.window, t) == |admitted|;
  }

  /** With a truncated expiry the key lapses inside the window and one request too many gets in. */
  lemma TruncatedWindowAdmitsTooMany(p: Policy)
    requires p.limit >= 1 && !WholeMillis(p.window)
    ensures WellTimed(Overrun(p)) && !Bounded(p, Run(p, Overrun(p)).admitted)
  {
    assert KeyLifetime(p.window) < p.window;
    OverrunAdmitted(p);
    CrowdedIsUnbounded(p, Overrun(p), KeyLifetime(p.window));
  }

  /** The limiter keeps its bound on every run exactly when its window survives the cut to milliseconds. */
  lemma BoundIffWholeMillis(p: Policy)
    requires p.limit >= 1
    ensures (forall calls | WellTimed(calls) :: Bounded(p, Run(p, calls).admitted)) <==> WholeMillis(p.window)
  {
    if WholeMillis(p.window) {
      forall calls | WellTimed(calls) ensures Bounded(p, Run(p, calls).admitted) {
        RunBounded(p, calls);
      }
    } else {
      TruncatedWindowAdmitsTooMany(p);
    }
  }

  // ---------- Many keys ----------

  datatype Call = Call(key: string, member: Member)

  /** One store, every key under the policy `policy` gives it. */
  function RunStore(policy: string -> Policy, calls: seq<Call>): map<string, Ledger> {
    if calls == [] then map[]
    else
      var c := calls[|calls| - 1];
      var s := RunStore(policy, calls[..|calls| - 1]);
      s[c.key := Check(if c.key in s then s[c.key] else Ledger(None, []), policy(c.key), c.member)]
  }

  function OfKey(calls: seq<Call>, key: string): seq<Member> {
    if calls == [] then []
    else
      var c := calls[|calls| - 1];
      OfKey(calls[..|calls| - 1], key) + (if c.key == key then [c.member] else [])
  }

  /** Each key of a shared store goes through exactly the run of its own requests. */
  lemma {:induction false} KeysAreIndependent(policy: string -> Policy, calls: seq<Call>, key: string)
    ensures var s := RunStore(policy, calls);
            (if key in s then s[key] else Ledger(None, [])) == Run(policy(key), OfKey(calls, key))
  {
    if calls != [] {
      var c := calls[|calls| - 1];
      KeysAreIndependent(policy, calls[..|calls| - 1], key);
      if c.key == key {
        var mine := OfKey(calls, key);
        assert mine[..|mine| - 1] == OfKey(calls[..|calls| - 1], key);
      } else {
        assert OfKey(calls, key) == OfKey(calls[..|calls| - 1], key);
      }
    }
  }
}
