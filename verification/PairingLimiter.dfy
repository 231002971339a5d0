/**
 * The limiter of pairing attempts: attempts are counted in buckets that last ten minutes
 * (apps/api/src/agent-onboarding/agent-pairing-limiter.ts).
 */
module PairingLimiter {
  import opened Common
  import DesktopManager

  const WINDOW := 600000
  const MAX_BUCKETS := 10000

  datatype Bucket = Bucket(attempts: nat, expiresAt: int)

  type Table = map<string, Bucket>

  datatype Scope = Public | Authenticated

  datatype Call = Call(key: string, limit: nat, now: int)

  function Purged(t: Table, now: int): Table {
    map k | k in t && now < t[k].expiresAt :: t[k]
  }

  predicate Refused(t: Table, key: string) {
    key !in t && |t| >= MAX_BUCKETS
  }

  function Charged(t: Table, key: string, now: int): Bucket {
    if key in t then Bucket(t[key].attempts + 1, t[key].expiresAt) else Bucket(1, now + WINDOW)
  }

  function After(t: Table, c: Call): Table {
    var p := Purged(t, c.now);
    if Refused(p, c.key) then p else p[c.key := Charged(p, c.key, c.now)]
  }

  predicate Admitted(t: Table, c: Call) {
    var p := Purged(t, c.now);
    !Refused(p, c.key) && Charged(p, c.key, c.now).attempts <= c.limit
  }

  /** The limiter with its two tables. */
  class AgentPairingLimiter {
    var publicBuckets: Table
    var authenticatedBuckets: Table

    constructor ()
      ensures publicBuckets == map[] && authenticatedBuckets == map[]
    {
      publicBuckets, authenticatedBuckets := map[], map[];
    }

    function Of(scope: Scope): Table
      reads this
    {
      if scope == Authenticated then authenticatedBuckets else publicBuckets
    }

    method Store(scope: Scope, buckets: Table)
      modifies this
      ensures Of(scope) == buckets
      ensures forall other :: other != scope ==> Of(other) == old(Of(other))
    {
      if scope == Authenticated {
        authenticatedBuckets := buckets;
      } else {
        publicBuckets := buckets;
      }
    }

    method AssertAllowed(key: string, limit: nat, now: int, scope: Scope) returns (allowed: bool)
      modifies this
      ensures Of(scope) == After(old(Of(scope)), Call(key, limit, now))
      ensures allowed <==> Admitted(old(Of(scope)), Call(key, limit, now))
      ensures forall other :: other != scope ==> Of(other) == old(Of(other))
    {
      var buckets := Of(scope);
      buckets := DropExpired(buckets, now);
      if key !in buckets && |buckets| >= MAX_BUCKETS {
        Store(scope, buckets);
        return false;
      }
      var bucket := Charged(buckets, key, now);
      Store(scope, buckets[key := bucket]);
      allowed := bucket.attempts <= limit;
    }
  }

  /** The expiry loop. */
  method DropExpired(t: Table, now: int) returns (left: Table)
    ensures left == Purged(t, now)
  {
    left := t;
    var todo := t.Keys;
    while todo != {}
      invariant todo <= t.Keys
      invariant left.Keys == set k | k in t && (k in todo || now < t[k].expiresAt)
      invariant forall k :: k in left ==> left[k] == t[k]
      decreases todo
    {
      var k :| k in todo;
      if t[k].expiresAt <= now {
        left := left - {k};
      }
      todo := todo - {k};
    }
  }

  // ---- Runs

  predicate Monotone(calls: seq<Call>) {
    forall i :: 0 <= i < |calls| - 1 ==> calls[i].now <= calls[i + 1].now
  }

  /** The table after the first calls. */
  function TableAt(calls: seq<Call>, n: nat): Table
    requires n <= |calls|
  {
    if n == 0 then map[] else After(TableAt(calls, n - 1), calls[n - 1])
  }

  predicate AdmittedAt(calls: seq<Call>, i: nat)
    requires i < |calls|
  {
    Admitted(TableAt(calls, i), calls[i])
  }

  predicate AdmittedCall(calls: seq<Call>, i: nat, key: string, from: int, to: int)
    requires i < |calls|
  {
    calls[i].key == key && from <= calls[i].now <= to && AdmittedAt(calls, i)
  }

  /** How many of the first calls for `key` were admitted in the closed interval. */
  function AdmittedIn(calls: seq<Call>, n: nat, key: string, from: int, to: int): nat
    requires n <= |calls|
  {
    if n == 0 then 0
    else AdmittedIn(calls, n - 1, key, from, to)
         + if AdmittedCall(calls, n - 1, key, from, to) then 1 else 0
  }

  lemma PurgedSmaller(t: Table, now: int)
    ensures |Purged(t, now)| <= |t|
  {
    var a, b := Purged(t, now).Keys, t.Keys;
    assert a <= b;
    SubsetSmaller(a, b);
    assert |Purged(t, now)| == |a| && |t| == |b|;
  }

  lemma {:induction false} SubsetSmaller(a: set<string>, b: set<string>)
    requires a <= b
    ensures |a| <= |b|
    decreases a
  {
    if a != {} {
      var x :| x in a;
      SubsetSmaller(a - {x}, b - {x});
    }
  }

  /**
   * One call, in full: expired buckets go; a known key is charged in its bucket, a new one opens a bucket of ten
   * minutes unless 10,000 others are open; the call is admitted while its bucket is within the limit.
   */
  lemma CallMeans(t: Table, c: Call)
    ensures var n, open := After(t, c), set k | k in t && c.now < t[k].expiresAt;
            && (forall k :: k != c.key ==> (k in n <==> k in open))
            && (forall k :: k != c.key && k in open ==> n[k] == t[k])
            && (c.key in open ==>
                  && c.key in n && n[c.key] == Bucket(t[c.key].attempts + 1, t[c.key].expiresAt)
                  && (Admitted(t, c) <==> t[c.key].attempts + 1 <= c.limit))
            && (c.key !in open && |open| < 10_000 ==>
                  && c.key in n && n[c.key] == Bucket(1, c.now + 600_000) && (Admitted(t, c) <==> 1 <= c.limit))
            && (c.key !in open && |open| >= 10_000 ==> c.key !in n && !Admitted(t, c))
  {
    var p := Purged(t, c.now);
    assert p.Keys == set k | k in t && c.now < t[k].expiresAt;
    assert |p| == |p.Keys|;
  }

  lemma UpdatedSize(t: Table, key: string, bucket: Bucket)
    ensures |t[key := bucket]| <= |t| + if key in t then 0 else 1
  {
    var q := t[key := bucket];
    assert q.Keys == t.Keys + {key};
    assert key in t ==> q.Keys == t.Keys;
    assert |q| == |q.Keys| && |t| == |t.Keys|;
  }

  lemma StepKeepsSize(t: Table, c: Call)
    requires |t| <= MAX_BUCKETS
    ensures |After(t, c)| <= MAX_BUCKETS
  {
    PurgedSmaller(t, c.now);
    var p := Purged(t, c.now);
    UpdatedSize(p, c.key, Charged(p, c.key, c.now));
    hide Purged, Charged;
  }

  /** No run lets a table grow beyond ten thousand buckets. */
  lemma {:induction false} TableBounded(calls: seq<Call>, n: nat)
    requires n <= |calls|
    ensures |TableAt(calls, n)| <= 10_000
  {
    if n > 0 {
      TableBounded(calls, n - 1);
      StepKeepsSize(TableAt(calls, n - 1), calls[n - 1]);
    }
  }

  // ---- Any ten minutes

  predicate LimitOf(calls: seq<Call>, key: string, limit: nat) {
    forall i :: 0 <= i < |calls| && calls[i].key == key ==> calls[i].limit == limit
  }

  /**
   * What the calls since `from` can have been admitted: a bucket opened since then follows at most one
   * older bucket.
   */
  function Allowance(t: Table, key: string, limit: nat, from: int): nat {
    if key !in t then limit
    else if t[key].expiresAt - WINDOW <= from then Min(t[key].attempts, limit)
    else limit + Min(t[key].attempts, limit)
  }

  /** Until the ten minutes are over. */
  predicate Charges(t: Table, key: string, limit: nat, from: int, now: int, count: nat) {
    && count <= Allowance(t, key, limit, from)
    && (now < from ==> count == 0)
    && (count > 0 && now <= from ==> key in t && t[key].expiresAt > from)
  }

  lemma PurgeCharges(t: Table, key: string, limit: nat, from: int, before: int, now: int, count: nat)
    requires Charges(t, key, limit, from, before, count) && before <= now <= from + WINDOW
    ensures Charges(Purged(t, now), key, limit, from, now, count)
    ensures key !in Purged(t, now) ==> count <= limit && (now <= from ==> count == 0)
  {
  }

  lemma CallCharges(t: Table, c: Call, key: string, limit: nat, from: int, before: int, count: nat)
    requires Charges(t, key, limit, from, before, count) && before <= c.now <= from + WINDOW
    requires c.key == key ==> c.limit == limit
    ensures Charges(After(t, c), key, limit, from, c.now,
                    count + if c.key == key && from <= c.now && Admitted(t, c) then 1 else 0)
  {
    PurgeCharges(t, key, limit, from, before, c.now, count);
    var p := Purged(t, c.now);
    assert key in p ==> p[key].expiresAt > c.now;
    hide Purged;
  }

  lemma {:induction false} MonotoneAt(calls: seq<Call>, i: nat, j: nat)
    requires Monotone(calls) && i <= j < |calls|
    ensures calls[i].now <= calls[j].now
    decreases j
  {
    if i < j {
      MonotoneAt(calls, i, j - 1);
      assert calls[j - 1].now <= calls[j - 1 + 1].now;
    }
  }

  lemma {:induction false} RunCharges(calls: seq<Call>, n: nat, key: string, limit: nat, from: int)
    requires Monotone(calls) && LimitOf(calls, key, limit)
    requires 0 < n <= |calls| && calls[n - 1].now <= from + WINDOW
    ensures Charges(TableAt(calls, n), key, limit, from, calls[n - 1].now,
                    AdmittedIn(calls, n, key, from, from + WINDOW))
  {
    var t, c := TableAt(calls, n - 1), calls[n - 1];
    var count := AdmittedIn(calls, n - 1, key, from, from + WINDOW);
    var before := if n == 1 then c.now else calls[n - 2].now;
    if n > 1 {
      MonotoneAt(calls, n - 2, n - 1);
      RunCharges(calls, n - 1, key, limit, from);
    }
    hide After, Admitted;
    CallCharges(t, c, key, limit, from, before, count);
  }

  /** The calls for `key` that were admitted in the closed interval. */
  ghost function AdmittedCalls(calls: seq<Call>, n: nat, key: string, from: int, to: int): set<nat>
    requires n <= |calls|
  {
    set i: nat | i < n && AdmittedCall(calls, i, key, from, to)
  }

  /** Exactly the calls for the key in the closed interval that did not throw are counted. */
  lemma AdmittedMeans(calls: seq<Call>, n: nat, key: string, from: int, to: int, i: nat)
    requires n <= |calls|
    ensures i in AdmittedCalls(calls, n, key, from, to) <==>
            && i < n && calls[i].key == key && from <= calls[i].now <= to
            && Admitted(TableAt(calls, i), calls[i])
  {
  }

  lemma NextAdmitted(calls: seq<Call>, n: nat, key: string, from: int, to: int)
    requires 0 < n <= |calls|
    ensures |AdmittedCalls(calls, n, key, from, to)| ==
            |AdmittedCalls(calls, n - 1, key, from, to)| + if AdmittedCall(calls, n - 1, key, from, to) then 1 else 0
  {
    hide AdmittedCall;
    var rest := AdmittedCalls(calls, n - 1, key, from, to);
    assert AdmittedCalls(calls, n, key, from, to)
        == rest + if AdmittedCall(calls, n - 1, key, from, to) then {n - 1} else {};
  }

  lemma {:induction false} AdmittedCounted(calls: seq<Call>, n: nat, key: string, from: int, to: int)
    requires n <= |calls|
    ensures AdmittedIn(calls, n, key, from, to) == |AdmittedCalls(calls, n, key, from, to)|
  {
    if n == 0 {
      assert AdmittedCalls(calls, n, key, from, to) == {};
    } else {
      AdmittedCounted(calls, n - 1, key, from, to);
      NextAdmitted(calls, n, key, from, to);
      hide AdmittedCall, AdmittedCalls;
    }
  }

  /** In any ten minutes, ends included, a key is admitted at most twice its limit. */
  lemma {:induction false} TwiceTheLimit(calls: seq<Call>, n: nat, key: string, limit: nat, from: int)
    requires Monotone(calls) && LimitOf(calls, key, limit) && n <= |calls|
    ensures |AdmittedCalls(calls, n, key, from, from + 600_000)| <= 2 * limit
  {
    AdmittedCounted(calls, n, key, from, from + WINDOW);
    hide AdmittedCalls;
    if n > 0 {
      if calls[n - 1].now <= from + WINDOW {
        RunCharges(calls, n, key, limit, from);
      } else {
        TwiceTheLimit(calls, n - 1, key, limit, from);
        AdmittedCounted(calls, n - 1, key, from, from + WINDOW);
      }
    }
  }

  /** A bucket that call `i` opens lasts ten minutes and admits at most the limit. */
  lemma BucketLimit(calls: seq<Call>, i: nat, n: nat, key: string, limit: nat)
    requires Monotone(calls) && LimitOf(calls, key, limit)
    requires i < n <= |calls| && calls[i].key == key && calls[n - 1].now < calls[i].now + WINDOW
    requires key !in Purged(TableAt(calls, i), calls[i].now) && |Purged(TableAt(calls, i), calls[i].now)| < MAX_BUCKETS
    ensures key in TableAt(calls, n) && TableAt(calls, n)[key].expiresAt == calls[i].now + WINDOW
    ensures |AdmittedCalls(calls, n, key, calls[i].now, calls[i].now + 600_000)| <= limit
  {
    AdmittedCounted(calls, n, key, calls[i].now, calls[i].now + WINDOW);
    RunCharges(calls, n, key, limit, calls[i].now);
    BucketLasts(calls, i, n, key);
    hide AdmittedIn, AdmittedCalls, TableAt, Purged;
  }

  lemma {:induction false} BucketLasts(calls: seq<Call>, i: nat, n: nat, key: string)
    requires Monotone(calls)
    requires i < n <= |calls| && calls[i].key == key && calls[n - 1].now < calls[i].now + WINDOW
    requires key !in Purged(TableAt(calls, i), calls[i].now) && |Purged(TableAt(calls, i), calls[i].now)| < MAX_BUCKETS
    ensures key in TableAt(calls, n) && TableAt(calls, n)[key].expiresAt == calls[i].now + WINDOW
  {
    if n > i + 1 {
      MonotoneAt(calls, n - 2, n - 1);
      hide Monotone;
      BucketLasts(calls, i, n - 1, key);
    }
  }

  // ---- A desktop's own bucket

  /** When the first calls for `key` were made. */
  function TimesOf(calls: seq<Call>, n: nat, key: string): seq<int>
    requires n <= |calls|
  {
    if n == 0 then [] else TimesOf(calls, n - 1, key) + if calls[n - 1].key == key then [calls[n - 1].now] else []
  }

  ghost function CallsOf(calls: seq<Call>, n: nat, key: string): set<nat>
    requires n <= |calls|
  {
    set i: nat | i < n && calls[i].key == key
  }

  lemma NextCall(calls: seq<Call>, n: nat, key: string)
    requires 0 < n <= |calls|
    ensures |CallsOf(calls, n, key)| == |CallsOf(calls, n - 1, key)| + if calls[n - 1].key == key then 1 else 0
  {
    var rest := CallsOf(calls, n - 1, key);
    assert CallsOf(calls, n, key) == rest + if calls[n - 1].key == key then {n - 1} else {};
  }

  /** The times are those of all calls for the key. */
  lemma {:induction false} TimesCounted(calls: seq<Call>, n: nat, key: string)
    requires n <= |calls|
    ensures |TimesOf(calls, n, key)| == |CallsOf(calls, n, key)|
  {
    if n == 0 {
      assert CallsOf(calls, n, key) == {};
    } else {
      TimesCounted(calls, n - 1, key);
      NextCall(calls, n, key);
      hide CallsOf;
    }
  }

  lemma {:induction false} TimesComplete(calls: seq<Call>, n: nat, key: string)
    requires n <= |calls|
    ensures forall i :: 0 <= i < n && calls[i].key == key ==> calls[i].now in TimesOf(calls, n, key)
  {
    if n > 0 {
      TimesComplete(calls, n - 1, key);
    }
  }

  lemma {:induction false} AttemptsCounted(calls: seq<Call>, n: nat, key: string)
    requires n <= |calls|
    ensures var t := TableAt(calls, n); key in t ==> t[key].attempts <= |TimesOf(calls, n, key)|
  {
    if n > 0 {
      AttemptsCounted(calls, n - 1, key);
    }
  }

  lemma {:induction false} TimesPrefix(calls: seq<Call>, m: nat, n: nat, key: string)
    requires m <= n <= |calls|
    ensures TimesOf(calls, m, key) <= TimesOf(calls, n, key)
    decreases n
  {
    if m < n {
      TimesPrefix(calls, m, n - 1, key);
    }
  }

  /** A key called at most `limit` times is turned away only while the table is full. */
  lemma FewCallsAdmitted(calls: seq<Call>, i: nat, key: string)
    requires i < |calls| && calls[i].key == key
    requires |TimesOf(calls, |calls|, key)| <= calls[i].limit
    ensures AdmittedAt(calls, i) || Refused(Purged(TableAt(calls, i), calls[i].now), key)
  {
    AttemptsCounted(calls, i, key);
    TimesPrefix(calls, i + 1, |calls|, key);
    var before := TimesOf(calls, i, key);
    assert TimesOf(calls, i + 1, key) == before + [calls[i].now];
    assert |before| + 1 <= |TimesOf(calls, |calls|, key)|;
    hide TimesOf, TableAt;
  }

  /**
   * Whatever the manager does, a code that lives ten minutes and is polled every five seconds is claimed
   * at most 120 times.
   */
  lemma DesktopClaims(stored: Option<DesktopManager.Profile>, clock: int, steps: seq<DesktopManager.Step>)
    requires DesktopManager.IsRun(DesktopManager.InitialWorld(stored, clock), steps)
    ensures var w := DesktopManager.Run(DesktopManager.InitialWorld(stored, clock), steps);
            w.state.pairing.Some? && w.state.pairing.value.intervalSeconds >= 5
              && w.state.pairing.value.expiresAt <= w.issued + WINDOW
            ==> |w.state.claims| <= 120
  {
    DesktopManager.ClaimsBounded(stored, clock, steps);
    var w := DesktopManager.Run(DesktopManager.InitialWorld(stored, clock), steps);
    hide DesktopManager.Run, DesktopManager.IsRun;
    if w.state.pairing.Some? && w.state.pairing.value.intervalSeconds >= 5
       && w.state.pairing.value.expiresAt <= w.issued + WINDOW && w.state.claims != [] {
      FewGaps(|w.state.claims| - 1, w.state.pairing.value.intervalSeconds * 1000);
    }
  }

  lemma FewGaps(n: nat, gap: nat)
    requires gap >= 5000 && n * gap < WINDOW
    ensures n < 120
  {
    assert n * 5000 <= n * gap;
  }

  /**
   * What the server knows of the claims that it charges, in its own time: the code was issued at `issued`, the
   * j-th charged claim is at most the j-th that the desktop made and is charged before the code expires, and
   * the desktop made its first claim after the code was issued. The desktop's clock is ahead by `skew`.
   */
  predicate ChargedClaims(charged: seq<int>, claims: seq<int>, issued: int, skew: int) {
    && |charged| <= |claims|
    && (forall j :: 0 <= j < |charged| ==> claims[j] - skew <= charged[j] < issued + WINDOW)
    && (claims != [] ==> issued <= claims[0] - skew)
  }

  lemma {:induction false} SpacedFrom(times: seq<int>, gap: int, j: nat)
    requires DesktopManager.Spaced(times, gap) && j < |times|
    ensures times[0] + j * gap <= times[j]
  {
    if j > 0 {
      SpacedFrom(times, gap, j - 1);
      assert times[j - 1] + gap <= times[j - 1 + 1];
      assert j * gap == (j - 1) * gap + gap;
    }
  }

  lemma FewCharged(charged: seq<int>, claims: seq<int>, issued: int, skew: int, gap: nat)
    requires ChargedClaims(charged, claims, issued, skew) && DesktopManager.Spaced(claims, gap) && gap >= 5000
    ensures |charged| <= 120
  {
    if charged != [] {
      SpacedFrom(claims, gap, |charged| - 1);
      FewGaps(|charged| - 1, gap);
    }
  }

  /**
   * So a desktop never uses up its own bucket, whatever other callers do, how long its calls travel, and how far
   * its clock is from the server's.
   */
  lemma DesktopNeverExhausted(
      stored: Option<DesktopManager.Profile>, clock: int, steps: seq<DesktopManager.Step>, calls: seq<Call>, i: nat,
      key: string, issued: int, skew: int)
    requires DesktopManager.IsRun(DesktopManager.InitialWorld(stored, clock), steps)
    requires var w := DesktopManager.Run(DesktopManager.InitialWorld(stored, clock), steps);
             && w.state.pairing.Some? && w.state.pairing.value.intervalSeconds >= 5
             && ChargedClaims(TimesOf(calls, |calls|, key), w.state.claims, issued, skew)
    requires i < |calls| && calls[i].key == key && LimitOf(calls, key, 125)
    ensures AdmittedAt(calls, i) || Refused(Purged(TableAt(calls, i), calls[i].now), key)
  {
    DesktopManager.ClaimsBounded(stored, clock, steps);
    var w := DesktopManager.Run(DesktopManager.InitialWorld(stored, clock), steps);
    hide DesktopManager.Run, DesktopManager.IsRun, TimesOf, AdmittedAt, TableAt, Refused, Purged, ChargedClaims;
    FewCharged(TimesOf(calls, |calls|, key), w.state.claims, issued, skew,
               w.state.pairing.value.intervalSeconds * 1000);
    FewCallsAdmitted(calls, i, key);
  }
}
