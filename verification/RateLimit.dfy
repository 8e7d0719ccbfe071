// The API's rate limiter: token buckets in an LRU-bounded store.
module RateLimit {
  import opened Common

  // ---- one bucket ------------------------------------------------------------------

  datatype Bucket = Bucket(capacity: nat, tokens: real, last: real)

  // Tokens earned in `dt` seconds.
  function Earned(capacity: nat, dt: real): real { capacity as real * dt / 60.0 }

  function MinReal(x: real, y: real): real { if x <= y then x else y }

  function Refill(b: Bucket, now: real): Bucket {
    var elapsed := if now - b.last > 0.0 then now - b.last else 0.0;
    Bucket(b.capacity, MinReal(b.capacity as real, b.tokens + Earned(b.capacity, elapsed)), now)
  }

  predicate Allowed(b: Bucket, now: real) { Refill(b, now).tokens >= 1.0 }

  function Take(b: Bucket, now: real): Bucket {
    var r := Refill(b, now);
    if r.tokens >= 1.0 then r.(tokens := r.tokens - 1.0) else r
  }

  predicate ValidBucket(b: Bucket) { 0.0 <= b.tokens <= b.capacity as real }

  class TokenBucket {
    const capacity: nat
    var tokens: real
    var lastRefill: real

    function View(): Bucket
      reads this
    {
      Bucket(capacity, tokens, lastRefill)
    }

    constructor (capacity: nat, now: real)
      ensures View() == Bucket(capacity, capacity as real, now)
    {
      this.capacity := capacity;
      tokens, lastRefill := capacity as real, now;
    }

    method Consume(now: real) returns (allowed: bool)
      modifies this
      ensures View() == Take(old(View()), now)
      ensures allowed == Allowed(old(View()), now)
      ensures old(ValidBucket(View())) ==> ValidBucket(View())
    {
      hide Earned;
      EarnsNothingBack(capacity, if now - lastRefill > 0.0 then now - lastRefill else 0.0);
      var elapsed := if now - lastRefill > 0.0 then now - lastRefill else 0.0;
      tokens := MinReal(capacity as real, tokens + Earned(capacity, elapsed));
      lastRefill := now;
      allowed := tokens >= 1.0;
      if allowed {
        tokens := tokens - 1.0;
      }
    }
  }

  lemma EarnsNothingBack(capacity: nat, dt: real)
    requires dt >= 0.0
    ensures Earned(capacity, dt) >= 0.0
  {
  }

  lemma EarnsInParts(capacity: nat, x: real, y: real)
    ensures Earned(capacity, x) + Earned(capacity, y) == Earned(capacity, x + y)
  {
  }

  lemma EarnsMore(capacity: nat, x: real, y: real)
    requires x <= y
    ensures Earned(capacity, x) <= Earned(capacity, y)
  {
    EarnsNothingBack(capacity, y - x);
    EarnsInParts(capacity, x, y - x);
  }

  lemma TakeKeeps(b: Bucket, now: real)
    requires ValidBucket(b)
    ensures ValidBucket(Take(b, now))
  {
    hide Earned;
    EarnsNothingBack(b.capacity, if now - b.last > 0.0 then now - b.last else 0.0);
  }

  // The bucket after calls at these times.
  function After(b: Bucket, times: seq<real>): Bucket {
    if times == [] then b else Take(After(b, times[..|times| - 1]), times[|times| - 1])
  }

  // How many calls in [t1, t2] were allowed.
  function Admitted(b: Bucket, times: seq<real>, t1: real, t2: real): nat {
    if times == [] then 0
    else
      var (init, now) := (times[..|times| - 1], times[|times| - 1]);
      Admitted(b, init, t1, t2) + if t1 <= now <= t2 && Allowed(After(b, init), now) then 1 else 0
  }

  ghost predicate Nondecreasing(b: Bucket, times: seq<real>) {
    && (forall i :: 0 <= i < |times| ==> b.last <= times[i])
    && (forall i, j :: 0 <= i < j < |times| ==> times[i] <= times[j])
  }

  // Whatever the calls, the tokens stay within [0, capacity].
  lemma {:induction false} TokensInRange(b: Bucket, times: seq<real>)
    requires ValidBucket(b)
    ensures ValidBucket(After(b, times)) && After(b, times).capacity == b.capacity
  {
    if times != [] {
      TokensInRange(b, times[..|times| - 1]);
      hide Take;
      TakeKeeps(After(b, times[..|times| - 1]), times[|times| - 1]);
      KeepsCapacity(After(b, times[..|times| - 1]), times[|times| - 1]);
    }
  }

  lemma KeepsCapacity(b: Bucket, now: real)
    ensures Take(b, now).capacity == b.capacity && Take(b, now).last == now
  {
  }

  // Admissions plus remaining tokens never exceed what a full bucket and the
  // refill since t1 provide.
  ghost predicate Balance(b: Bucket, admitted: nat, t1: real) {
    if b.last < t1 then admitted == 0
    else admitted as real + b.tokens <= b.capacity as real + Earned(b.capacity, b.last - t1)
  }

  lemma BalanceStep(b: Bucket, admitted: nat, t1: real, now: real)
    requires ValidBucket(b) && Balance(b, admitted, t1) && b.last <= now
    ensures Balance(Take(b, now), admitted + if t1 <= now && Allowed(b, now) then 1 else 0, t1)
  {
    hide Earned;
    if now >= t1 {
      EarnsNothingBack(b.capacity, now - t1);
      if b.last >= t1 {
        EarnsInParts(b.capacity, b.last - t1, now - b.last);
        assert b.last - t1 + (now - b.last) == now - t1;
      }
    }
  }

  lemma StartsBalanced(b: Bucket, t1: real)
    requires ValidBucket(b)
    ensures Balance(b, 0, t1)
  {
    hide Earned;
    if b.last >= t1 { EarnsNothingBack(b.capacity, b.last - t1); }
  }

  lemma {:induction false} BalanceAlways(b: Bucket, times: seq<real>, t1: real, t2: real)
    requires ValidBucket(b) && Nondecreasing(b, times)
    requires forall i :: 0 <= i < |times| ==> times[i] <= t2
    ensures Balance(After(b, times), Admitted(b, times, t1, t2), t1)
    ensures After(b, times).last == if times == [] then b.last else times[|times| - 1]
  {
    hide Balance, Allowed, Take;
    if times == [] {
      StartsBalanced(b, t1);
    } else {
      var (init, now) := (times[..|times| - 1], times[|times| - 1]);
      BalanceAlways(b, init, t1, t2);
      TokensInRange(b, init);
      BalanceStep(After(b, init), Admitted(b, init, t1, t2), t1, now);
      KeepsCapacity(After(b, init), now);
    }
  }

  // Calls outside the window do not count, so the tail after t2 can be dropped.
  lemma {:induction false} AdmittedBefore(b: Bucket, times: seq<real>, t1: real, t2: real) returns (n: nat)
    requires Nondecreasing(b, times)
    ensures n <= |times| && Admitted(b, times, t1, t2) == Admitted(b, times[..n], t1, t2)
    ensures forall i :: 0 <= i < n ==> times[i] <= t2
  {
    if times == [] || times[|times| - 1] <= t2 {
      n := |times|;
      assert times[..n] == times;
    } else {
      n := AdmittedBefore(b, times[..|times| - 1], t1, t2);
      assert times[..|times| - 1][..n] == times[..n];
    }
  }

  lemma BalanceBounds(b: Bucket, admitted: nat, t1: real, t2: real)
    requires ValidBucket(b) && Balance(b, admitted, t1) && t1 <= t2 && (b.last <= t2 || admitted == 0)
    ensures admitted as real <= b.capacity as real + Earned(b.capacity, t2 - t1)
  {
    hide Earned;
    EarnsNothingBack(b.capacity, t2 - t1);
    if admitted > 0 { EarnsMore(b.capacity, b.last - t1, t2 - t1); }
  }

  // For any nondecreasing call times, the calls admitted in a window [t1, t2]
  // number at most capacity + capacity * (t2 - t1) / 60.
  lemma RateBound(b: Bucket, times: seq<real>, t1: real, t2: real)
    requires ValidBucket(b) && Nondecreasing(b, times) && t1 <= t2
    ensures Admitted(b, times, t1, t2) as real <= b.capacity as real + b.capacity as real * (t2 - t1) / 60.0
  {
    assert Earned(b.capacity, t2 - t1) == b.capacity as real * (t2 - t1) / 60.0;
    BoundByEarned(b, times, t1, t2);
  }

  lemma BoundByEarned(b: Bucket, times: seq<real>, t1: real, t2: real)
    requires ValidBucket(b) && Nondecreasing(b, times) && t1 <= t2
    ensures Admitted(b, times, t1, t2) as real <= b.capacity as real + Earned(b.capacity, t2 - t1)
  {
    hide Earned, Allowed, Take, Balance;
    var n := AdmittedBefore(b, times, t1, t2);
    TokensInRange(b, times[..n]);
    BalanceAlways(b, times[..n], t1, t2);
    BalanceBounds(After(b, times[..n]), Admitted(b, times[..n], t1, t2), t1, t2);
  }

  function Repeat(now: real, n: nat): (r: seq<real>)
    ensures |r| == n && forall i :: 0 <= i < n ==> r[i] == now
  {
    seq(n, _ => now)
  }

  // The tokens a bucket holds at `now`, before any call.
  function Holds(b: Bucket, now: real): real {
    var earned := if now > b.last then b.capacity as real * (now - b.last) / 60.0 else 0.0;
    if b.tokens + earned > b.capacity as real then b.capacity as real else b.tokens + earned
  }

  lemma HoldsIsRefill(b: Bucket, now: real)
    requires ValidBucket(b)
    ensures Refill(b, now).tokens == Holds(b, now)
  {
  }

  // The bucket after `n` calls at `now`.
  function LeftAfter(b: Bucket, now: real, n: nat): Bucket {
    Bucket(b.capacity, Holds(b, now) - Min(n, Holds(b, now).Floor) as real, now)
  }

  // Calls at one instant are admitted as long as whole tokens last: exactly as
  // many as the bucket holds, and a full bucket admits `capacity` of them.
  lemma {:induction false} BurstAdmitsTokens(b: Bucket, now: real, n: nat)
    requires ValidBucket(b)
    ensures Admitted(b, Repeat(now, n), now, now) == Min(n, Holds(b, now).Floor)
    ensures n > 0 ==> After(b, Repeat(now, n)) == LeftAfter(b, now, n)
  {
    hide Refill, Holds;
    HoldsIsRefill(b, now);
    HoldsSome(b, now);
    if n > 0 {
      var times := Repeat(now, n);
      assert times[..n - 1] == Repeat(now, n - 1) && times[n - 1] == now;
      BurstAdmitsTokens(b, now, n - 1);
      if n == 1 {
        assert Repeat(now, 0) == [];
        FirstCall(b, now);
      } else {
        NextCall(b, now, n - 1);
      }
    }
  }

  lemma HoldsSome(b: Bucket, now: real)
    requires ValidBucket(b)
    ensures 0.0 <= Holds(b, now) <= b.capacity as real
  {
    if now > b.last { EarnsNothingBack(b.capacity, now - b.last); }
  }

  lemma FirstCall(b: Bucket, now: real)
    requires ValidBucket(b)
    ensures Allowed(b, now) <==> Holds(b, now).Floor >= 1
    ensures Take(b, now) == Bucket(b.capacity, Holds(b, now) - (if Allowed(b, now) then 1.0 else 0.0), now)
  {
    HoldsIsRefill(b, now);
    hide Holds, Earned;
  }

  // A further call at the same instant finds what is left.
  lemma NextCall(b: Bucket, now: real, n: nat)
    requires ValidBucket(b)
    ensures var left := LeftAfter(b, now, n);
      && (Allowed(left, now) <==> Holds(b, now).Floor > n)
      && Take(left, now) == Bucket(b.capacity, left.tokens - (if Allowed(left, now) then 1.0 else 0.0), now)
  {
    hide Holds;
    HoldsSome(b, now);
    assert Earned(b.capacity, 0.0) == 0.0;
  }

  // Each call comes 60 / capacity seconds or more after the one before.
  predicate Spaced(b: Bucket, times: seq<real>)
    requires b.capacity >= 1
  {
    forall i :: 0 <= i < |times| ==> Before(b, times, i) + 60.0 / b.capacity as real <= times[i]
  }

  function Before(b: Bucket, times: seq<real>, i: nat): real
    requires i < |times|
  {
    if i == 0 then b.last else times[i - 1]
  }

  // Conversely, a caller who waits 60 / capacity seconds between calls is
  // never refused.
  lemma {:induction false} SteadyCallerAdmitted(b: Bucket, times: seq<real>)
    requires ValidBucket(b) && b.capacity >= 1
    requires Spaced(b, times)
    ensures forall i :: 0 <= i < |times| ==> Allowed(After(b, times[..i]), times[i])
    ensures After(b, times).last == if times == [] then b.last else times[|times| - 1]
  {
    hide Allowed, Take;
    if times != [] {
      var (init, now) := (times[..|times| - 1], times[|times| - 1]);
      forall i | 0 <= i < |init| ensures Before(b, init, i) == Before(b, times, i) && init[i] == times[i] {}
      SteadyCallerAdmitted(b, init);
      TokensInRange(b, init);
      assert Before(b, times, |init|) + 60.0 / b.capacity as real <= now;
      EnoughAfterWait(After(b, init), now);
      KeepsCapacity(After(b, init), now);
      forall i | 0 <= i < |init| ensures Allowed(After(b, times[..i]), times[i]) {
        assert init[..i] == times[..i] && init[i] == times[i];
      }
    }
  }

  lemma EnoughAfterWait(b: Bucket, now: real)
    requires ValidBucket(b) && b.capacity >= 1 && b.last + 60.0 / b.capacity as real <= now
    ensures Allowed(b, now)
  {
    hide Earned;
    var (c, wait) := (b.capacity as real, 60.0 / b.capacity as real);
    assert wait > 0.0;
    assert Earned(b.capacity, wait) == 1.0 by { EarnsOne(b.capacity); }
    EarnsMore(b.capacity, wait, now - b.last);
  }

  lemma EarnsOne(capacity: nat)
    requires capacity >= 1
    ensures Earned(capacity, 60.0 / capacity as real) == 1.0
  {
    var c := capacity as real;
    assert c * (60.0 / c) == 60.0;
  }

  // ---- the store -------------------------------------------------------------------------

  // An ordered dictionary: its keys, least recently requested first, and what
  // they map to.
  datatype Store<B> = Store(order: seq<string>, buckets: map<string, B>)

  function Without(s: seq<string>, k: string): (r: seq<string>)
    ensures forall x :: x in r <==> x in s && x != k
    ensures k !in s ==> r == s
  {
    if s == [] then []
    else if s[|s| - 1] == k then Without(s[..|s| - 1], k)
    else
      assert s == s[..|s| - 1] + [s[|s| - 1]];
      Without(s[..|s| - 1], k) + [s[|s| - 1]]
  }

  // Keep the newest `max` entries.
  function Trim(s: seq<string>, max: nat): seq<string> { if |s| > max then s[|s| - max..] else s }

  function Newest<B>(s: Store<B>, n: nat): Store<B>
    requires n <= |s.order|
  {
    var kept := s.order[|s.order| - n..];
    Store(kept, map x | x in s.buckets && x in kept :: s.buckets[x])
  }

  // Put `b` under `k`, as the most recent entry, and evict from the old end.
  function Touch<B>(s: Store<B>, k: string, b: B, max: nat): Store<B> {
    var all := Store(Without(s.order, k) + [k], s.buckets[k := b]);
    Newest(all, Min(max, |all.order|))
  }

  // Popping the oldest entry of the newest `n` leaves the newest `n - 1`.
  lemma PopNewest<B>(s: Store<B>, n: nat)
    requires Distinct(s.order) && 0 < n <= |s.order|
    ensures var t := Newest(s, n);
      |t.order| == n && Store(t.order[1..], t.buckets - {t.order[0]}) == Newest(s, n - 1)
  {
    var (kept, rest) := (s.order[|s.order| - n..], s.order[|s.order| - n + 1..]);
    assert kept[1..] == rest;
    NotAgain(s.order, |s.order| - n);
    hide Distinct;
    SameMap(s.buckets, kept, rest);
  }

  lemma NotAgain(s: seq<string>, i: nat)
    requires Distinct(s) && i < |s|
    ensures s[i] !in s[i + 1..]
  {
  }

  lemma SameMap<B>(m: map<string, B>, kept: seq<string>, rest: seq<string>)
    requires kept != [] && kept[1..] == rest && kept[0] !in rest
    ensures (map x | x in m && x in kept :: m[x]) - {kept[0]} == map x | x in m && x in rest :: m[x]
  {
    assert kept == [kept[0]] + rest;
  }

  lemma NewestOfAll<B>(s: Store<B>)
    requires forall k :: k in s.buckets ==> k in s.order
    ensures Newest(s, |s.order|) == s
  {
    assert s.order[0..] == s.order;
  }

  ghost predicate ValidStore<B>(s: Store<B>, max: nat) {
    Distinct(s.order) && |s.order| <= max && forall k :: k in s.order <==> k in s.buckets
  }

  class BucketStore {
    const max: nat
    var order: seq<string>
    var buckets: map<string, TokenBucket>

    function View(): Store<TokenBucket>
      reads this
    {
      Store(order, buckets)
    }

    ghost predicate Valid()
      reads this
    {
      ValidStore(View(), max)
    }

    constructor (max: nat)
      ensures Valid() && this.max == max && View() == Store([], map[])
    {
      this.max := max;
      order, buckets := [], map[];
    }

    method Get(key: string, capacity: nat, now: real) returns (b: TokenBucket)
      requires Valid()
      modifies this
      ensures Valid() && View() == Touch(old(View()), key, b, max)
      ensures if key in old(buckets) && old(buckets)[key].capacity == capacity then b == old(buckets)[key]
              else fresh(b) && b.View() == Bucket(capacity, capacity as real, now)
    {
      hide Without, Newest;
      if key in buckets && buckets[key].capacity == capacity {
        b := buckets[key];
      } else {
        b := new TokenBucket(capacity, now);
        buckets := buckets[key := b];
      }
      TouchKeeps(old(View()), key, b, max);
      order := Without(order, key) + [key];
      ghost var all := View();
      assert all == Store(Without(old(order), key) + [key], old(buckets)[key := b]);
      NewestOfAll(all);
      while |order| > max
        invariant |order| <= |all.order| && (|order| < |all.order| ==> max <= |order|)
        invariant View() == Newest(all, |order|)
        modifies this
      {
        PopNewest(all, |order|);
        buckets := buckets - {order[0]};
        order := order[1..];
      }
      assert |order| == Min(max, |all.order|);
      assert View() == Touch(old(View()), key, b, max);
    }
  }

  lemma {:induction false} WithoutDistinct(s: seq<string>, k: string)
    requires Distinct(s)
    ensures Distinct(Without(s, k))
    ensures |Without(s, k)| == |s| - if k in s then 1 else 0
  {
    if s != [] {
      var (init, last) := (s[..|s| - 1], s[|s| - 1]);
      assert s == init + [last] && last !in init;
      WithoutDistinct(init, k);
      AppendDistinct(Without(init, k), last);
    }
  }

  lemma AppendDistinct(s: seq<string>, x: string)
    requires Distinct(s) && x !in s
    ensures Distinct(s + [x])
  {
  }

  lemma TouchKeeps<B>(s: Store<B>, k: string, b: B, max: nat)
    requires ValidStore(s, max)
    ensures ValidStore(Touch(s, k, b, max), max)
    ensures Distinct(Without(s.order, k) + [k])
  {
    hide Without;
    WithoutDistinct(s.order, k);
    AppendDistinct(Without(s.order, k), k);
  }

  // ---- any sequence of requests -------------------------------------------------------------

  datatype Request = Request(key: string, capacity: nat)

  // Which request created a bucket stands for the bucket's identity.
  datatype Birth = Birth(capacity: nat, index: nat)

  function Answer(s: Store<Birth>, r: Request, i: nat): Birth {
    if r.key in s.buckets && s.buckets[r.key].capacity == r.capacity then s.buckets[r.key] else Birth(r.capacity, i)
  }

  function Serve(s: Store<Birth>, r: Request, i: nat, max: nat): Store<Birth> {
    Touch(s, r.key, Answer(s, r, i), max)
  }

  function Bounded(rs: seq<Request>, max: nat): Store<Birth> {
    if rs == [] then Store([], map[]) else Serve(Bounded(rs[..|rs| - 1], max), rs[|rs| - 1], |rs| - 1, max)
  }

  // The same requests against a map that never forgets.
  function Unbounded(rs: seq<Request>): map<string, Birth> {
    if rs == [] then map[]
    else
      var (m, r) := (Unbounded(rs[..|rs| - 1]), rs[|rs| - 1]);
      if r.key in m && m[r.key].capacity == r.capacity then m else m[r.key := Birth(r.capacity, |rs| - 1)]
  }

  // The requested keys, each once, in the order of their last requests.
  function Recency(rs: seq<Request>): seq<string> {
    if rs == [] then [] else Without(Recency(rs[..|rs| - 1]), rs[|rs| - 1].key) + [rs[|rs| - 1].key]
  }

  function LastRequest(rs: seq<Request>, k: string): int {
    if rs == [] then -1 else if rs[|rs| - 1].key == k then |rs| - 1 else LastRequest(rs[..|rs| - 1], k)
  }

  lemma {:induction false} WithoutSplits(s: seq<string>, t: seq<string>, k: string)
    ensures Without(s + t, k) == Without(s, k) + Without(t, k)
  {
    if t == [] {
      assert s + t == s;
    } else {
      assert (s + t)[..|s + t| - 1] == s + t[..|t| - 1];
      WithoutSplits(s, t[..|t| - 1], k);
    }
  }

  // Strictly ascending under `f`.
  ghost predicate Ascends(s: seq<string>, f: string -> int) {
    forall i, j :: 0 <= i < j < |s| ==> f(s[i]) < f(s[j])
  }

  lemma {:induction false} WithoutKeepsOrder(s: seq<string>, k: string, f: string -> int)
    requires Ascends(s, f)
    ensures Ascends(Without(s, k), f)
  {
    if s != [] {
      var (init, last) := (s[..|s| - 1], s[|s| - 1]);
      assert s == init + [last];
      WithoutKeepsOrder(init, k, f);
      forall x | x in Without(init, k) ensures f(x) < f(last) {
        assert x in init;
        var i :| 0 <= i < |init| && init[i] == x;
        assert s[i] == x;
      }
    }
  }

  lemma {:induction false} LastRequestBounded(rs: seq<Request>, k: string)
    ensures -1 <= LastRequest(rs, k) < |rs|
    ensures LastRequest(rs, k) >= 0 <==> exists i :: 0 <= i < |rs| && rs[i].key == k
  {
    if rs != [] {
      LastRequestBounded(rs[..|rs| - 1], k);
    }
  }

  function LastRequestIn(rs: seq<Request>): string -> int { (k: string) => LastRequest(rs, k) }

  // Recency lists exactly the requested keys, strictly by last request.
  lemma {:induction false} RecencyFacts(rs: seq<Request>)
    ensures forall k :: k in Recency(rs) <==> LastRequest(rs, k) >= 0
    ensures Ascends(Recency(rs), LastRequestIn(rs)) && Distinct(Recency(rs))
  {
    if rs != [] {
      var (init, k) := (rs[..|rs| - 1], rs[|rs| - 1].key);
      RecencyFacts(init);
      WithoutKeepsOrder(Recency(init), k, LastRequestIn(init));
      var w := Without(Recency(init), k);
      forall x | x in w ensures LastRequestIn(rs)(x) == LastRequestIn(init)(x) < |rs| - 1 {
        LastRequestBounded(init, x);
      }
      WithoutDistinct(Recency(init), k);
      AppendDistinct(w, k);
      AscendsNext(w, k, LastRequestIn(init), LastRequestIn(rs));
    }
  }

  lemma AscendsNext(w: seq<string>, k: string, f: string -> int, g: string -> int)
    requires Ascends(w, f) && forall x :: x in w ==> g(x) == f(x) < g(k)
    ensures Ascends(w + [k], g)
  {
  }

  lemma TrimStep(recent: seq<string>, k: string, max: nat)
    requires Distinct(recent)
    ensures Trim(Without(Trim(recent, max), k) + [k], max) == Trim(Without(recent, k) + [k], max)
  {
    hide Without;
    if |recent| > max {
      var (old_, kept) := (recent[..|recent| - max], recent[|recent| - max..]);
      assert recent == old_ + kept;
      WithoutSplits(old_, kept, k);
      assert Distinct(kept) && Distinct(old_);
      WithoutDistinct(kept, k);
      WithoutDistinct(old_, k);
      assert k in kept ==> k !in old_;
      TrimAppend(Without(old_, k), Without(kept, k) + [k], max);
      assert Without(old_, k) + (Without(kept, k) + [k]) == Without(recent, k) + [k];
    }
  }

  lemma TrimAppend(old_: seq<string>, s: seq<string>, max: nat)
    requires |s| >= max
    ensures Trim(old_ + s, max) == Trim(s, max)
  {
  }

  lemma {:induction false} BoundedValid(rs: seq<Request>, max: nat)
    ensures ValidStore(Bounded(rs, max), max)
  {
    if rs != [] {
      BoundedValid(rs[..|rs| - 1], max);
      hide Without;
      var (s, r) := (Bounded(rs[..|rs| - 1], max), rs[|rs| - 1]);
      TouchKeeps(s, r.key, Answer(s, r, |rs| - 1), max);
    }
  }

  // After any requests the store holds exactly the `max` most recently
  // requested keys (all of them while they are fewer), in recency order.
  lemma {:induction false} HoldsMostRecent(rs: seq<Request>, max: nat)
    ensures Bounded(rs, max).order == Trim(Recency(rs), max)
  {
    hide Without, Trim, Touch;
    if rs == [] {
      TrimNothing(max);
    } else {
      var (init, last) := (rs[..|rs| - 1], rs[|rs| - 1]);
      HoldsMostRecent(init, max);
      RecencyFacts(init);
      TrimStep(Recency(init), last.key, max);
      TouchOrder(Bounded(init, max), last.key, Answer(Bounded(init, max), last, |rs| - 1), max);
    }
  }

  lemma TouchOrder<B>(s: Store<B>, k: string, b: B, max: nat)
    ensures Touch(s, k, b, max).order == Trim(Without(s.order, k) + [k], max)
  {
    hide Without;
    var all := Without(s.order, k) + [k];
    assert all[0..] == all;
  }

  lemma TrimNothing(max: nat)
    ensures Trim([], max) == []
  {
  }

  predicate Held(rs: seq<Request>, max: nat, k: string) { k in Bounded(rs, max).buckets }

  // At some request after number `i`, the key left the store.
  ghost predicate EvictedSince(rs: seq<Request>, max: nat, k: string, i: nat) {
    exists j :: i < j < |rs| && Held(rs[..j], max, k) && !Held(rs[..j + 1], max, k)
  }

  lemma {:induction false} LostMeansEvicted(rs: seq<Request>, max: nat, k: string, i: nat)
    requires i < |rs| && Held(rs[..i + 1], max, k) && !Held(rs, max, k)
    ensures EvictedSince(rs, max, k, i)
  {
    hide Held;
    assert rs[..|rs|] == rs;
    if i + 1 < |rs| {
      var init := rs[..|rs| - 1];
      assert init[..i + 1] == rs[..i + 1];
      if !Held(init, max, k) {
        LostMeansEvicted(init, max, k, i);
        var j :| i < j < |init| && Held(init[..j], max, k) && !Held(init[..j + 1], max, k);
        assert init[..j] == rs[..j] && init[..j + 1] == rs[..j + 1];
      } else {
        assert rs[..(|rs| - 1) + 1] == rs;
      }
    }
  }

  lemma EvictedSinceStep(rs: seq<Request>, max: nat, k: string, i: nat)
    requires rs != [] && Held(rs, max, k)
    ensures EvictedSince(rs, max, k, i) <==> EvictedSince(rs[..|rs| - 1], max, k, i)
  {
    hide Held;
    var init := rs[..|rs| - 1];
    assert rs[..|rs|] == rs && init[..|init|] == init;
    forall j | 0 <= j <= |init| ensures init[..j] == rs[..j] {}
    if EvictedSince(rs, max, k, i) {
      var j :| i < j < |rs| && Held(rs[..j], max, k) && !Held(rs[..j + 1], max, k);
      assert j + 1 != |rs|;
      assert Held(init[..j], max, k) && !Held(init[..j + 1], max, k);
    }
    if EvictedSince(init, max, k, i) {
      var j :| i < j < |init| && Held(init[..j], max, k) && !Held(init[..j + 1], max, k);
      assert Held(rs[..j], max, k) && !Held(rs[..j + 1], max, k);
    }
  }

  // What one request does to the held keys and their buckets.
  lemma ServeFacts(rs: seq<Request>, max: nat)
    requires rs != []
    ensures var (init, r) := (rs[..|rs| - 1], rs[|rs| - 1]);
      var (s, s') := (Bounded(init, max), Bounded(rs, max));
      && (forall k :: k in s'.buckets && k != r.key ==> k in s.buckets && s'.buckets[k] == s.buckets[k])
      && (r.key in s'.buckets <==> max > 0)
      && (r.key in s'.buckets ==> s'.buckets[r.key] == Answer(s, r, |rs| - 1))
  {
    hide Touch, ValidStore;
    var (init, r) := (rs[..|rs| - 1], rs[|rs| - 1]);
    TouchFacts(Bounded(init, max), r.key, Answer(Bounded(init, max), r, |rs| - 1), max);
  }

  lemma TouchFacts<B>(s: Store<B>, k: string, b: B, max: nat)
    ensures var s' := Touch(s, k, b, max);
      && (forall x :: x in s'.buckets && x != k ==> x in s.buckets && s'.buckets[x] == s.buckets[x])
      && (k in s'.buckets <==> max > 0)
      && (k in s'.buckets ==> s'.buckets[k] == b)
  {
    hide Without;
    var all := Without(s.order, k) + [k];
    var kept := all[|all| - Min(max, |all|)..];
    assert all[|all| - 1] == k;
    if max > 0 {
      assert kept[|kept| - 1] == k;
    } else {
      assert kept == [];
    }
  }

  lemma {:induction false} BirthsAreRequests(rs: seq<Request>, k: string)
    requires k in Unbounded(rs)
    ensures Unbounded(rs)[k].index < |rs| && rs[Unbounded(rs)[k].index].key == k
  {
    if rs != [] && !(rs[|rs| - 1].key == k && Unbounded(rs)[k].index == |rs| - 1) {
      BirthsAreRequests(rs[..|rs| - 1], k);
    }
  }

  lemma RequestedIsHeld(rs: seq<Request>, max: nat, i: nat)
    requires i < |rs| && max > 0
    ensures Held(rs[..i + 1], max, rs[i].key)
  {
    ServeFacts(rs[..i + 1], max);
  }

  // For a key it holds, the store answers with the very bucket the unbounded
  // map would answer with exactly when the key was not evicted since that
  // bucket was created; either way the capacity is the same.
  ghost predicate Agrees(rs: seq<Request>, max: nat, k: string)
    requires Held(rs, max, k)
  {
    && k in Unbounded(rs) && Bounded(rs, max).buckets[k].capacity == Unbounded(rs)[k].capacity
    && (Bounded(rs, max).buckets[k] == Unbounded(rs)[k] <==> !EvictedSince(rs, max, k, Unbounded(rs)[k].index))
  }

  lemma {:induction false} AgreesWithUnbounded(rs: seq<Request>, max: nat, k: string)
    requires Held(rs, max, k)
    ensures Agrees(rs, max, k)
  {
    hide Agrees, Bounded, Unbounded, EvictedSince;
    if rs == [] {
      HoldsNothing(max, k);
    } else {
      var (init, r) := (rs[..|rs| - 1], rs[|rs| - 1]);
      ServeFacts(rs, max);
      if Held(init, max, k) {
        AgreesWithUnbounded(init, max, k);
        EvictedSinceStays(rs, max, k);
      }
      if k != r.key {
        OtherKeyAgrees(rs, max, k);
      } else if k in Unbounded(init) && Unbounded(init)[k].capacity == r.capacity {
        KeptBirthAgrees(rs, max);
      } else {
        NewBirthAgrees(rs, max);
      }
    }
  }

  lemma HoldsNothing(max: nat, k: string)
    ensures !Held([], max, k)
  {
  }

  lemma EvictedSinceStays(rs: seq<Request>, max: nat, k: string)
    requires rs != [] && Held(rs, max, k)
    ensures forall i: nat :: EvictedSince(rs, max, k, i) <==> EvictedSince(rs[..|rs| - 1], max, k, i)
  {
    hide EvictedSince, Held;
    forall i: nat ensures EvictedSince(rs, max, k, i) <==> EvictedSince(rs[..|rs| - 1], max, k, i) {
      EvictedSinceStep(rs, max, k, i);
    }
  }

  lemma OtherKeyAgrees(rs: seq<Request>, max: nat, k: string)
    requires rs != [] && Held(rs, max, k) && k != rs[|rs| - 1].key
    requires Held(rs[..|rs| - 1], max, k) && Agrees(rs[..|rs| - 1], max, k)
    ensures Agrees(rs, max, k)
  {
    hide EvictedSince, Bounded;
    ServeFacts(rs, max);
    EvictedSinceStays(rs, max, k);
  }

  // The unbounded map keeps its bucket; the store does too, unless it had
  // evicted the key in between.
  lemma KeptBirthAgrees(rs: seq<Request>, max: nat)
    requires rs != []
    requires var (init, r) := (rs[..|rs| - 1], rs[|rs| - 1]);
      && Held(rs, max, r.key) && r.key in Unbounded(init) && Unbounded(init)[r.key].capacity == r.capacity
      && (Held(init, max, r.key) ==> Agrees(init, max, r.key))
    ensures Agrees(rs, max, rs[|rs| - 1].key)
  {
    hide EvictedSince, Bounded;
    var (init, k) := (rs[..|rs| - 1], rs[|rs| - 1].key);
    ServeFacts(rs, max);
    EvictedSinceStays(rs, max, k);
    assert Unbounded(rs) == Unbounded(init);
    BirthsAreRequests(init, k);
    if !Held(init, max, k) {
      var i := Unbounded(init)[k].index;
      RequestedIsHeld(init, max, i);
      LostMeansEvicted(init, max, k, i);
    }
  }

  lemma NewBirthAgrees(rs: seq<Request>, max: nat)
    requires rs != []
    requires var (init, r) := (rs[..|rs| - 1], rs[|rs| - 1]);
      && Held(rs, max, r.key) && !(r.key in Unbounded(init) && Unbounded(init)[r.key].capacity == r.capacity)
      && (Held(init, max, r.key) ==> Agrees(init, max, r.key))
    ensures Agrees(rs, max, rs[|rs| - 1].key)
  {
    hide EvictedSince, Bounded;
    ServeFacts(rs, max);
    NotYetEvicted(rs, max, rs[|rs| - 1].key);
  }

  lemma NotYetEvicted(rs: seq<Request>, max: nat, k: string)
    requires rs != []
    ensures !EvictedSince(rs, max, k, |rs| - 1)
  {
  }
}
