// FX snapshots: capturing rates, and looking one up for an instant.
module Fx {
  import opened Common

  datatype Snapshot = Snapshot(id: nat, pair: string, rate: real, captured: int, from: int, until: Option<int>)

  const SUPPORTED_PAIRS := ["NGN/USD", "NGN/GBP", "NGN/EUR"]
  const FORWARD_TOLERANCE := 2 * HOUR

  // ---- capturing -----------------------------------------------------------------

  predicate IsCurrent(s: Snapshot, pair: string) { s.pair == pair && s.until.None? }

  // UPDATE ... SET valid_until = :now WHERE valid_until IS NULL. The table's
  // CHECK (valid_until > valid_from) rejects it when `now` is not later.
  predicate ExpiryAllowed(t: seq<Snapshot>, pair: string, now: int) {
    forall s :: s in t && IsCurrent(s, pair) ==> s.from < now
  }

  function Expired(s: Snapshot, pair: string, now: int): Snapshot {
    if IsCurrent(s, pair) then s.(until := Some(now)) else s
  }

  function Expire(t: seq<Snapshot>, pair: string, now: int): (r: seq<Snapshot>)
    ensures |r| == |t| && forall i :: 0 <= i < |t| ==> r[i] == Expired(t[i], pair, now)
  {
    seq(|t|, i requires 0 <= i < |t| => Expired(t[i], pair, now))
  }

  function CapturePair(t: seq<Snapshot>, pair: string, id: nat, rate: real, now: int): Option<seq<Snapshot>> {
    if ExpiryAllowed(t, pair, now) then Some(Expire(t, pair, now) + [Snapshot(id, pair, rate, now, now, None)])
    else None
  }

  // A quote the provider failed to give, or a non-positive one, skips the
  // pair without stopping the others.
  predicate Usable(quote: Option<real>) { quote.Some? && quote.value > 0.0 }

  // None: a constraint failed, and the transaction with it.
  function Capture(t: seq<Snapshot>, pairs: seq<string>, quotes: seq<Option<real>>, ids: seq<nat>, now: int)
    : Option<seq<Snapshot>>
    requires |pairs| == |quotes| == |ids|
  {
    if pairs == [] then Some(t)
    else
      var n := |pairs| - 1;
      match Capture(t, pairs[..n], quotes[..n], ids[..n], now)
      case None => None
      case Some(m) => if Usable(quotes[n]) then CapturePair(m, pairs[n], ids[n], quotes[n].value, now) else Some(m)
  }

  class SnapshotTable {
    var snapshots: seq<Snapshot>

    constructor ()
      ensures snapshots == []
    {
      snapshots := [];
    }

    method ExpireCurrent(pair: string, now: int) returns (ok: bool)
      modifies this
      ensures ok <==> ExpiryAllowed(old(snapshots), pair, now)
      ensures snapshots == if ok then Expire(old(snapshots), pair, now) else old(snapshots)
    {
      ok := ExpiryAllowed(snapshots, pair, now);
      if ok {
        snapshots := Expire(snapshots, pair, now);
      }
    }

    // `capture_fx_rates`, in its session: all of the captures, or none.
    method CaptureFxRates(pairs: seq<string>, quotes: seq<Option<real>>, ids: seq<nat>, now: int)
      returns (ok: bool, created: seq<nat>)
      requires |pairs| == |quotes| == |ids|
      modifies this
      ensures ok <==> Capture(old(snapshots), pairs, quotes, ids, now).Some?
      ensures snapshots == if ok then Capture(old(snapshots), pairs, quotes, ids, now).value else old(snapshots)
      ensures forall id :: ok ==> (id in created <==> exists i :: 0 <= i < |ids| && ids[i] == id && Usable(quotes[i]))
    {
      var saved := snapshots;
      created := [];
      var i := 0;
      while i < |pairs|
        invariant 0 <= i <= |pairs|
        invariant Capture(saved, pairs[..i], quotes[..i], ids[..i], now) == Some(snapshots)
        invariant forall id :: id in created <==> exists j :: 0 <= j < i && ids[j] == id && Usable(quotes[j])
      {
        CaptureStep(saved, pairs, quotes, ids, now, i);
        if Usable(quotes[i]) {
          ok := ExpireCurrent(pairs[i], now);
          if !ok {
            CaptureFails(saved, pairs, quotes, ids, now, i + 1);
            snapshots := saved;
            return;
          }
          snapshots := snapshots + [Snapshot(ids[i], pairs[i], quotes[i].value, now, now, None)];
          created := created + [ids[i]];
        }
        i := i + 1;
      }
      ok := true;
      assert pairs[..i] == pairs && quotes[..i] == quotes && ids[..i] == ids;
    }
  }

  lemma CaptureStep(t: seq<Snapshot>, pairs: seq<string>, quotes: seq<Option<real>>, ids: seq<nat>, now: int, i: nat)
    requires i < |pairs| == |quotes| == |ids|
    requires Capture(t, pairs[..i], quotes[..i], ids[..i], now).Some?
    ensures Capture(t, pairs[..i + 1], quotes[..i + 1], ids[..i + 1], now) ==
            var m := Capture(t, pairs[..i], quotes[..i], ids[..i], now);
            if Usable(quotes[i]) then CapturePair(m.value, pairs[i], ids[i], quotes[i].value, now) else m
  {
    assert pairs[..i + 1][..i] == pairs[..i] && quotes[..i + 1][..i] == quotes[..i] && ids[..i + 1][..i] == ids[..i];
  }

  lemma {:induction false} CaptureFails(
    t: seq<Snapshot>, pairs: seq<string>, quotes: seq<Option<real>>, ids: seq<nat>, now: int, i: nat)
    requires i <= |pairs| == |quotes| == |ids|
    requires Capture(t, pairs[..i], quotes[..i], ids[..i], now).None?
    ensures Capture(t, pairs, quotes, ids, now).None?
    decreases |pairs| - i
  {
    if i == |pairs| {
      assert pairs[..i] == pairs && quotes[..i] == quotes && ids[..i] == ids;
    } else {
      assert pairs[..i + 1][..i] == pairs[..i] && quotes[..i + 1][..i] == quotes[..i] && ids[..i + 1][..i] == ids[..i];
      CaptureFails(t, pairs, quotes, ids, now, i + 1);
    }
  }

  // ---- one pair's history ---------------------------------------------------------------

  function ForPair(pair: string): Snapshot -> bool { (s: Snapshot) => s.pair == pair }

  function History(t: seq<Snapshot>, pair: string): seq<Snapshot> { Filter(t, ForPair(pair)) }

  // Each snapshot is valid from its capture until the next one's, and only
  // the last is open.
  predicate Timeline(h: seq<Snapshot>) {
    && (forall i :: 0 <= i < |h| ==> h[i].captured == h[i].from)
    && (forall i :: 0 <= i < |h| - 1 ==> h[i].from < h[i + 1].from && h[i].until == Some(h[i + 1].from))
    && (h != [] ==> h[|h| - 1].until == None)
  }

  ghost predicate Tiled(t: seq<Snapshot>) {
    forall pair: string :: Timeline(History(t, pair))
  }

  lemma ExpireFirst(x: Snapshot, t: seq<Snapshot>, pair: string, now: int)
    ensures Expire([x] + t, pair, now) == [Expired(x, pair, now)] + Expire(t, pair, now)
  {
  }

  lemma HistoryFirst(x: Snapshot, t: seq<Snapshot>, q: string)
    ensures History([x] + t, q) == if x.pair == q then [x] + History(t, q) else History(t, q)
  {
    FilterAppend([x], t, ForPair(q));
    FilterOne(x, ForPair(q));
  }

  lemma {:induction false} ExpireHistory(t: seq<Snapshot>, pair: string, now: int, q: string)
    ensures History(Expire(t, pair, now), q) == if q == pair then Expire(History(t, q), pair, now) else History(t, q)
  {
    if t == [] {
      assert Expire(t, pair, now) == [];
    } else {
      hide Expire, History;
      var (x, rest) := (t[0], t[1..]);
      assert t == [x] + rest;
      ExpireHistory(rest, pair, now, q);
      ExpireFirst(x, rest, pair, now);
      HistoryFirst(x, rest, q);
      HistoryFirst(Expired(x, pair, now), Expire(rest, pair, now), q);
      ExpireFirst(x, History(rest, q), pair, now);
    }
  }

  // What a capture does to each pair's history.
  lemma CapturedHistory(t: seq<Snapshot>, pair: string, id: nat, rate: real, now: int, q: string)
    ensures var new_ := Snapshot(id, pair, rate, now, now, None);
      History(Expire(t, pair, now) + [new_], q) ==
        if q == pair then Expire(History(t, q), pair, now) + [new_] else History(t, q)
  {
    var new_ := Snapshot(id, pair, rate, now, now, None);
    ExpireHistory(t, pair, now, q);
    FilterAppend(Expire(t, pair, now), [new_], ForPair(q));
    FilterOne(new_, ForPair(q));
  }

  lemma ExtendTimeline(h: seq<Snapshot>, pair: string, id: nat, rate: real, now: int)
    requires Timeline(h) && ExpiryAllowed(h, pair, now) && forall s :: s in h ==> s.pair == pair
    ensures Timeline(Expire(h, pair, now) + [Snapshot(id, pair, rate, now, now, None)])
  {
    var e := Expire(h, pair, now);
    forall i | 0 <= i < |h| - 1 ensures e[i] == h[i] { assert h[i].until == Some(h[i + 1].from); }
    if h != [] {
      assert h[|h| - 1] in h;
      assert e[|h| - 1] == h[|h| - 1].(until := Some(now));
    }
  }

  lemma CapturePairTiled(t: seq<Snapshot>, pair: string, id: nat, rate: real, now: int)
    requires Tiled(t) && CapturePair(t, pair, id, rate, now).Some?
    ensures Tiled(CapturePair(t, pair, id, rate, now).value)
  {
    hide Timeline, Filter, Expire;
    var t' := CapturePair(t, pair, id, rate, now).value;
    forall q: string ensures Timeline(History(t', q)) {
      CapturedHistory(t, pair, id, rate, now, q);
      if q == pair { ExtendTimeline(History(t, q), pair, id, rate, now); }
    }
  }

  lemma {:induction false} CaptureTiled(
    t: seq<Snapshot>, pairs: seq<string>, quotes: seq<Option<real>>, ids: seq<nat>, now: int)
    requires |pairs| == |quotes| == |ids| && Tiled(t) && Capture(t, pairs, quotes, ids, now).Some?
    ensures Tiled(Capture(t, pairs, quotes, ids, now).value)
  {
    hide Tiled, CapturePair;
    if pairs != [] {
      var n := |pairs| - 1;
      CaptureTiled(t, pairs[..n], quotes[..n], ids[..n], now);
      if Usable(quotes[n]) {
        var m := Capture(t, pairs[..n], quotes[..n], ids[..n], now).value;
        CapturePairTiled(m, pairs[n], ids[n], quotes[n].value, now);
      }
    }
  }

  // One scheduled capture; a failed one leaves the table as it was.
  datatype Attempt = Attempt(quotes: seq<Option<real>>, ids: seq<nat>, now: int)

  predicate WellSized(a: Attempt) { |a.quotes| == |a.ids| == |SUPPORTED_PAIRS| }

  function Table(attempts: seq<Attempt>): seq<Snapshot> {
    if attempts == [] then []
    else
      var (t, a) := (Table(attempts[..|attempts| - 1]), attempts[|attempts| - 1]);
      if !WellSized(a) then t
      else
        match Capture(t, SUPPORTED_PAIRS, a.quotes, a.ids, a.now)
        case None => t
        case Some(t') => t'
  }

  // After any serial sequence of captures, whatever their times and failures:
  // every pair's validity intervals follow one another without a gap or an
  // overlap, and exactly the last is open.
  lemma {:induction false} TiledAlways(attempts: seq<Attempt>)
    ensures Tiled(Table(attempts))
  {
    hide Tiled, Capture;
    if attempts == [] {
      NothingTiled();
    } else {
      var (t, a) := (Table(attempts[..|attempts| - 1]), attempts[|attempts| - 1]);
      TiledAlways(attempts[..|attempts| - 1]);
      if WellSized(a) && Capture(t, SUPPORTED_PAIRS, a.quotes, a.ids, a.now).Some? {
        CaptureTiled(t, SUPPORTED_PAIRS, a.quotes, a.ids, a.now);
      }
    }
  }

  lemma NothingTiled()
    ensures Tiled([])
  {
  }

  // Captures come to nothing only when the clock has not moved past the open
  // snapshot of one of the pairs it would replace.
  lemma {:induction false} LaterCapturesSucceed(
    t: seq<Snapshot>, pairs: seq<string>, quotes: seq<Option<real>>, ids: seq<nat>, now: int)
    requires |pairs| == |quotes| == |ids| && Distinct(pairs)
    ensures Capture(t, pairs, quotes, ids, now).Some? <==>
            forall i :: 0 <= i < |pairs| && Usable(quotes[i]) ==> ExpiryAllowed(t, pairs[i], now)
    ensures Capture(t, pairs, quotes, ids, now).Some? ==>
              forall q: string, s :: q !in pairs ==>
                (s in Capture(t, pairs, quotes, ids, now).value && IsCurrent(s, q) <==> s in t && IsCurrent(s, q))
  {
    if pairs != [] {
      var n := |pairs| - 1;
      LaterCapturesSucceed(t, pairs[..n], quotes[..n], ids[..n], now);
      assert pairs == pairs[..n] + [pairs[n]] && pairs[n] !in pairs[..n];
      hide Capture, Expire;
      CaptureUnfolds(t, pairs, quotes, ids, now);
      if Capture(t, pairs[..n], quotes[..n], ids[..n], now).Some? {
        var m := Capture(t, pairs[..n], quotes[..n], ids[..n], now).value;
        assert ExpiryAllowed(m, pairs[n], now) <==> ExpiryAllowed(t, pairs[n], now);
        if Usable(quotes[n]) && ExpiryAllowed(m, pairs[n], now) {
          OthersStayCurrent(m, pairs[n], ids[n], quotes[n].value, now);
        }
      }
    }
  }

  lemma CaptureUnfolds(t: seq<Snapshot>, pairs: seq<string>, quotes: seq<Option<real>>, ids: seq<nat>, now: int)
    requires |pairs| == |quotes| == |ids| > 0
    ensures var n := |pairs| - 1;
      Capture(t, pairs, quotes, ids, now) ==
      match Capture(t, pairs[..n], quotes[..n], ids[..n], now)
      case None => None
      case Some(m) => if Usable(quotes[n]) then CapturePair(m, pairs[n], ids[n], quotes[n].value, now) else Some(m)
  {
  }

  lemma OthersStayCurrent(t: seq<Snapshot>, pair: string, id: nat, rate: real, now: int)
    requires CapturePair(t, pair, id, rate, now).Some?
    ensures forall q: string, s :: q != pair ==>
              (s in CapturePair(t, pair, id, rate, now).value && IsCurrent(s, q) <==> s in t && IsCurrent(s, q))
  {
    var e := Expire(t, pair, now);
    forall q: string, s | q != pair && s in t && IsCurrent(s, q) ensures s in e {
      var i :| 0 <= i < |t| && t[i] == s;
      assert e[i] == s;
    }
  }

  // ---- looking a rate up --------------------------------------------------------------------

  // captured_at <= :at ORDER BY captured_at DESC LIMIT 1
  function LatestBy(h: seq<Snapshot>, at: int): (r: Option<Snapshot>)
    ensures r.Some? ==> r.value in h && r.value.captured <= at
    ensures r.Some? ==> forall s :: s in h && s.captured <= at ==> s.captured <= r.value.captured
    ensures r.None? ==> forall s :: s in h ==> s.captured > at
  {
    if h == [] then None
    else
      var (r, x) := (LatestBy(h[..|h| - 1], at), h[|h| - 1]);
      assert h == h[..|h| - 1] + [x];
      if x.captured <= at && (r.None? || r.value.captured < x.captured) then Some(x) else r
  }

  // captured_at > :at AND captured_at <= :at + tolerance ORDER BY captured_at LIMIT 1
  function EarliestSoonAfter(h: seq<Snapshot>, at: int): (r: Option<Snapshot>)
    ensures r.Some? ==> r.value in h && at < r.value.captured <= at + FORWARD_TOLERANCE
    ensures r.Some? ==> forall s :: s in h && at < s.captured ==> r.value.captured <= s.captured
    ensures r.None? ==> forall s :: s in h ==> !(at < s.captured <= at + FORWARD_TOLERANCE)
  {
    if h == [] then None
    else
      var (r, x) := (EarliestSoonAfter(h[..|h| - 1], at), h[|h| - 1]);
      assert h == h[..|h| - 1] + [x];
      if at < x.captured <= at + FORWARD_TOLERANCE && (r.None? || x.captured < r.value.captured) then Some(x) else r
  }

  // `get_fx_rate_at`.
  function RateAt(t: seq<Snapshot>, pair: string, at: int): Option<Snapshot> {
    var r := LatestBy(History(t, pair), at);
    if r.Some? then r else EarliestSoonAfter(History(t, pair), at)
  }

  function Current(pair: string): Snapshot -> bool { (s: Snapshot) => IsCurrent(s, pair) }

  // `get_current_rate`: every row it selects (one_or_none allows one).
  function CurrentRates(t: seq<Snapshot>, pair: string): seq<Snapshot> { Filter(t, Current(pair)) }

  predicate Contains(s: Snapshot, at: int) { s.from <= at && (s.until.Some? ==> at < s.until.value) }

  lemma {:induction false} Increasing(h: seq<Snapshot>, i: nat, j: nat)
    requires Timeline(h) && i < j < |h|
    ensures h[i].from < h[j].from
    decreases j
  {
    if i < j - 1 { Increasing(h, i, j - 1); }
  }

  // Before the next snapshot begins, the last one that has begun is valid.
  lemma ContainedAt(h: seq<Snapshot>, k: nat, at: int)
    requires Timeline(h) && k < |h| && h[k].from <= at && (k + 1 < |h| ==> at < h[k + 1].from)
    ensures forall j :: 0 <= j < |h| ==> (Contains(h[j], at) <==> j == k)
  {
    forall j | 0 <= j < |h| ensures Contains(h[j], at) <==> j == k {
      if j < k {
        if j + 1 < k { Increasing(h, j + 1, k); }
      } else if j > k {
        if j > k + 1 { Increasing(h, k + 1, j); }
      }
    }
  }

  // A lookup returns precisely the one snapshot whose validity interval
  // contains the instant; before the first capture it returns the first
  // snapshot if that comes at most two hours later, and otherwise nothing.
  lemma LookupIsExact(t: seq<Snapshot>, pair: string, at: int)
    requires Tiled(t)
    ensures var (h, r) := (History(t, pair), RateAt(t, pair, at));
      if h == [] then r == None
      else if at < h[0].from then r == if h[0].from <= at + FORWARD_TOLERANCE then Some(h[0]) else None
      else exists k :: 0 <= k < |h| && r == Some(h[k]) && Contains(h[k], at)
                       && forall j :: 0 <= j < |h| ==> (Contains(h[j], at) <==> j == k)
  {
    hide Filter;
    var h := History(t, pair);
    assert Timeline(h);
    if h != [] {
      forall j | 0 < j < |h| ensures h[0].from < h[j].from { Increasing(h, 0, j); }
      if at < h[0].from {
        assert h[0] in h;
      } else {
        var s := LatestBy(h, at).value;
        var k :| 0 <= k < |h| && h[k] == s;
        assert k + 1 < |h| ==> h[k + 1] in h;
        ContainedAt(h, k, at);
      }
    }
  }

  lemma {:induction false} CurrentIsOpenEnd(t: seq<Snapshot>, pair: string)
    ensures CurrentRates(t, pair) == Filter(History(t, pair), Current(pair))
  {
    if t != [] { CurrentIsOpenEnd(t[1..], pair); }
  }

  lemma {:induction false} OpenEnd(h: seq<Snapshot>, pair: string)
    requires Timeline(h) && forall s :: s in h ==> s.pair == pair
    ensures Filter(h, Current(pair)) == if h == [] then [] else [h[|h| - 1]]
  {
    if |h| > 0 {
      assert h[0] in h;
      forall s | s in h[1..] ensures s in h {}
      OpenEnd(h[1..], pair);
    }
  }

  // There is at most one current rate, and from its capture on the lookup
  // returns it.
  lemma CurrentAgrees(t: seq<Snapshot>, pair: string, at: int)
    requires Tiled(t)
    ensures var (h, current) := (History(t, pair), CurrentRates(t, pair));
      && |current| == (if h == [] then 0 else 1)
      && (h != [] ==>
            (RateAt(t, pair, at) == Some(current[0]) <==>
             at >= current[0].from - if |h| == 1 then FORWARD_TOLERANCE else 0))
  {
    hide Filter;
    var h := History(t, pair);
    CurrentIsOpenEnd(t, pair);
    OpenEnd(h, pair);
    LookupIsExact(t, pair, at);
    if |h| > 1 { Increasing(h, 0, |h| - 1); }
  }

  // Past lookups are reproducible: a capture at `now` leaves every lookup
  // before `now` with the snapshot id and rate it had, as soon as the pair
  // has any history.
  lemma PastLookupsStand(t: seq<Snapshot>, pair: string, id: nat, rate: real, now: int, q: string, at: int)
    requires Tiled(t) && CapturePair(t, pair, id, rate, now).Some? && History(t, q) != [] && at < now
    ensures var (r, r') := (RateAt(t, q, at), RateAt(CapturePair(t, pair, id, rate, now).value, q, at));
      && (r.Some? <==> r'.Some?)
      && (r.Some? ==> r'.value.id == r.value.id && r'.value.rate == r.value.rate
                      && r'.value.captured == r.value.captured)
  {
    hide Filter, CapturePair, Expire, Timeline;
    var t' := CapturePair(t, pair, id, rate, now).value;
    HistoryGrows(t, pair, id, rate, now, q);
    CapturePairTiled(t, pair, id, rate, now);
    LookupIsExact(t, q, at);
    LookupIsExact(t', q, at);
    SameLookup(History(t, q), History(t', q), at);
  }

  lemma HistoryGrows(t: seq<Snapshot>, pair: string, id: nat, rate: real, now: int, q: string)
    requires CapturePair(t, pair, id, rate, now).Some?
    ensures var (h, h') := (History(t, q), History(CapturePair(t, pair, id, rate, now).value, q));
      && |h| <= |h'| <= |h| + 1 && (|h'| > |h| ==> h'[|h|].from == now)
      && (forall i :: 0 <= i < |h| ==> h'[i].from == h[i].from && h'[i].id == h[i].id
                                       && h'[i].rate == h[i].rate && h'[i].captured == h[i].captured)
  {
    hide Filter;
    CapturedHistory(t, pair, id, rate, now, q);
  }

  lemma SameLookup(h: seq<Snapshot>, h': seq<Snapshot>, at: int)
    requires Timeline(h) && Timeline(h') && h != [] && |h| <= |h'| <= |h| + 1
    requires forall i :: 0 <= i < |h| ==> h'[i].from == h[i].from
    requires |h'| > |h| ==> at < h'[|h|].from
    ensures forall k, k' :: 0 <= k < |h| && Contains(h[k], at) && 0 <= k' < |h'| && Contains(h'[k'], at) ==> k == k'
  {
    forall k, k' | 0 <= k < |h| && Contains(h[k], at) && 0 <= k' < |h'| && Contains(h'[k'], at)
      ensures k == k'
    {
      if k + 1 < |h| { assert at < h[k + 1].from; }
      ContainedAt(h', k, at);
    }
  }

  // ---- what was quoted is what is looked up -------------------------------------

  predicate Given(quote: Option<real>) { quote.Some? && quote.value > 0.0 }

  lemma {:induction false} UnquotedHistory(
    t: seq<Snapshot>, pairs: seq<string>, quotes: seq<Option<real>>, ids: seq<nat>, now: int, q: string)
    requires |pairs| == |quotes| == |ids| && Capture(t, pairs, quotes, ids, now).Some?
    requires forall i :: 0 <= i < |pairs| && pairs[i] == q ==> !Given(quotes[i])
    ensures History(Capture(t, pairs, quotes, ids, now).value, q) == History(t, q)
  {
    hide History, Expire, ExpiryAllowed;
    if pairs != [] {
      var n := |pairs| - 1;
      UnquotedHistory(t, pairs[..n], quotes[..n], ids[..n], now, q);
      var m := Capture(t, pairs[..n], quotes[..n], ids[..n], now).value;
      if Given(quotes[n]) { CapturedHistory(m, pairs[n], ids[n], quotes[n].value, now, q); }
    }
  }

  lemma {:induction false} QuotedHistory(
    t: seq<Snapshot>, pairs: seq<string>, quotes: seq<Option<real>>, ids: seq<nat>, now: int, i: nat)
    requires i < |pairs| == |quotes| == |ids| && Distinct(pairs) && Given(quotes[i])
    requires Capture(t, pairs, quotes, ids, now).Some?
    ensures History(Capture(t, pairs, quotes, ids, now).value, pairs[i]) ==
            Expire(History(t, pairs[i]), pairs[i], now) + [Snapshot(ids[i], pairs[i], quotes[i].value, now, now, None)]
  {
    hide History, Expire, ExpiryAllowed;
    var n := |pairs| - 1;
    var m := Capture(t, pairs[..n], quotes[..n], ids[..n], now).value;
    if i < n {
      QuotedHistory(t, pairs[..n], quotes[..n], ids[..n], now, i);
      if Given(quotes[n]) { CapturedHistory(m, pairs[n], ids[n], quotes[n].value, now, pairs[i]); }
    } else {
      UnquotedHistory(t, pairs[..n], quotes[..n], ids[..n], now, pairs[n]);
      CapturedHistory(m, pairs[n], ids[n], quotes[n].value, now, pairs[n]);
    }
  }

  // A capture that goes through makes each quote it was given the pair's one
  // current rate, returned by every lookup from then on, and leaves the other
  // pairs alone.
  lemma QuoteIsReturned(
    t: seq<Snapshot>, pairs: seq<string>, quotes: seq<Option<real>>, ids: seq<nat>, now: int, i: nat)
    requires i < |pairs| == |quotes| == |ids| && Distinct(pairs) && Tiled(t)
    requires Capture(t, pairs, quotes, ids, now).Some?
    ensures var t' := Capture(t, pairs, quotes, ids, now).value;
      if quotes[i].Some? && quotes[i].value > 0.0 then
        var s := Snapshot(ids[i], pairs[i], quotes[i].value, now, now, None);
        CurrentRates(t', pairs[i]) == [s] && forall at :: at >= now ==> RateAt(t', pairs[i], at) == Some(s)
      else History(t', pairs[i]) == History(t, pairs[i])
  {
    hide Filter, Capture, Expire, RateAt;
    var t' := Capture(t, pairs, quotes, ids, now).value;
    if Given(quotes[i]) {
      QuotedHistory(t, pairs, quotes, ids, now, i);
      CaptureTiled(t, pairs, quotes, ids, now);
      CurrentIsOpenEnd(t', pairs[i]);
      OpenEnd(History(t', pairs[i]), pairs[i]);
      forall at | at >= now
        ensures RateAt(t', pairs[i], at) == Some(Snapshot(ids[i], pairs[i], quotes[i].value, now, now, None))
      {
        CurrentAgrees(t', pairs[i], at);
      }
    } else {
      UnquotedHistory(t, pairs, quotes, ids, now, pairs[i]);
    }
  }

  datatype Quote = Quote(id: nat, rate: real, at: int)

  // A capture goes through when it is later than the last quote of every pair
  // that it quotes.
  predicate GoesThrough(before: seq<Attempt>, a: Attempt)
    decreases |before|, 1
  {
    && WellSized(a)
    && forall i :: 0 <= i < |SUPPORTED_PAIRS| && Given(a.quotes[i]) ==>
         var qs := QuotesOf(before, SUPPORTED_PAIRS[i]); qs == [] || qs[|qs| - 1].at < a.now
  }

  // What an attempt quotes for a pair.
  function QuoteIn(a: Attempt, pair: string): seq<Quote>
    requires WellSized(a)
  {
    var i := IndexOf(SUPPORTED_PAIRS, pair);
    if i < |SUPPORTED_PAIRS| && Given(a.quotes[i]) then [Quote(a.ids[i], a.quotes[i].value, a.now)] else []
  }

  // The quotes of a pair in the captures that went through.
  function QuotesOf(attempts: seq<Attempt>, pair: string): seq<Quote>
    decreases |attempts|, 0
  {
    if attempts == [] then []
    else
      var (before, a) := (attempts[..|attempts| - 1], attempts[|attempts| - 1]);
      QuotesOf(before, pair) + if GoesThrough(before, a) then QuoteIn(a, pair) else []
  }

  predicate Mirrors(h: seq<Snapshot>, qs: seq<Quote>) {
    |h| == |qs|
    && forall i :: 0 <= i < |h| ==> h[i].id == qs[i].id && h[i].rate == qs[i].rate && h[i].captured == qs[i].at
  }

  lemma PairsDistinct()
    ensures Distinct(SUPPORTED_PAIRS)
  {
    assert "NGN/USD"[4] == 'U' && "NGN/GBP"[4] == 'G' && "NGN/EUR"[4] == 'E';
  }

  lemma ExpiryAllowedIff(t: seq<Snapshot>, pair: string, now: int)
    requires Tiled(t)
    ensures var h := History(t, pair); ExpiryAllowed(t, pair, now) <==> h == [] || h[|h| - 1].from < now
  {
    hide Timeline, History;
    CurrentIsOpenEnd(t, pair);
    OpenEnd(History(t, pair), pair) by { InHistory(t, pair); }
    forall s ensures s in t && IsCurrent(s, pair) <==> s in CurrentRates(t, pair) {}
  }

  lemma InHistory(t: seq<Snapshot>, pair: string)
    ensures forall s :: s in History(t, pair) ==> s.pair == pair
  {
  }

  lemma CaptureGoesThrough(before: seq<Attempt>, a: Attempt)
    requires WellSized(a) && Tiled(Table(before))
    requires forall pair: string :: Mirrors(History(Table(before), pair), QuotesOf(before, pair))
    ensures Capture(Table(before), SUPPORTED_PAIRS, a.quotes, a.ids, a.now).Some? <==> GoesThrough(before, a)
  {
    hide Capture, History, Table, QuotesOf, Tiled, ExpiryAllowed;
    PairsDistinct();
    var t := Table(before);
    LaterCapturesSucceed(t, SUPPORTED_PAIRS, a.quotes, a.ids, a.now);
    forall i | 0 <= i < |SUPPORTED_PAIRS|
      ensures ExpiryAllowed(t, SUPPORTED_PAIRS[i], a.now) <==>
              var qs := QuotesOf(before, SUPPORTED_PAIRS[i]); qs == [] || qs[|qs| - 1].at < a.now
    {
      ExpiryAllowedIff(t, SUPPORTED_PAIRS[i], a.now);
      CapturedIsFrom(t, SUPPORTED_PAIRS[i]);
      assert Mirrors(History(t, SUPPORTED_PAIRS[i]), QuotesOf(before, SUPPORTED_PAIRS[i]));
    }
  }

  lemma CapturedIsFrom(t: seq<Snapshot>, pair: string)
    requires Tiled(t)
    ensures forall i :: 0 <= i < |History(t, pair)| ==> History(t, pair)[i].captured == History(t, pair)[i].from
  {
    assert Timeline(History(t, pair));
  }

  // Each pair's snapshots are its quotes, in order.
  lemma {:induction false} SnapshotsAreQuotes(attempts: seq<Attempt>, pair: string)
    ensures Mirrors(History(Table(attempts), pair), QuotesOf(attempts, pair))
    decreases |attempts|
  {
    hide Capture, History, Tiled, Expire, GoesThrough, Mirrors;
    if attempts == [] {
      NoSnapshots(pair);
    } else {
      var (before, a) := (attempts[..|attempts| - 1], attempts[|attempts| - 1]);
      TiledAlways(before);
      forall q: string ensures Mirrors(History(Table(before), q), QuotesOf(before, q)) {
        SnapshotsAreQuotes(before, q);
      }
      assert QuotesOf(before, pair) + [] == QuotesOf(before, pair);
      if WellSized(a) {
        CaptureGoesThrough(before, a);
        if GoesThrough(before, a) { MirrorsOn(Table(before), a, pair, QuotesOf(before, pair)); }
      } else {
        NotSized(before, a);
      }
    }
  }

  lemma NotSized(before: seq<Attempt>, a: Attempt)
    ensures GoesThrough(before, a) ==> WellSized(a)
  {
  }

  lemma NoSnapshots(pair: string)
    ensures Mirrors(History([], pair), [])
  {
  }

  lemma MirrorsOn(t: seq<Snapshot>, a: Attempt, pair: string, qs: seq<Quote>)
    requires WellSized(a) && Mirrors(History(t, pair), qs)
    requires Capture(t, SUPPORTED_PAIRS, a.quotes, a.ids, a.now).Some?
    ensures Mirrors(History(Capture(t, SUPPORTED_PAIRS, a.quotes, a.ids, a.now).value, pair), qs + QuoteIn(a, pair))
  {
    hide Capture, History;
    PairsDistinct();
    var i := IndexOf(SUPPORTED_PAIRS, pair);
    if i < |SUPPORTED_PAIRS| && Given(a.quotes[i]) {
      QuotedHistory(t, SUPPORTED_PAIRS, a.quotes, a.ids, a.now, i);
    } else {
      forall j | 0 <= j < |SUPPORTED_PAIRS| && SUPPORTED_PAIRS[j] == pair ensures !Given(a.quotes[j]) {
        assert SUPPORTED_PAIRS[j] in SUPPORTED_PAIRS;
        if i < |SUPPORTED_PAIRS| { assert SUPPORTED_PAIRS[i] == SUPPORTED_PAIRS[j]; }
      }
      UnquotedHistory(t, SUPPORTED_PAIRS, a.quotes, a.ids, a.now, pair);
    }
  }

  predicate Returns(r: Option<Snapshot>, q: Quote) {
    r.Some? && r.value.id == q.id && r.value.rate == q.rate
  }

  // After any attempts, a lookup returns the quote of the last capture that
  // went through and quoted the pair at or before the instant; before the
  // first such quote, that quote if it came at most two hours later.
  lemma LookupReturnsQuote(attempts: seq<Attempt>, pair: string, at: int)
    ensures var (qs, r) := (QuotesOf(attempts, pair), RateAt(Table(attempts), pair, at));
      && (qs == [] ==> r == None)
      && (qs != [] && at < qs[0].at ==> (r.Some? <==> qs[0].at <= at + 7_200_000_000))
      && (qs != [] && at < qs[0].at && r.Some? ==> Returns(r, qs[0]))
      && forall k :: 0 <= k < |qs| && qs[k].at <= at && (k + 1 < |qs| ==> at < qs[k + 1].at) ==> Returns(r, qs[k])
  {
    hide RateAt, Tiled, History, Table, QuotesOf, Timeline;
    var (t, qs) := (Table(attempts), QuotesOf(attempts, pair));
    TiledAlways(attempts);
    SnapshotsAreQuotes(attempts, pair);
    LookupIsExact(t, pair, at);
    CapturedIsFrom(t, pair);
    var h := History(t, pair);
    forall k | 0 <= k < |qs| && qs[k].at <= at && (k + 1 < |qs| ==> at < qs[k + 1].at)
      ensures Contains(h[k], at) && !(at < h[0].from)
    {
      IsTimeline(t, pair);
      ContainedAt(h, k, at);
      if k > 0 { Increasing(h, 0, k); }
    }
  }

  lemma IsTimeline(t: seq<Snapshot>, pair: string)
    requires Tiled(t)
    ensures Timeline(History(t, pair))
  {
  }
}
