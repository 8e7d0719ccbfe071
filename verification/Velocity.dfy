// The velocity check of the daily return: more than five transactions to one
// beneficiary within ten minutes.
module Velocity {
  import opened Common
  import opened IsoTime
  import opened Sorting
  import opened Texts

  // What `datetime.fromisoformat` makes of a text: nothing, or a time in
  // microseconds, without or with an offset. Subtracting the one kind from
  // the other raises.
  datatype When = Bad | Naive(t: int) | Aware(t: int)

  const TEN_MINUTES := 600_000_000

  predicate Comparable(a: When, b: When) { (a.Naive? && b.Naive?) || (a.Aware? && b.Aware?) }

  // The comparison of the inner loop: `b` comes less than ten minutes after
  // `a` (or before it), and no exception was raised.
  predicate Near(a: When, b: When) { Comparable(a, b) && b.t - a.t < TEN_MINUTES }

  // ---- the detector ------------------------------------------------------------------

  predicate NearAt(s: seq<string>, parse: string -> When, i: nat)
    requires i + 5 < |s|
  {
    Near(parse(s[i]), parse(s[i + 5]))
  }

  // Some timestamp and the fifth after it, in text order, are near.
  predicate FlaggedSorted(s: seq<string>, parse: string -> When) {
    exists i :: 0 <= i < |s| - 5 && NearAt(s, parse, i)
  }

  predicate Flagged(stamps: seq<string>, parse: string -> When) {
    FlaggedSorted(Sort(stamps, ByText()), parse)
  }

  datatype Account = Missing | Null | Account(masked: string)

  // A transaction as the report receives it; a missing timestamp reads "".
  datatype Txn = Txn(beneficiary: Account, timestamp: Option<string>)

  function KeyOf(t: Txn): Option<string> {
    match t.beneficiary
    case Missing => Some("unknown")
    case Null => None
    case Account(masked) => Some(masked)
  }

  function StampOf(t: Txn): string { if t.timestamp.Some? then t.timestamp.value else "" }

  function StampsOf(txns: seq<Txn>, key: Option<string>): seq<string> {
    if txns == [] then []
    else StampsOf(txns[..|txns| - 1], key)
         + if KeyOf(txns[|txns| - 1]) == key then [StampOf(txns[|txns| - 1])] else []
  }

  function KeysOf(txns: seq<Txn>): set<Option<string>> { set t | t in txns :: KeyOf(t) }

  method IsAnomalous(stamps: seq<string>, parse: string -> When) returns (found: bool)
    ensures found == Flagged(stamps, parse)
  {
    found := false;
    var s := Sort(stamps, ByText());
    if |stamps| > 5 {
      var i := 0;
      while i < |s| - 5 && !found
        invariant 0 <= i <= |s| - 5
        invariant found <==> exists j :: 0 <= j < i && NearAt(s, parse, j)
      {
        found := NearAt(s, parse, i);
        i := i + 1;
      }
    }
  }

  // The timestamps by beneficiary, and the beneficiaries in the order in
  // which they first occur.
  method GroupByBeneficiary(txns: seq<Txn>)
    returns (keys: seq<Option<string>>, groups: map<Option<string>, seq<string>>)
    ensures Distinct(keys) && forall k :: k in keys <==> k in KeysOf(txns)
    ensures groups.Keys == KeysOf(txns) && forall k :: k in groups ==> groups[k] == StampsOf(txns, k)
  {
    hide KeysOf, StampsOf;
    NoTxns();
    keys, groups := [], map[];
    var i := 0;
    while i < |txns|
      invariant 0 <= i <= |txns|
      invariant Distinct(keys) && forall k :: k in keys <==> k in KeysOf(txns[..i])
      invariant groups.Keys == KeysOf(txns[..i])
      invariant forall k :: k in groups ==> groups[k] == StampsOf(txns[..i], k)
    {
      var key := KeyOf(txns[i]);
      GroupOne(txns, i);
      if key in groups {
        groups := groups[key := groups[key] + [StampOf(txns[i])]];
      } else {
        keys := keys + [key];
        groups := groups[key := [StampOf(txns[i])]];
      }
      i := i + 1;
    }
    assert txns[..i] == txns;
  }

  lemma NoTxns()
    ensures forall txns: seq<Txn> :: txns == [] ==> KeysOf(txns) == {}
  {
  }

  function FlaggedBeneficiaries(txns: seq<Txn>, parse: string -> When): (r: set<Option<string>>)
    ensures forall k :: k in r <==> k in KeysOf(txns) && Flagged(StampsOf(txns, k), parse)
  {
    set k | k in KeysOf(txns) && Flagged(StampsOf(txns, k), parse)
  }

  // `_detect_velocity_anomalies`: how many beneficiaries are flagged.
  method DetectVelocityAnomalies(txns: seq<Txn>, parse: string -> When) returns (anomalies: nat)
    ensures anomalies == |FlaggedBeneficiaries(txns, parse)|
  {
    hide Flagged, KeysOf, StampsOf, FlaggedBeneficiaries;
    var keys, groups := GroupByBeneficiary(txns);
    anomalies := 0;
    var i := 0;
    ghost var flagged: set<Option<string>> := {};
    while i < |keys|
      invariant 0 <= i <= |keys|
      invariant forall k :: k in flagged <==> k in keys[..i] && Flagged(StampsOf(txns, k), parse)
      invariant anomalies == |flagged|
    {
      var found := IsAnomalous(groups[keys[i]], parse);
      assert keys[..i + 1] == keys[..i] + [keys[i]];
      if found {
        anomalies := anomalies + 1;
        flagged := flagged + {keys[i]};
      }
      i := i + 1;
    }
    assert keys[..i] == keys;
    assert flagged == FlaggedBeneficiaries(txns, parse);
  }

  lemma GroupOne(txns: seq<Txn>, i: nat)
    requires i < |txns|
    ensures KeysOf(txns[..i + 1]) == KeysOf(txns[..i]) + {KeyOf(txns[i])}
    ensures forall k :: StampsOf(txns[..i + 1], k) ==
                        StampsOf(txns[..i], k) + if KeyOf(txns[i]) == k then [StampOf(txns[i])] else []
    ensures KeyOf(txns[i]) !in KeysOf(txns[..i]) ==> StampsOf(txns[..i], KeyOf(txns[i])) == []
  {
    assert txns[..i + 1][..i] == txns[..i];
    assert txns[..i + 1] == txns[..i] + [txns[i]];
    if KeyOf(txns[i]) !in KeysOf(txns[..i]) { NoStamps(txns[..i], KeyOf(txns[i])); }
  }

  lemma {:induction false} NoStamps(txns: seq<Txn>, key: Option<string>)
    requires key !in KeysOf(txns)
    ensures StampsOf(txns, key) == []
  {
    if txns != [] {
      assert forall t :: t in txns[..|txns| - 1] ==> t in txns;
      assert txns[|txns| - 1] in txns;
      NoStamps(txns[..|txns| - 1], key);
    }
  }

  // ---- what it is meant to find ----------------------------------------------------------

  // Within ten minutes from `x` on, on the same kind of clock.
  function From(x: string, parse: string -> When): string -> bool {
    (y: string) => Comparable(parse(x), parse(y)) && 0 <= parse(y).t - parse(x).t < 600_000_000
  }

  // Six or more of the transactions lie within ten minutes.
  ghost predicate Burst(stamps: seq<string>, parse: string -> When) {
    exists x :: x in stamps && |Filter(stamps, From(x, parse))| >= 6
  }

  lemma BurstPermutation(s: seq<string>, t: seq<string>, parse: string -> When)
    requires multiset(s) == multiset(t) && Burst(s, parse)
    ensures Burst(t, parse)
  {
    var x :| x in s && |Filter(s, From(x, parse))| >= 6;
    SameElements(s, t, x);
    FilterPermutation(s, t, From(x, parse));
    assert |multiset(Filter(s, From(x, parse)))| == |multiset(Filter(t, From(x, parse)))|;
  }

  lemma SortedTexts(stamps: seq<string>) returns (s: seq<string>)
    ensures s == Sort(stamps, ByText()) && multiset(s) == multiset(stamps) && |s| == |stamps|
    ensures forall i, j :: 0 <= i < j < |s| ==> TextLe(s[i], s[j])
    ensures forall x :: x in s <==> x in stamps
  {
    hide Sort, TextLe, TotalPreorder;
    s := Sort(stamps, ByText());
    TextOrders();
    SortSorted(stamps, ByText());
    forall i, j | 0 <= i < j < |s| ensures TextLe(s[i], s[j]) { assert ByText()(s[i], s[j]); }
    forall x ensures x in s <==> x in stamps { SameElements(s, stamps, x); }
  }

  // The first and the last element that satisfy `p` are at least as far apart
  // as their number demands.
  lemma {:induction false} Extent(s: seq<string>, p: string -> bool) returns (f: nat, l: nat)
    requires |Filter(s, p)| > 0
    ensures f <= l < |s| && p(s[f]) && p(s[l]) && l - f + 1 >= |Filter(s, p)|
  {
    var (init, last) := (s[..|s| - 1], s[|s| - 1]);
    assert s == init + [last];
    FilterAppend(init, [last], p);
    FilterOne(last, p);
    if |Filter(init, p)| == 0 {
      f, l := |init|, |init|;
    } else {
      f, l := Extent(init, p);
      l := if p(last) then |init| else l;
    }
  }

  // ---- no false negatives ------------------------------------------------------------------

  // How many elements at positions congruent to `r` modulo 5 satisfy `p`.
  function InClass(s: seq<string>, p: string -> bool, r: nat): nat {
    if s == [] then 0
    else InClass(s[..|s| - 1], p, r) + if (|s| - 1) % 5 == r && p(s[|s| - 1]) then 1 else 0
  }

  lemma {:induction false} ClassesAddUp(s: seq<string>, p: string -> bool)
    ensures |Filter(s, p)|
            == InClass(s, p, 0) + InClass(s, p, 1) + InClass(s, p, 2) + InClass(s, p, 3) + InClass(s, p, 4)
  {
    if s != [] {
      var (init, last) := (s[..|s| - 1], s[|s| - 1]);
      ClassesAddUp(init, p);
      assert s == init + [last];
      FilterAppend(init, [last], p);
      FilterOne(last, p);
    }
  }

  lemma {:induction false} ClassMember(s: seq<string>, p: string -> bool, r: nat) returns (i: nat)
    requires InClass(s, p, r) > 0
    ensures i < |s| && i % 5 == r && p(s[i])
  {
    if (|s| - 1) % 5 == r && p(s[|s| - 1]) {
      i := |s| - 1;
    } else {
      i := ClassMember(s[..|s| - 1], p, r);
    }
  }

  // Where no element is near the fifth after it, elements of one class are
  // ten minutes apart.
  lemma {:induction false} ApartInClass(s: seq<string>, parse: string -> When, i: nat, j: nat)
    requires !FlaggedSorted(s, parse) && i < j < |s| && i % 5 == j % 5
    requires forall a, b :: a in s && b in s ==> Comparable(parse(a), parse(b))
    ensures parse(s[i]) != Bad && parse(s[j]) != Bad && parse(s[j]).t - parse(s[i]).t >= TEN_MINUTES
    decreases j
  {
    assert j - i >= 5;
    var k := j - 5;
    assert !NearAt(s, parse, k);
    assert Comparable(parse(s[k]), parse(s[j])) && Comparable(parse(s[i]), parse(s[j]));
    if k > i {
      ApartInClass(s, parse, i, k);
    }
  }

  lemma {:induction false} OnePerClass(s: seq<string>, n: nat, x: string, parse: string -> When, r: nat)
    requires n <= |s| && !FlaggedSorted(s, parse)
    requires forall a, b :: a in s && b in s ==> Comparable(parse(a), parse(b))
    ensures InClass(s[..n], From(x, parse), r) <= 1
  {
    hide FlaggedSorted;
    if n > 0 {
      var (init, p) := (s[..n - 1], From(x, parse));
      assert s[..n][..n - 1] == init;
      OnePerClass(s, n - 1, x, parse, r);
      if InClass(init, p, r) > 0 && (n - 1) % 5 == r {
        var i := ClassMember(init, p, r);
        assert p(s[i]);
        ApartInClass(s, parse, i, n - 1);
      }
    }
  }

  // Looking only five places ahead misses nothing: when all timestamps parse
  // and are of one kind, every burst is flagged, in whatever order their
  // texts sort.
  lemma NoFalseNegatives(stamps: seq<string>, parse: string -> When)
    requires forall a, b :: a in stamps && b in stamps ==> Comparable(parse(a), parse(b))
    requires Burst(stamps, parse)
    ensures Flagged(stamps, parse)
  {
    hide Filter, Sort, FlaggedSorted, TextLe;
    var s := SortedTexts(stamps);
    BurstPermutation(stamps, s, parse);
    var x :| x in s && |Filter(s, From(x, parse))| >= 6;
    if !FlaggedSorted(s, parse) {
      ClassesAddUp(s, From(x, parse));
      assert s[..|s|] == s;
      OnePerClass(s, |s|, x, parse, 0);
      OnePerClass(s, |s|, x, parse, 1);
      OnePerClass(s, |s|, x, parse, 2);
      OnePerClass(s, |s|, x, parse, 3);
      OnePerClass(s, |s|, x, parse, 4);
      assert false;
    }
  }

  // ---- exactly when the detector is right ------------------------------------------------------

  predicate Span(x: When, y: When, z: When) {
    && Comparable(x, y) && Comparable(x, z)
    && Abs(y.t - x.t) < TEN_MINUTES && Abs(z.t - x.t) < TEN_MINUTES && Abs(z.t - y.t) < TEN_MINUTES
  }

  // As text, `y` sorts between the near timestamps `x` and `z`.
  predicate Encloses(x: string, y: string, z: string, parse: string -> When) {
    TextLe(x, y) && TextLe(y, z) && Near(parse(x), parse(z))
  }

  // Whatever sorts, as text, between two near timestamps lies within ten
  // minutes of both.
  ghost predicate TextsFollowTime(texts: iset<string>, parse: string -> When) {
    forall x, y, z :: x in texts && y in texts && z in texts && Encloses(x, y, z, parse) ==>
      Span(parse(x), parse(y), parse(z))
  }

  ghost predicate Exact(texts: iset<string>, parse: string -> When) {
    forall stamps: seq<string> :: (forall x :: x in stamps ==> x in texts) ==>
      (Flagged(stamps, parse) <==> Burst(stamps, parse))
  }

  lemma BurstIsFlagged(stamps: seq<string>, texts: iset<string>, parse: string -> When)
    requires TextsFollowTime(texts, parse) && (forall x :: x in stamps ==> x in texts) && Burst(stamps, parse)
    ensures Flagged(stamps, parse)
  {
    hide Filter, Sort, TextLe, FlaggedSorted, TextsFollowTime;
    var s := SortedTexts(stamps);
    BurstPermutation(stamps, s, parse);
    var x :| x in s && |Filter(s, From(x, parse))| >= 6;
    var f, l := Extent(s, From(x, parse));
    FarEndsNear(s, f, l, x, parse);
    FifthIsNear(s, f, l, texts, parse);
  }

  lemma FarEndsNear(s: seq<string>, f: nat, l: nat, x: string, parse: string -> When)
    requires f < |s| && l < |s| && From(x, parse)(s[f]) && From(x, parse)(s[l])
    ensures Near(parse(s[f]), parse(s[l]))
  {
  }

  lemma FifthIsNear(s: seq<string>, f: nat, l: nat, texts: iset<string>, parse: string -> When)
    requires TextsFollowTime(texts, parse) && (forall x :: x in s ==> x in texts)
    requires forall i, j :: 0 <= i < j < |s| ==> TextLe(s[i], s[j])
    requires f + 5 <= l < |s| && Near(parse(s[f]), parse(s[l]))
    ensures FlaggedSorted(s, parse)
  {
    hide TextLe;
    TextTotal(s[l], s[l]);
    assert Encloses(s[f], s[f + 5], s[l], parse);
    assert NearAt(s, parse, f);
  }

  // The earliest of some timestamps of one kind.
  lemma {:induction false} Earliest(s: seq<string>, parse: string -> When) returns (x: string)
    requires s != [] && forall a, b :: a in s && b in s ==> Comparable(parse(a), parse(b))
    ensures x in s && forall y :: y in s ==> Comparable(parse(x), parse(y)) && parse(x).t <= parse(y).t
  {
    var (init, last) := (s[..|s| - 1], s[|s| - 1]);
    assert s == init + [last];
    if init == [] {
      x := last;
    } else {
      x := Earliest(init, parse);
      assert Comparable(parse(x), parse(last));
      x := if parse(last).t < parse(x).t then last else x;
    }
  }

  lemma SliceCounts(s: seq<string>, i: nat, j: nat, p: string -> bool)
    requires i <= j <= |s| && forall x :: x in s[i..j] ==> p(x)
    ensures |Filter(s, p)| >= j - i
  {
    assert s == s[..i] + (s[i..j] + s[j..]);
    FilterAppend(s[..i], s[i..j] + s[j..], p);
    FilterAppend(s[i..j], s[j..], p);
    FilterAll(s[i..j], p);
  }

  lemma FlaggedIsBurst(stamps: seq<string>, texts: iset<string>, parse: string -> When)
    requires TextsFollowTime(texts, parse) && (forall x :: x in stamps ==> x in texts) && Flagged(stamps, parse)
    ensures Burst(stamps, parse)
  {
    hide Filter, Sort, TextLe, Span;
    var s := SortedTexts(stamps);
    var i :| 0 <= i < |s| - 5 && NearAt(s, parse, i);
    var six := s[i..i + 6];
    forall a, b | 0 <= a < 6 && 0 <= b < 6
      ensures Comparable(parse(six[a]), parse(six[b])) && Abs(parse(six[a]).t - parse(six[b]).t) < TEN_MINUTES
    {
      TwoOfSix(s, i, texts, parse, a, b);
    }
    var x := Earliest(six, parse);
    SliceCounts(s, i, i + 6, From(x, parse));
    assert x in s;
    BurstPermutation(s, stamps, parse);
  }

  lemma TwoOfSix(s: seq<string>, i: nat, texts: iset<string>, parse: string -> When, a: nat, b: nat)
    requires TextsFollowTime(texts, parse) && (forall x :: x in s ==> x in texts)
    requires forall j, k :: 0 <= j < k < |s| ==> TextLe(s[j], s[k])
    requires i + 5 < |s| && NearAt(s, parse, i) && a <= 5 && b <= 5
    ensures Comparable(parse(s[i + a]), parse(s[i + b]))
    ensures Abs(parse(s[i + a]).t - parse(s[i + b]).t) < TEN_MINUTES
  {
    hide TextLe;
    var (lo, hi) := (Min(a, b) as nat, if a <= b then b else a);
    var (x, y, w, z) := (s[i], s[i + lo], s[i + hi], s[i + 5]);
    assert forall j, k :: 0 <= j <= k < |s| ==> TextLe(s[j], s[k]) by {
      forall j, k | 0 <= j <= k < |s| ensures TextLe(s[j], s[k]) { if j == k { TextTotal(s[j], s[k]); } }
    }
    assert Span(parse(x), parse(w), parse(z));
    assert Near(parse(x), parse(w));
    assert Span(parse(x), parse(y), parse(w));
  }

  // Two near timestamps with four copies of one that sorts between them, but
  // is not near both, are flagged without a burst.
  lemma FalseAlarm(x: string, y: string, z: string, parse: string -> When)
    requires Encloses(x, y, z, parse) && !Span(parse(x), parse(y), parse(z))
    ensures Flagged([x, y, y, y, y, z], parse) && !Burst([x, y, y, y, y, z], parse)
  {
    hide Filter, Sort, TextLe;
    var s := [x, y, y, y, y, z];
    TextTotal(y, y);
    TextTransitive(x, y, z);
    assert SortedBy(s, ByText());
    SortedIsFixed(s, ByText());
    assert NearAt(s, parse, 0);
    forall w | w in s ensures |Filter(s, From(w, parse))| < 6 {
      FilterAll(s, From(w, parse));
      FromSpans(w, x, y, z, parse);
      assert s[0] in s && s[1] in s && s[5] in s;
    }
  }

  lemma FromSpans(w: string, x: string, y: string, z: string, parse: string -> When)
    ensures From(w, parse)(x) && From(w, parse)(y) && From(w, parse)(z) ==> Span(parse(x), parse(y), parse(z))
  {
  }

  lemma NotExact(x: string, y: string, z: string, texts: iset<string>, parse: string -> When)
    requires x in texts && y in texts && z in texts
    requires Encloses(x, y, z, parse) && !Span(parse(x), parse(y), parse(z))
    ensures !Exact(texts, parse)
  {
    hide Flagged, Burst, Span, TextLe;
    FalseAlarm(x, y, z, parse);
    var stamps := [x, y, y, y, y, z];
    assert (forall u :: u in stamps ==> u in texts) && !(Flagged(stamps, parse) <==> Burst(stamps, parse));
  }

  // The detector is right on every list of timestamps drawn from `texts` if
  // and only if text order follows time among them closely enough: nothing
  // sorts between two near timestamps that is not within ten minutes of both.
  lemma ExactIff(texts: iset<string>, parse: string -> When)
    ensures Exact(texts, parse) <==> TextsFollowTime(texts, parse)
  {
    hide Flagged, Burst, Span, TextLe;
    if TextsFollowTime(texts, parse) {
      forall stamps: seq<string> | forall x :: x in stamps ==> x in texts
        ensures Flagged(stamps, parse) <==> Burst(stamps, parse)
      {
        if Flagged(stamps, parse) { FlaggedIsBurst(stamps, texts, parse); }
        if Burst(stamps, parse) { BurstIsFlagged(stamps, texts, parse); }
      }
    }
    if !TextsFollowTime(texts, parse) {
      var x, y, z :| x in texts && y in texts && z in texts && Encloses(x, y, z, parse)
                     && !Span(parse(x), parse(y), parse(z));
      NotExact(x, y, z, texts, parse);
    }
  }

  // Timestamps of one kind whose texts sort by time, such as those all
  // rendered in UTC with the same precision, are such a set.
  lemma ChronologicalIsExact(texts: iset<string>, parse: string -> When)
    requires forall x, y :: x in texts && y in texts ==>
               Comparable(parse(x), parse(y)) && (TextLe(x, y) ==> parse(x).t <= parse(y).t)
    ensures Exact(texts, parse)
  {
    hide TextLe, Exact;
    ExactIff(texts, parse);
  }

  // The reported count is then the number of beneficiaries with a burst.
  lemma CountsBursts(txns: seq<Txn>, texts: iset<string>, parse: string -> When)
    requires TextsFollowTime(texts, parse) && forall t :: t in txns ==> StampOf(t) in texts
    ensures forall k :: k in FlaggedBeneficiaries(txns, parse) <==> k in KeysOf(txns) && Burst(StampsOf(txns, k), parse)
  {
    hide Flagged, Burst, TextsFollowTime, FlaggedBeneficiaries;
    ExactIff(texts, parse);
    forall k ensures Flagged(StampsOf(txns, k), parse) <==> Burst(StampsOf(txns, k), parse) {
      StampsFrom(txns, k, texts);
    }
  }

  lemma {:induction false} StampsFrom(txns: seq<Txn>, k: Option<string>, texts: iset<string>)
    requires forall t :: t in txns ==> StampOf(t) in texts
    ensures forall x :: x in StampsOf(txns, k) ==> x in texts
  {
    if txns != [] {
      var (init, last) := (txns[..|txns| - 1], txns[|txns| - 1]);
      assert forall t :: t in init ==> t in txns;
      assert last in txns;
      StampsFrom(init, k, texts);
    }
  }

  // The texts the report flow passes: `isoformat` of a timestamptz, in UTC.
  ghost function FlowTexts(): iset<string> {
    iset d | Valid(d) :: Iso(d)
  }

  // Transactions are counted together exactly when they name the same masked
  // account; a transaction without the field counts for an account that is
  // called unknown.
  lemma SameGroupIff(t: Txn, u: Txn)
    ensures KeyOf(t) == KeyOf(u) <==>
            || t.beneficiary == u.beneficiary
            || (t.beneficiary == Missing && u.beneficiary == Account("unknown"))
            || (u.beneficiary == Missing && t.beneficiary == Account("unknown"))
  {
  }

  // The positions of the transactions of one beneficiary whose timestamps
  // satisfy `p`.
  ghost function Positions(txns: seq<Txn>, key: Option<string>, p: string -> bool): set<nat> {
    set i: nat | i < |txns| && KeyOf(txns[i]) == key && p(StampOf(txns[i]))
  }

  lemma {:induction false} GroupSize(txns: seq<Txn>, key: Option<string>, p: string -> bool)
    ensures |Filter(StampsOf(txns, key), p)| == |Positions(txns, key, p)|
  {
    if txns == [] {
      assert Positions(txns, key, p) == {};
    } else {
      hide Positions, Filter;
      var n := |txns| - 1;
      var (init, last) := (txns[..n], txns[n]);
      GroupSize(init, key, p);
      PositionsGrow(txns, key, p);
      FilterAppend(StampsOf(init, key), [StampOf(last)], p);
      FilterOne(StampOf(last), p);
      assert StampsOf(init, key) + [] == StampsOf(init, key);
    }
  }

  lemma PositionsGrow(txns: seq<Txn>, key: Option<string>, p: string -> bool)
    requires txns != []
    ensures var n := |txns| - 1;
      |Positions(txns, key, p)| ==
        |Positions(txns[..n], key, p)| + if KeyOf(txns[n]) == key && p(StampOf(txns[n])) then 1 else 0
  {
    var n := |txns| - 1;
    var init := txns[..n];
    var (all, some) := (Positions(txns, key, p), Positions(init, key, p));
    var last := KeyOf(txns[n]) == key && p(StampOf(txns[n]));
    forall i: nat ensures i in all <==> i in some || (i == n && last) {
      if i < n { assert init[i] == txns[i]; }
    }
    assert n !in some;
    OneMore(all, some, n, last);
  }

  lemma OneMore(all: set<nat>, some: set<nat>, n: nat, last: bool)
    requires n !in some && forall i: nat :: i in all <==> i in some || (i == n && last)
    ensures |all| == |some| + if last then 1 else 0
  {
    if last { assert all == some + {n}; } else { assert all == some; }
  }

  lemma {:induction false} StampOfGroup(txns: seq<Txn>, key: Option<string>, x: string)
    ensures x in StampsOf(txns, key) <==> exists i: nat :: i < |txns| && KeyOf(txns[i]) == key && StampOf(txns[i]) == x
  {
    if txns != [] {
      var n := |txns| - 1;
      StampOfGroup(txns[..n], key, x);
      forall i: nat | i < n ensures txns[..n][i] == txns[i] {}
    }
  }

  // A burst, said of the report: six distinct transactions of the beneficiary
  // lie within ten minutes from one of them on.
  ghost predicate SixWithinTenMinutes(txns: seq<Txn>, key: Option<string>, parse: string -> When) {
    exists j: nat :: j < |txns| && KeyOf(txns[j]) == key && |Positions(txns, key, From(StampOf(txns[j]), parse))| >= 6
  }

  lemma BurstIsSix(txns: seq<Txn>, key: Option<string>, parse: string -> When)
    ensures Burst(StampsOf(txns, key), parse) <==> SixWithinTenMinutes(txns, key, parse)
  {
    hide Filter, From, Positions;
    forall x: string ensures x in StampsOf(txns, key) <==>
        exists i: nat :: i < |txns| && KeyOf(txns[i]) == key && StampOf(txns[i]) == x
    {
      StampOfGroup(txns, key, x);
    }
    forall x: string ensures |Filter(StampsOf(txns, key), From(x, parse))| == |Positions(txns, key, From(x, parse))| {
      GroupSize(txns, key, From(x, parse));
    }
  }

  // `fromisoformat` reads what `isoformat` writes.
  ghost predicate ReadsIso(parse: string -> When) {
    forall d :: Valid(d) ==> parse(Iso(d)) == Aware(Micros(d))
  }

  lemma FlowTextsFollowTime(parse: string -> When)
    requires ReadsIso(parse)
    ensures TextsFollowTime(FlowTexts(), parse)
  {
    hide TextLe, Iso, Micros;
    forall x, y | x in FlowTexts() && y in FlowTexts()
      ensures Comparable(parse(x), parse(y)) && (TextLe(x, y) ==> parse(x).t <= parse(y).t)
    {
      var a :| Valid(a) && Iso(a) == x;
      var b :| Valid(b) && Iso(b) == y;
      if TextLe(x, y) { TextOrderIsTimeOrder(a, b); }
    }
    ChronologicalIsExact(FlowTexts(), parse);
    ExactIff(FlowTexts(), parse);
  }

  // In the reports the flow builds, the velocity count is right: it counts the
  // beneficiaries with six transactions within ten minutes.
  lemma FlowReportsCountBursts(txns: seq<Txn>, parse: string -> When)
    requires ReadsIso(parse) && forall t :: t in txns ==> StampOf(t) in FlowTexts()
    ensures forall k :: k in FlaggedBeneficiaries(txns, parse) <==> SixWithinTenMinutes(txns, k, parse)
  {
    hide FlaggedBeneficiaries, Burst, TextsFollowTime;
    FlowTextsFollowTime(parse);
    CountsBursts(txns, FlowTexts(), parse);
    forall k ensures Burst(StampsOf(txns, k), parse) <==> SixWithinTenMinutes(txns, k, parse) {
      BurstIsSix(txns, k, parse);
    }
  }

  // A direct caller may pass mixed offsets, and then there can be a false
  // alarm: a payment at 00:31 UTC sorts between two at 23:30 and 23:32 UTC
  // that are written at +01:00.
  lemma MixedOffsetsMislead(parse: string -> When)
    requires parse("2026-01-01T00:30:00+01:00") == Aware(-1_800_000_000)
    requires parse("2026-01-01T00:31:00+00:00") == Aware(1_860_000_000)
    requires parse("2026-01-01T00:32:00+01:00") == Aware(-1_680_000_000)
    ensures var (x, y, z) := ("2026-01-01T00:30:00+01:00", "2026-01-01T00:31:00+00:00", "2026-01-01T00:32:00+01:00");
      Flagged([x, y, y, y, y, z], parse) && !Burst([x, y, y, y, y, z], parse)
  {
    var (x, y, z) := ("2026-01-01T00:30:00+01:00", "2026-01-01T00:31:00+00:00", "2026-01-01T00:32:00+01:00");
    hide TextLe, Flagged, Burst;
    FirstDifference(x, y, 15);
    FirstDifference(y, z, 15);
    FalseAlarm(x, y, z, parse);
  }
}
