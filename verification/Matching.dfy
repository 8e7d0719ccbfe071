// The two-tier matching decision for one source transaction.
module Matching {
  import opened Common
  import opened Sorting
  import opened Keys

  // Times and windows are microseconds; a bank code "" means "not known".
  datatype Candidate = Candidate(
    id: nat, psp: string, txType: TxType, amount: real, initiatedAt: int, tokens: set<string>,
    beneficiaryBank: string, senderBank: string, alreadyMatched: bool)

  datatype Config = Config(
    primaryWindow: int, threshold: real, window: int, tolerance: real,
    weightAmount: real, weightTime: real, weightName: real, weightBank: real,
    fxThreshold: real, margin: real)

  const DEFAULT_CONFIG := Config(72 * HOUR, 0.75, 168 * HOUR, 0.05, 0.40, 0.25, 0.25, 0.10, 0.005, 0.05)

  // The settings validation guarantees this much: positive windows and
  // weights that distribute one unit.
  predicate ValidConfig(cfg: Config) {
    && cfg.window > 0 && cfg.primaryWindow > 0
    && 0.0 < cfg.threshold <= 1.0 && cfg.tolerance >= 0.0
    && cfg.weightAmount >= 0.0 && cfg.weightTime >= 0.0 && cfg.weightName >= 0.0 && cfg.weightBank >= 0.0
    && cfg.weightAmount + cfg.weightTime + cfg.weightName + cfg.weightBank == 1.0
  }

  datatype Strategy = ExactPrimary | ProbabilisticSecondary | Unmatched

  datatype MatchResult = MatchResult(
    source: nat, matched: Option<nat>, strategy: Strategy, score: real, ambiguous: bool,
    delta: Option<real>, withinFx: bool)

  function Refusal(source: Candidate, strategy: Strategy, ambiguous: bool): MatchResult {
    MatchResult(source.id, None, strategy, 0.0, ambiguous, None, false)
  }

  predicate Complementary(a: TxType, b: TxType) {
    (a == Credit && b == Debit) || (a == Debit && b == Credit)
  }

  predicate Eligible(source: Candidate, c: Candidate) {
    c.id != source.id && c.psp != source.psp && !c.alreadyMatched && Complementary(source.txType, c.txType)
  }

  function TimeDelta(a: Candidate, b: Candidate): int { Abs(a.initiatedAt - b.initiatedAt) }

  // ---- evidence -----------------------------------------------------------

  function AmountScore(source: Candidate, c: Candidate, cfg: Config): (r: real)
    ensures cfg.tolerance >= 0.0 ==> 0.0 <= r <= 1.0
  {
    if source.amount > 0.0 then
      var pct := AbsReal(source.amount - c.amount) / source.amount;
      if pct == 0.0 then 1.0
      else if cfg.tolerance > 0.0 && pct <= cfg.tolerance then
        assert 0.0 <= pct / cfg.tolerance <= 1.0 by { UnitRatio(pct, cfg.tolerance); }
        1.0 - pct / cfg.tolerance
      else 0.0
    else 0.0
  }

  lemma UnitRatio(x: real, y: real)
    requires 0.0 <= x <= y && y > 0.0
    ensures 0.0 <= x / y <= 1.0
    ensures x > 0.0 ==> x / y > 0.0
    ensures x < y ==> x / y < 1.0
  {
    assert (x / y) * y == x;
  }

  function TimeScore(source: Candidate, c: Candidate, cfg: Config): (r: real)
    requires cfg.window > 0
    ensures 0.0 <= r <= 1.0
  {
    var td := TimeDelta(source, c);
    if td <= cfg.window then
      assert 0.0 <= td as real / cfg.window as real <= 1.0 by { UnitRatio(td as real, cfg.window as real); }
      1.0 - td as real / cfg.window as real
    else 0.0
  }

  // Dice similarity of two token sets; a shorter name of two or more words
  // that is contained in the longer one counts as equal.
  function NameSimilarity(a: set<string>, b: set<string>): (r: Option<real>)
    ensures r.Some? ==> 0.0 <= r.value <= 1.0
    ensures r.None? <==> a == {} || b == {}
  {
    if a == {} || b == {} then None
    else
      var overlap := |a * b|;
      assert a * b <= a && a * b <= b;
      CardinalityBound(a * b, a);
      CardinalityBound(a * b, b);
      var shorter := Min(|a|, |b|);
      if shorter >= 2 && overlap == shorter then Some(1.0)
      else
        UnitRatio((2 * overlap) as real, (|a| + |b|) as real);
        Some((2 * overlap) as real / (|a| + |b|) as real)
  }

  lemma CardinalityBound<T>(a: set<T>, b: set<T>)
    requires a <= b
    ensures |a| <= |b|
  {
    assert b == a + (b - a);
  }

  function NameScore(source: Candidate, c: Candidate): (r: real)
    ensures 0.0 <= r <= 1.0
  {
    match NameSimilarity(source.tokens, c.tokens)
    case Some(x) => x
    case None => if source.tokens == {} && c.tokens == {} then 0.5 else 0.2
  }

  function Bank(c: Candidate): string { if c.beneficiaryBank != "" then c.beneficiaryBank else c.senderBank }

  function BankScore(source: Candidate, c: Candidate): (r: real)
    ensures 0.0 <= r <= 1.0
  {
    if Bank(source) != "" && Bank(c) != "" then (if Bank(source) == Bank(c) then 1.0 else 0.0)
    else if Bank(source) == "" && Bank(c) == "" then 0.5
    else 0.0
  }

  datatype Evidence = Evidence(amount: real, time: real, name: real, bank: real)

  function EvidenceOf(source: Candidate, c: Candidate, cfg: Config): Evidence
    requires cfg.window > 0
  {
    Evidence(AmountScore(source, c, cfg), TimeScore(source, c, cfg), NameScore(source, c), BankScore(source, c))
  }

  function Score(source: Candidate, c: Candidate, cfg: Config): real
    requires cfg.window > 0
  {
    var ev := EvidenceOf(source, c, cfg);
    Weigh(ev.amount, cfg.weightAmount) + Weigh(ev.time, cfg.weightTime)
    + Weigh(ev.name, cfg.weightName) + Weigh(ev.bank, cfg.weightBank)
  }

  function Weigh(x: real, w: real): (r: real)
    ensures 0.0 <= x <= 1.0 && w >= 0.0 ==> 0.0 <= r <= w
  {
    assert 0.0 <= x <= 1.0 && w >= 0.0 ==> 0.0 <= x * w <= w by {
      if 0.0 <= x <= 1.0 && w >= 0.0 {
        assert w - x * w == (1.0 - x) * w >= 0.0;
      }
    }
    x * w
  }

  lemma ScoreBounded(source: Candidate, c: Candidate, cfg: Config)
    requires ValidConfig(cfg)
    ensures 0.0 <= Score(source, c, cfg) <= 1.0
  {
    hide AmountScore, TimeScore, NameScore, BankScore, Weigh;
  }

  // ---- what the scores measure ---------------------------------------------

  // Linear in the distance: full at zero, nothing from the window on.
  lemma TimeScoreLaw(source: Candidate, c: Candidate, cfg: Config)
    requires cfg.window > 0
    ensures var td := TimeDelta(source, c);
      TimeScore(source, c, cfg) * cfg.window as real == if td <= cfg.window then (cfg.window - td) as real else 0.0
    ensures TimeScore(source, c, cfg) == 1.0 <==> source.initiatedAt == c.initiatedAt
    ensures TimeScore(source, c, cfg) == 0.0 <==> TimeDelta(source, c) >= cfg.window
  {
    var (td, w) := (TimeDelta(source, c) as real, cfg.window as real);
    assert (1.0 - td / w) * w == w - td;
    if TimeDelta(source, c) <= cfg.window { UnitRatio(td, w); }
    if td / w == 1.0 { assert td == w; }
  }

  // Linear in the relative delta: full for equal amounts, nothing from the
  // tolerance on.
  lemma AmountScoreLaw(source: Candidate, c: Candidate, cfg: Config)
    requires source.amount > 0.0 && cfg.tolerance > 0.0
    ensures var (score, delta) := (AmountScore(source, c, cfg), AbsReal(source.amount - c.amount));
      && score * (cfg.tolerance * source.amount) ==
           (if delta <= cfg.tolerance * source.amount then cfg.tolerance * source.amount - delta else 0.0)
      && (score == 1.0 <==> source.amount == c.amount)
      && (score == 0.0 <==> delta >= cfg.tolerance * source.amount)
  {
    var (x, tol, delta) := (source.amount, cfg.tolerance, AbsReal(source.amount - c.amount));
    hide AbsReal;
    RatioCompares(delta, x, tol);
    if delta <= tol * x { LinearShare(delta, x, tol); }
  }

  lemma RatioCompares(d: real, x: real, tol: real)
    requires d >= 0.0 && x > 0.0 && tol > 0.0
    ensures d / x <= tol <==> d <= tol * x
    ensures d / x == 0.0 <==> d == 0.0
    ensures d / x == tol <==> d == tol * x
  {
    var q := d / x;
    assert q * x == d;
    if q <= tol { assert (tol - q) * x >= 0.0; }
    if q > tol { assert (q - tol) * x > 0.0; }
  }

  lemma LinearShare(d: real, x: real, tol: real)
    requires 0.0 <= d <= tol * x && x > 0.0 && tol > 0.0
    ensures (1.0 - d / x / tol) * (tol * x) == tol * x - d
    ensures d / x / tol == 0.0 <==> d == 0.0
    ensures d / x / tol == 1.0 <==> d == tol * x
  {
    var q := d / x;
    var r := q / tol;
    assert q * x == d && r * tol == q;
    assert r * (tol * x) == (r * tol) * x;
    RatioOne(q, tol);
    RatioCompares(d, x, tol);
  }

  // Full similarity means equal names, or a name of two or more words inside
  // a longer one; no shared word means none; in between it is the share of
  // common words.
  lemma SimilarityLaw(a: set<string>, b: set<string>)
    requires a != {} && b != {}
    ensures NameSimilarity(a, b) == NameSimilarity(b, a)
    ensures NameSimilarity(a, b) == Some(1.0) <==> a == b || (|a| >= 2 && a <= b) || (|b| >= 2 && b <= a)
    ensures NameSimilarity(a, b) == Some(0.0) <==> a !! b
    ensures NameSimilarity(a, b) != Some(1.0) ==>
              NameSimilarity(a, b).value * (|a| + |b|) as real == (2 * |a * b|) as real
  {
    assert a * b == b * a;
    Overlaps(a, b);
    var (n, m) := ((2 * |a * b|) as real, (|a| + |b|) as real);
    assert m > 0.0 && (n / m) * m == n;
    assert n / m == 1.0 <==> n == m by { RatioOne(n, m); }
  }

  lemma Overlaps(a: set<string>, b: set<string>)
    ensures |a * b| <= |a| && |a * b| <= |b|
    ensures |a * b| == |a| <==> a <= b
    ensures |a * b| == |b| <==> b <= a
    ensures |a * b| == 0 <==> a !! b
    ensures a <= b ==> |a| <= |b|
    ensures b <= a ==> |b| <= |a|
    ensures a <= b && |a| == |b| ==> a == b
  {
    Inside(a, b);
    Inside(b, a);
    assert a * b == b * a;
    assert |a * b| == 0 <==> a * b == {};
    if a <= b { CardinalityBound(a, b); SameSize(a, b); }
    if b <= a { CardinalityBound(b, a); }
  }

  lemma Inside(a: set<string>, b: set<string>)
    ensures |a * b| <= |a| && (|a * b| == |a| <==> a <= b)
  {
    CardinalityBound(a * b, a);
    SameSize(a * b, a);
    assert a * b == a <==> a <= b by {
      if a * b == a { forall x | x in a ensures x in b { assert x in a * b; } }
    }
  }

  lemma SameSize(a: set<string>, b: set<string>)
    requires a <= b
    ensures |a| == |b| ==> a == b
  {
    assert b == a + (b - a);
  }

  // Known equal banks count more than banks nobody knows, and those more than
  // different banks or a bank known on one side only.
  lemma BankLevels(s: Candidate, c: Candidate)
    ensures BankScore(s, c) == 1.0 <==> Bank(s) != "" && Bank(s) == Bank(c)
    ensures BankScore(s, c) == 0.5 <==> Bank(s) == "" && Bank(c) == ""
    ensures BankScore(s, c) == 0.0 <==> Bank(s) != Bank(c)
    ensures Bank(c) == "" <==> c.beneficiaryBank == "" && c.senderBank == ""
    ensures c.beneficiaryBank != "" ==> Bank(c) == c.beneficiaryBank
    ensures c.beneficiaryBank == "" ==> Bank(c) == c.senderBank
  {
  }

  // Names nobody knows count half; a name known on one side only counts less,
  // but more than two names without a common word.
  lemma NameLevels(s: Candidate, c: Candidate)
    ensures s.tokens == {} && c.tokens == {} ==> NameScore(s, c) == 0.5
    ensures (s.tokens == {}) != (c.tokens == {}) ==> NameScore(s, c) == 0.2
    ensures s.tokens != {} && c.tokens != {} ==> Some(NameScore(s, c)) == NameSimilarity(s.tokens, c.tokens)
  {
  }

  // The same distance apart, whichever comes first.
  lemma WithinIff(a: Candidate, b: Candidate, limit: int)
    ensures TimeDelta(a, b) <= limit <==> -limit <= a.initiatedAt - b.initiatedAt <= limit
  {
  }

  lemma EligibleIff(source: Candidate, c: Candidate)
    ensures Eligible(source, c) <==>
            && c.id != source.id && c.psp != source.psp && !c.alreadyMatched
            && {source.txType, c.txType} == {Credit, Debit}
  {
    assert {source.txType, c.txType} == {Credit, Debit} ==>
      Credit in {source.txType, c.txType} && Debit in {source.txType, c.txType};
  }

  lemma WeighMore(x: real, y: real, w: real)
    requires x > y && w > 0.0
    ensures Weigh(x, w) > Weigh(y, w)
  {
    var d := x - y;
    PositiveProduct(d, w);
    assert x * w == y * w + d * w;
    assert Weigh(x, w) == y * w + d * w;
    assert Weigh(y, w) == y * w;
  }

  predicate SameTime(source: Candidate, a: Candidate, b: Candidate) { TimeDelta(source, a) == TimeDelta(source, b) }

  // Of two candidates alike otherwise, the nearer one scores higher.
  lemma NearerScoresHigher(source: Candidate, a: Candidate, b: Candidate, cfg: Config)
    requires cfg.window > 0 && cfg.weightTime > 0.0
    requires a.amount == b.amount && a.tokens == b.tokens && Bank(a) == Bank(b)
    requires TimeDelta(source, a) < TimeDelta(source, b) && TimeDelta(source, a) < cfg.window
    ensures Score(source, a, cfg) > Score(source, b, cfg)
  {
    hide TimeScore, NameSimilarity, Bank, Weigh, AbsReal;
    NearerTime(source, a, b, cfg);
    WeighMore(TimeScore(source, a, cfg), TimeScore(source, b, cfg), cfg.weightTime);
  }

  lemma NearerTime(source: Candidate, a: Candidate, b: Candidate, cfg: Config)
    requires cfg.window > 0 && TimeDelta(source, a) < TimeDelta(source, b) && TimeDelta(source, a) < cfg.window
    ensures TimeScore(source, a, cfg) > TimeScore(source, b, cfg)
  {
    hide TimeScore, TimeDelta;
    TimeScoreLaw(source, a, cfg);
    TimeScoreLaw(source, b, cfg);
    LessLeft(TimeScore(source, a, cfg), TimeScore(source, b, cfg), cfg.window as real,
             TimeDelta(source, a) as real, TimeDelta(source, b) as real);
  }

  // ... and so does the one of the closer amount,
  lemma CloserAmountScoresHigher(source: Candidate, a: Candidate, b: Candidate, cfg: Config)
    requires cfg.window > 0 && cfg.weightAmount > 0.0 && cfg.tolerance > 0.0 && source.amount > 0.0
    requires SameTime(source, a, b) && a.tokens == b.tokens && Bank(a) == Bank(b)
    requires AbsReal(source.amount - a.amount) < AbsReal(source.amount - b.amount)
    requires AbsReal(source.amount - a.amount) < cfg.tolerance * source.amount
    ensures Score(source, a, cfg) > Score(source, b, cfg)
  {
    hide AmountScore, NameSimilarity, Bank, Weigh, AbsReal;
    CloserAmount(source, a, b, cfg);
    WeighMore(AmountScore(source, a, cfg), AmountScore(source, b, cfg), cfg.weightAmount);
  }

  lemma CloserAmount(source: Candidate, a: Candidate, b: Candidate, cfg: Config)
    requires cfg.tolerance > 0.0 && source.amount > 0.0
    requires AbsReal(source.amount - a.amount) < AbsReal(source.amount - b.amount)
    requires AbsReal(source.amount - a.amount) < cfg.tolerance * source.amount
    ensures AmountScore(source, a, cfg) > AmountScore(source, b, cfg)
  {
    hide AmountScore, AbsReal;
    AmountScoreLaw(source, a, cfg);
    AmountScoreLaw(source, b, cfg);
    PositiveProduct(cfg.tolerance, source.amount);
    LessLeft(AmountScore(source, a, cfg), AmountScore(source, b, cfg), cfg.tolerance * source.amount,
             AbsReal(source.amount - a.amount), AbsReal(source.amount - b.amount));
  }

  lemma PositiveProduct(x: real, y: real)
    requires x > 0.0 && y > 0.0
    ensures x * y > 0.0
  {
  }

  // What is left of `w` after `near` is more than what is left after `far`.
  lemma LessLeft(x: real, y: real, w: real, near: real, far: real)
    requires w > 0.0 && near < far && near < w
    requires x * w == if near <= w then w - near else 0.0
    requires y * w == if far <= w then w - far else 0.0
    ensures x > y
  {
    LargerFactor(x, y, w, if near <= w then w - near else 0.0, if far <= w then w - far else 0.0);
  }

  lemma LargerFactor(x: real, y: real, w: real, p: real, q: real)
    requires w > 0.0 && p == x * w && q == y * w && q < p
    ensures x > y
  {
    var d := y - x;
    assert d * w == q - p;
    if d >= 0.0 { NonNegativeProduct(d, w); }
  }

  lemma NonNegativeProduct(x: real, y: real)
    requires x >= 0.0 && y > 0.0
    ensures x * y >= 0.0
  {
  }

  // ... the one at the same known bank,
  lemma SameBankScoresHigher(source: Candidate, a: Candidate, b: Candidate, cfg: Config)
    requires cfg.window > 0 && cfg.weightBank > 0.0
    requires SameTime(source, a, b) && a.amount == b.amount && a.tokens == b.tokens
    requires Bank(a) == Bank(source) != Bank(b)
    ensures Score(source, a, cfg) > Score(source, b, cfg)
  {
    hide AmountScore, NameSimilarity, Weigh;
    BankLevels(source, a);
    BankLevels(source, b);
    AmountOnly(source, a, b, cfg);
    WeighMore(BankScore(source, a), BankScore(source, b), cfg.weightBank);
  }

  lemma AmountOnly(source: Candidate, a: Candidate, b: Candidate, cfg: Config)
    requires a.amount == b.amount
    ensures AmountScore(source, a, cfg) == AmountScore(source, b, cfg)
  {
  }

  // ... and the one with the more similar name.
  lemma MoreSimilarScoresHigher(source: Candidate, a: Candidate, b: Candidate, cfg: Config)
    requires cfg.window > 0 && cfg.weightName > 0.0
    requires SameTime(source, a, b) && a.amount == b.amount && Bank(a) == Bank(b)
    requires NameScore(source, a) > NameScore(source, b)
    ensures Score(source, a, cfg) > Score(source, b, cfg)
  {
    hide AmountScore, NameScore, Bank, Weigh;
    AmountOnly(source, a, b, cfg);
    WeighMore(NameScore(source, a), NameScore(source, b), cfg.weightName);
  }

  // `_compute_confidence_evidence` starts from zeros and fills the fields in.
  method ComputeConfidenceEvidence(source: Candidate, c: Candidate, cfg: Config) returns (ev: Evidence)
    requires cfg.window > 0
    ensures ev == EvidenceOf(source, c, cfg)
  {
    ev := Evidence(0.0, 0.0, 0.0, 0.0);
    if source.amount > 0.0 {
      var pct := AbsReal(source.amount - c.amount) / source.amount;
      if pct == 0.0 {
        ev := ev.(amount := 1.0);
      } else if cfg.tolerance > 0.0 && pct <= cfg.tolerance {
        ev := ev.(amount := 1.0 - pct / cfg.tolerance);
      }
    }
    var td := TimeDelta(source, c);
    if td <= cfg.window {
      ev := ev.(time := 1.0 - td as real / cfg.window as real);
    }
    var similarity := NameSimilarity(source.tokens, c.tokens);
    if similarity.Some? {
      ev := ev.(name := similarity.value);
    } else if source.tokens == {} && c.tokens == {} {
      ev := ev.(name := 0.5);
    } else {
      ev := ev.(name := 0.2);
    }
    if Bank(source) != "" && Bank(c) != "" {
      ev := ev.(bank := if Bank(source) == Bank(c) then 1.0 else 0.0);
    } else if Bank(source) == "" && Bank(c) == "" {
      ev := ev.(bank := 0.5);
    }
  }

  // ---- tier 1 ---------------------------------------------------------------

  function NearerFirst(source: Candidate): (Candidate, Candidate) -> bool {
    (a, b) => TimeDelta(source, a) <= TimeDelta(source, b)
  }

  function SameAmount(source: Candidate): Candidate -> bool {
    c => Eligible(source, c) && c.amount == source.amount
  }

  function InPrimaryWindow(source: Candidate, cfg: Config): Candidate -> bool {
    c => TimeDelta(source, c) <= cfg.primaryWindow
  }

  function ExactCandidates(source: Candidate, candidates: seq<Candidate>, cfg: Config): seq<Candidate> {
    Filter(Sort(Filter(candidates, SameAmount(source)), NearerFirst(source)), InPrimaryWindow(source, cfg))
  }

  function DecidePrimary(source: Candidate, exact: seq<Candidate>): MatchResult {
    if exact == [] then Refusal(source, ExactPrimary, false)
    else if |exact| > 1 && TimeDelta(source, exact[0]) == TimeDelta(source, exact[1]) then
      Refusal(source, ExactPrimary, true)
    else MatchResult(source.id, Some(exact[0].id), ExactPrimary, 1.0, false, Some(0.0), true)
  }

  function FindPrimaryMatch(source: Candidate, candidates: seq<Candidate>, cfg: Config): MatchResult {
    DecidePrimary(source, ExactCandidates(source, candidates, cfg))
  }

  // ---- tier 2 ---------------------------------------------------------------

  function Scorable(source: Candidate, cfg: Config): Candidate -> bool {
    c => Eligible(source, c) && TimeDelta(source, c) <= cfg.window && AmountScore(source, c, cfg) != 0.0
  }

  function BetterFirst(source: Candidate, cfg: Config): (Candidate, Candidate) -> bool
    requires cfg.window > 0
  {
    (a, b) => Score(source, a, cfg) >= Score(source, b, cfg)
  }

  // The result of choosing `best`.
  function Picked(source: Candidate, best: Candidate, cfg: Config): MatchResult
    requires cfg.window > 0
  {
    var delta := AbsReal(source.amount - best.amount);
    var pct := if source.amount > 0.0 then delta / source.amount else 0.0;
    MatchResult(source.id, Some(best.id), ProbabilisticSecondary, Score(source, best, cfg), false,
                Some(delta), pct <= cfg.fxThreshold)
  }

  function DecideProbabilistic(source: Candidate, scored: seq<Candidate>, cfg: Config): MatchResult
    requires cfg.window > 0
  {
    if scored == [] || Score(source, scored[0], cfg) < cfg.threshold then
      Refusal(source, ProbabilisticSecondary, false)
    else if |scored| > 1 && Score(source, scored[0], cfg) - Score(source, scored[1], cfg) < cfg.margin then
      Refusal(source, ProbabilisticSecondary, true)
    else Picked(source, scored[0], cfg)
  }

  function FindProbabilisticMatch(source: Candidate, candidates: seq<Candidate>, cfg: Config): MatchResult
    requires cfg.window > 0
  {
    DecideProbabilistic(source, Sort(Filter(candidates, Scorable(source, cfg)), BetterFirst(source, cfg)), cfg)
  }

  // The tier as the code runs it: collect the scorable candidates in a loop,
  // then sort and decide.
  method ScoreAndDecide(source: Candidate, candidates: seq<Candidate>, cfg: Config) returns (r: MatchResult)
    requires cfg.window > 0
    ensures r == FindProbabilisticMatch(source, candidates, cfg)
  {
    var scored: seq<Candidate> := [];
    var i := 0;
    while i < |candidates|
      invariant 0 <= i <= |candidates|
      invariant scored == Filter(candidates[..i], Scorable(source, cfg))
    {
      var c := candidates[i];
      assert candidates[..i + 1] == candidates[..i] + [c];
      FilterAppend(candidates[..i], [c], Scorable(source, cfg));
      FilterOne(c, Scorable(source, cfg));
      if Eligible(source, c) && TimeDelta(source, c) <= cfg.window {
        var ev := ComputeConfidenceEvidence(source, c, cfg);
        if ev.amount != 0.0 {
          scored := scored + [c];
        }
      }
      i := i + 1;
    }
    assert candidates[..i] == candidates;
    scored := Sort(scored, BetterFirst(source, cfg));
    r := DecideProbabilistic(source, scored, cfg);
  }

  // ---- both tiers -------------------------------------------------------------

  function RunMatching(source: Candidate, candidates: seq<Candidate>, cfg: Config): MatchResult
    requires cfg.window > 0
  {
    var primary := FindPrimaryMatch(source, candidates, cfg);
    if primary.matched.Some? then primary
    else if primary.ambiguous then Refusal(source, Unmatched, true)
    else
      var prob := FindProbabilisticMatch(source, candidates, cfg);
      if prob.matched.Some? then prob else Refusal(source, Unmatched, prob.ambiguous)
  }

  // ---- what a match means --------------------------------------------------------

  // A matched result names an unmatched candidate of another PSP, credit
  // against debit, inside its tier's
  // window and tolerance, with a confidence between the threshold and 1.
  ghost predicate SoundMatch(source: Candidate, c: Candidate, r: MatchResult, cfg: Config)
    requires cfg.window > 0
  {
    && r.source == source.id && r.matched == Some(c.id) && !r.ambiguous
    && c.id != source.id && c.psp != source.psp && !c.alreadyMatched
    && {source.txType, c.txType} == {Credit, Debit}
    && cfg.threshold <= r.score <= 1.0
    && r.delta == Some(AbsReal(source.amount - c.amount))
    && (r.strategy == ExactPrimary ==>
          c.amount == source.amount && TimeDelta(source, c) <= cfg.primaryWindow && r.score == 1.0 && r.withinFx)
    && (r.strategy != ExactPrimary ==>
          && r.strategy == ProbabilisticSecondary && TimeDelta(source, c) <= cfg.window
          && source.amount > 0.0
          && (AbsReal(source.amount - c.amount) / source.amount < cfg.tolerance || c.amount == source.amount)
          && r.score == Score(source, c, cfg)
          && (r.withinFx <==> AbsReal(source.amount - c.amount) / source.amount <= cfg.fxThreshold))
  }

  lemma RunMatchingSound(source: Candidate, candidates: seq<Candidate>, cfg: Config) returns (c: Candidate)
    requires ValidConfig(cfg)
    requires RunMatching(source, candidates, cfg).matched.Some?
    ensures c in candidates && SoundMatch(source, c, RunMatching(source, candidates, cfg), cfg)
  {
    var primary := FindPrimaryMatch(source, candidates, cfg);
    if primary.matched.Some? {
      c := PrimarySound(source, candidates, cfg);
    } else {
      c := ProbabilisticSound(source, candidates, cfg);
    }
  }

  lemma InSorted(x: Candidate, s: seq<Candidate>, le: (Candidate, Candidate) -> bool)
    ensures x in Sort(s, le) <==> x in s
  {
    SameElements(Sort(s, le), s, x);
  }

  lemma PrimarySound(source: Candidate, candidates: seq<Candidate>, cfg: Config) returns (c: Candidate)
    requires ValidConfig(cfg)
    requires FindPrimaryMatch(source, candidates, cfg).matched.Some?
    ensures c in candidates && SoundMatch(source, c, FindPrimaryMatch(source, candidates, cfg), cfg)
    ensures FindPrimaryMatch(source, candidates, cfg).strategy == ExactPrimary
  {
    var exact := ExactCandidates(source, candidates, cfg);
    c := exact[0];
    assert c in exact;
    InSorted(c, Filter(candidates, SameAmount(source)), NearerFirst(source));
  }

  lemma ProbabilisticSound(source: Candidate, candidates: seq<Candidate>, cfg: Config) returns (c: Candidate)
    requires ValidConfig(cfg)
    requires FindProbabilisticMatch(source, candidates, cfg).matched.Some?
    ensures c in candidates && SoundMatch(source, c, FindProbabilisticMatch(source, candidates, cfg), cfg)
  {
    hide AmountScore, NameSimilarity, TimeScore, BankScore, NameScore, Score, Filter, Sort;
    var scored := Sort(Filter(candidates, Scorable(source, cfg)), BetterFirst(source, cfg));
    c := scored[0];
    assert c in scored;
    InSorted(c, Filter(candidates, Scorable(source, cfg)), BetterFirst(source, cfg));
    ScoreBounded(source, c, cfg);
    PositiveAmountScore(source, c, cfg);
  }

  lemma PositiveAmountScore(source: Candidate, c: Candidate, cfg: Config)
    requires AmountScore(source, c, cfg) != 0.0
    ensures source.amount > 0.0
    ensures AbsReal(source.amount - c.amount) / source.amount < cfg.tolerance || c.amount == source.amount
  {
    var d := AbsReal(source.amount - c.amount);
    var pct := d / source.amount;
    assert pct * source.amount == d;
    if pct != 0.0 {
      RatioOne(pct, cfg.tolerance);
    }
  }

  lemma RatioOne(x: real, y: real)
    requires y > 0.0
    ensures x / y == 1.0 <==> x == y
  {
    assert (x / y) * y == x;
  }

  // An exact-amount candidate in the window never goes unnoticed: the source
  // is matched or refused as ambiguous, and tier 2 cannot overrule that.
  lemma ExactCandidateDecides(source: Candidate, candidates: seq<Candidate>, c: Candidate, cfg: Config)
    requires cfg.window > 0
    requires c in candidates && Eligible(source, c) && c.amount == source.amount
    requires TimeDelta(source, c) <= cfg.primaryWindow
    ensures var r := RunMatching(source, candidates, cfg); r.matched.Some? || r.ambiguous
  {
    InSorted(c, Filter(candidates, SameAmount(source)), NearerFirst(source));
    assert c in ExactCandidates(source, candidates, cfg);
  }

  // ---- order independence ----------------------------------------------------------

  lemma {:induction false} FilterKeepsSorted(
    s: seq<Candidate>, keep: Candidate -> bool, le: (Candidate, Candidate) -> bool)
    requires SortedBy(s, le)
    ensures SortedBy(Filter(s, keep), le)
  {
    if s != [] {
      FilterKeepsSorted(s[1..], keep, le);
      assert forall x :: x in Filter(s[1..], keep) ==> x in s[1..];
      assert forall x :: x in s[1..] ==> le(s[0], x);
    }
  }

  lemma PrimaryOrderFree(source: Candidate, c1: seq<Candidate>, c2: seq<Candidate>, cfg: Config)
    requires multiset(c1) == multiset(c2)
    ensures FindPrimaryMatch(source, c1, cfg) == FindPrimaryMatch(source, c2, cfg)
  {
    var le := NearerFirst(source);
    FilterPermutation(c1, c2, SameAmount(source));
    var (s1, s2) := (Sort(Filter(c1, SameAmount(source)), le), Sort(Filter(c2, SameAmount(source)), le));
    SortSorted(Filter(c1, SameAmount(source)), le);
    SortSorted(Filter(c2, SameAmount(source)), le);
    FilterPermutation(s1, s2, InPrimaryWindow(source, cfg));
    FilterKeepsSorted(s1, InPrimaryWindow(source, cfg), le);
    FilterKeepsSorted(s2, InPrimaryWindow(source, cfg), le);
    SortedArrangementsAgree(ExactCandidates(source, c1, cfg), ExactCandidates(source, c2, cfg), le);
  }

  lemma DecisionsAgree(source: Candidate, s1: seq<Candidate>, s2: seq<Candidate>, cfg: Config)
    requires cfg.window > 0 && cfg.margin > 0.0 && |s1| == |s2|
    requires |s1| > 0 ==> Score(source, s1[0], cfg) == Score(source, s2[0], cfg)
    requires |s1| > 1 ==> Score(source, s1[1], cfg) == Score(source, s2[1], cfg)
    requires |s1| > 0 && (|s1| == 1 || Score(source, s1[1], cfg) < Score(source, s1[0], cfg)) ==> s1[0] == s2[0]
    ensures DecideProbabilistic(source, s1, cfg) == DecideProbabilistic(source, s2, cfg)
  {
    hide Score;
  }

  lemma ProbabilisticOrderFree(source: Candidate, c1: seq<Candidate>, c2: seq<Candidate>, cfg: Config)
    requires cfg.window > 0 && cfg.margin > 0.0
    requires multiset(c1) == multiset(c2)
    ensures FindProbabilisticMatch(source, c1, cfg) == FindProbabilisticMatch(source, c2, cfg)
  {
    hide Score, AmountScore, DecideProbabilistic;
    var (keep, le) := (Scorable(source, cfg), BetterFirst(source, cfg));
    FilterPermutation(c1, c2, keep);
    var (f1, f2) := (Filter(c1, keep), Filter(c2, keep));
    hide Filter, Sort;
    SortSorted(f1, le);
    SortSorted(f2, le);
    SortedArrangementsAgree(Sort(f1, le), Sort(f2, le), le);
    DecisionsAgree(source, Sort(f1, le), Sort(f2, le), cfg);
  }

  // With a positive ambiguity margin the decision does not depend on the
  // order of the candidate list.
  lemma OrderIndependence(source: Candidate, c1: seq<Candidate>, c2: seq<Candidate>, cfg: Config)
    requires cfg.window > 0 && cfg.margin > 0.0
    requires multiset(c1) == multiset(c2)
    ensures RunMatching(source, c1, cfg) == RunMatching(source, c2, cfg)
  {
    PrimaryOrderFree(source, c1, c2, cfg);
    ProbabilisticOrderFree(source, c1, c2, cfg);
  }

  // The margin is what buys this. For two tier-2 candidates that tie above the
  // threshold, swapping them leaves the result alone exactly when the margin
  // is positive; without it the first one listed wins.
  lemma TiedPairNeedsMargin(source: Candidate, a: Candidate, b: Candidate, cfg: Config)
    requires cfg.window > 0 && a.id != b.id
    requires Scorable(source, cfg)(a) && Scorable(source, cfg)(b)
    requires a.amount != source.amount && b.amount != source.amount
    requires Score(source, a, cfg) == Score(source, b, cfg) >= cfg.threshold
    ensures RunMatching(source, [a, b], cfg) == RunMatching(source, [b, a], cfg) <==> cfg.margin > 0.0
    ensures cfg.margin <= 0.0 ==> RunMatching(source, [a, b], cfg).matched == Some(a.id)
  {
    hide RunMatching, Score, AmountScore, Eligible, AbsReal;
    TiedPair(source, a, b, cfg);
    TiedPair(source, b, a, cfg);
  }

  lemma TiedPair(source: Candidate, a: Candidate, b: Candidate, cfg: Config)
    requires cfg.window > 0
    requires Scorable(source, cfg)(a) && Scorable(source, cfg)(b)
    requires a.amount != source.amount && b.amount != source.amount
    requires Score(source, a, cfg) == Score(source, b, cfg) >= cfg.threshold
    ensures RunMatching(source, [a, b], cfg) ==
            if cfg.margin > 0.0 then Refusal(source, Unmatched, true) else DecideProbabilistic(source, [a, b], cfg)
  {
    hide Score, AmountScore;
    var (same, keep, le) := (SameAmount(source), Scorable(source, cfg), BetterFirst(source, cfg));
    FilterTwo(a, b, same);
    FilterTwo(a, b, keep);
    hide Filter;
    assert ExactCandidates(source, [a, b], cfg) == [] by {
      FilterNone(InPrimaryWindow(source, cfg));
    }
    assert Sort([a, b], le) == [a, b] by { SortTwo(a, b, le); }
  }

  lemma FilterNone(keep: Candidate -> bool)
    ensures Filter([], keep) == []
  {
  }

  lemma FilterTwo(a: Candidate, b: Candidate, keep: Candidate -> bool)
    ensures Filter([a, b], keep) == (if keep(a) then [a] else []) + (if keep(b) then [b] else [])
  {
    FilterAppend([a], [b], keep);
    FilterOne(a, keep);
    FilterOne(b, keep);
    assert [a, b] == [a] + [b];
  }

  lemma SortTwo(a: Candidate, b: Candidate, le: (Candidate, Candidate) -> bool)
    requires le(a, b)
    ensures Sort([a, b], le) == [a, b]
  {
    assert [a, b][1..] == [b] && [b][1..] == [];
    assert Sort([b], le) == [b];
  }

  // No candidate is for tier 1 to decide about.
  ghost predicate NoExact(source: Candidate, candidates: seq<Candidate>, cfg: Config) {
    forall c :: c in candidates && SameAmount(source)(c) ==> TimeDelta(source, c) > cfg.primaryWindow
  }

  // `a` scores as high as any candidate, and high enough.
  ghost predicate Top(source: Candidate, candidates: seq<Candidate>, a: Candidate, cfg: Config)
    requires cfg.window > 0
  {
    && a in candidates && Scorable(source, cfg)(a) && Score(source, a, cfg) >= cfg.threshold
    && forall c :: c in candidates && Scorable(source, cfg)(c) ==> BetterFirst(source, cfg)(a, c)
  }

  ghost predicate TiedAtTop(source: Candidate, candidates: seq<Candidate>, cfg: Config)
    requires cfg.window > 0
  {
    exists a, b :: Top(source, candidates, a, cfg) && Top(source, candidates, b, cfg)
                   && Picked(source, a, cfg) != Picked(source, b, cfg)
  }

  ghost predicate OrderFree(source: Candidate, candidates: seq<Candidate>, cfg: Config)
    requires cfg.window > 0
  {
    forall c2 :: multiset(c2) == multiset(candidates) ==>
      RunMatching(source, c2, cfg) == RunMatching(source, candidates, cfg)
  }

  lemma NoExactRefuses(source: Candidate, candidates: seq<Candidate>, cfg: Config)
    requires NoExact(source, candidates, cfg)
    ensures FindPrimaryMatch(source, candidates, cfg) == Refusal(source, ExactPrimary, false)
  {
    hide Filter, Sort;
    var exact := Leading(source, candidates, cfg);
    forall c ensures c !in multiset(exact) {
      assert c in multiset(exact) ==> c in multiset(candidates) && SameAmount(source)(c);
    }
    assert multiset(exact) == multiset{};
    assert |multiset(exact)| == 0;
  }

  // Listed first, a top candidate stays first.
  lemma TopSortsFirst(s: seq<Candidate>, le: (Candidate, Candidate) -> bool)
    requires s != [] && forall c :: c in s ==> le(s[0], c)
    ensures Sort(s, le) != [] && Sort(s, le)[0] == s[0]
  {
    var rest := Sort(s[1..], le);
    if rest != [] {
      assert rest[0] in rest;
      SameElements(rest, s[1..], rest[0]);
    }
  }

  // Without a margin the best score alone decides tier 2, and the first one
  // listed has it.
  lemma HeadDecides(source: Candidate, scored: seq<Candidate>, cfg: Config)
    requires cfg.window > 0 && cfg.margin <= 0.0 && scored != [] && SortedBy(scored, BetterFirst(source, cfg))
    ensures DecideProbabilistic(source, scored, cfg) ==
            if Score(source, scored[0], cfg) < cfg.threshold then Refusal(source, ProbabilisticSecondary, false)
            else Picked(source, scored[0], cfg)
  {
    hide Score;
    if |scored| > 1 { assert BetterFirst(source, cfg)(scored[0], scored[1]); }
  }

  lemma BetterFirstOrders(source: Candidate, cfg: Config)
    requires cfg.window > 0
    ensures TotalPreorder(BetterFirst(source, cfg))
  {
    hide Score;
  }

  // The tier-2 candidates in the order tier 2 looks at them.
  lemma Scored(source: Candidate, candidates: seq<Candidate>, cfg: Config) returns (scored: seq<Candidate>)
    requires cfg.window > 0
    ensures scored == Sort(Filter(candidates, Scorable(source, cfg)), BetterFirst(source, cfg))
    ensures SortedBy(scored, BetterFirst(source, cfg))
    ensures forall c :: c in scored <==> c in candidates && Scorable(source, cfg)(c)
    ensures FindProbabilisticMatch(source, candidates, cfg) == DecideProbabilistic(source, scored, cfg)
  {
    hide Score, AmountScore, DecideProbabilistic, Sort, TotalPreorder;
    var f := Filter(candidates, Scorable(source, cfg));
    scored := Sort(f, BetterFirst(source, cfg));
    BetterFirstOrders(source, cfg);
    SortSorted(f, BetterFirst(source, cfg));
    forall c ensures c in scored <==> c in f { SameElements(scored, f, c); }
  }

  lemma ToFront(candidates: seq<Candidate>, a: Candidate) returns (rest: seq<Candidate>)
    requires a in candidates
    ensures multiset([a] + rest) == multiset(candidates)
    ensures forall c :: c in [a] + rest <==> c in candidates
  {
    var k :| 0 <= k < |candidates| && candidates[k] == a;
    rest := candidates[..k] + candidates[k + 1..];
    assert candidates == candidates[..k] + [a] + candidates[k + 1..];
    forall c ensures c in [a] + rest <==> c in candidates { SameElements([a] + rest, candidates, c); }
  }

  // Without a margin, some order of the list makes any top candidate the match.
  lemma TopCanWin(source: Candidate, candidates: seq<Candidate>, a: Candidate, cfg: Config)
    returns (c2: seq<Candidate>)
    requires cfg.window > 0 && cfg.margin <= 0.0
    requires NoExact(source, candidates, cfg) && Top(source, candidates, a, cfg)
    ensures multiset(c2) == multiset(candidates) && RunMatching(source, c2, cfg) == Picked(source, a, cfg)
  {
    hide Score, AmountScore, Sort, FindPrimaryMatch, FindProbabilisticMatch, Filter, TotalPreorder;
    var rest := ToFront(candidates, a);
    c2 := [a] + rest;
    NoExactRefuses(source, c2, cfg);
    var (keep, le) := (Scorable(source, cfg), BetterFirst(source, cfg));
    FilterAppend([a], rest, keep);
    FilterOne(a, keep);
    TopSortsFirst(Filter(c2, keep), le);
    var scored := Scored(source, c2, cfg);
    HeadDecides(source, scored, cfg);
  }

  // Without a margin, an untied list is decided alike in every order.
  lemma UntiedIsOrderFree(source: Candidate, c1: seq<Candidate>, c2: seq<Candidate>, cfg: Config)
    requires cfg.window > 0 && cfg.margin <= 0.0 && multiset(c1) == multiset(c2)
    requires !(NoExact(source, c1, cfg) && TiedAtTop(source, c1, cfg))
    ensures RunMatching(source, c1, cfg) == RunMatching(source, c2, cfg)
  {
    hide Score, AmountScore, Sort, FindPrimaryMatch, FindProbabilisticMatch, Filter, TotalPreorder, Picked,
         DecideProbabilistic;
    PrimaryOrderFree(source, c1, c2, cfg);
    if NoExact(source, c1, cfg) {
      forall c ensures c in c1 <==> c in c2 { SameElements(c1, c2, c); }
      var s1 := Scored(source, c1, cfg);
      var s2 := Scored(source, c2, cfg);
      if s1 != [] { assert s1[0] in s1; }
      if s2 != [] { assert s2[0] in s2; }
      if s1 == [] || s2 == [] {
        assert s1 == [] && s2 == [];
      } else {
        HeadsTie(source, c1, s1, s2, cfg);
      }
    } else {
      ExactIsFound(source, c1, cfg);
    }
  }

  // A candidate for tier 1 leaves nothing to tier 2.
  lemma ExactIsFound(source: Candidate, candidates: seq<Candidate>, cfg: Config)
    requires !NoExact(source, candidates, cfg)
    ensures var r := FindPrimaryMatch(source, candidates, cfg); r.matched.Some? || r.ambiguous
  {
    hide Filter, Sort;
    var c :| c in candidates && SameAmount(source)(c) && TimeDelta(source, c) <= cfg.primaryWindow;
    var exact := Leading(source, candidates, cfg);
    assert c in multiset(exact);
  }

  lemma HeadsTie(source: Candidate, cs: seq<Candidate>, s1: seq<Candidate>, s2: seq<Candidate>, cfg: Config)
    requires cfg.window > 0 && cfg.margin <= 0.0 && s1 != [] && s2 != []
    requires SortedBy(s1, BetterFirst(source, cfg)) && SortedBy(s2, BetterFirst(source, cfg))
    requires forall c :: c in s1 <==> c in cs && Scorable(source, cfg)(c)
    requires forall c :: c in s2 <==> c in cs && Scorable(source, cfg)(c)
    requires !TiedAtTop(source, cs, cfg)
    ensures DecideProbabilistic(source, s1, cfg) == DecideProbabilistic(source, s2, cfg)
  {
    hide Score, AmountScore, Scorable;
    HeadDecides(source, s1, cfg);
    HeadDecides(source, s2, cfg);
    HeadIsTop(source, cs, s1, cfg);
    HeadIsTop(source, cs, s2, cfg);
    assert s1[0] in s1 && s2[0] in s2;
  }

  lemma HeadIsTop(source: Candidate, cs: seq<Candidate>, s: seq<Candidate>, cfg: Config)
    requires cfg.window > 0 && s != [] && SortedBy(s, BetterFirst(source, cfg))
    requires forall c :: c in s <==> c in cs && Scorable(source, cfg)(c)
    ensures Score(source, s[0], cfg) >= cfg.threshold ==> Top(source, cs, s[0], cfg)
    ensures forall c :: c in s ==> BetterFirst(source, cfg)(s[0], c)
  {
    hide Score, AmountScore, Scorable;
    assert s[0] in s;
    forall c | c in s ensures BetterFirst(source, cfg)(s[0], c) {
      var k :| 0 <= k < |s| && s[k] == c;
    }
  }

  // Exactly when the order of the list does not matter: the margin is
  // positive, or tier 1 has a candidate, or no two top candidates of tier 2
  // tie.
  lemma OrderFreeIff(source: Candidate, candidates: seq<Candidate>, cfg: Config)
    requires cfg.window > 0
    ensures OrderFree(source, candidates, cfg) <==>
            cfg.margin > 0.0 || !NoExact(source, candidates, cfg) || !TiedAtTop(source, candidates, cfg)
  {
    hide RunMatching, Score, NoExact, Top, Picked;
    if cfg.margin > 0.0 {
      forall c2 | multiset(c2) == multiset(candidates)
        ensures RunMatching(source, c2, cfg) == RunMatching(source, candidates, cfg)
      {
        OrderIndependence(source, c2, candidates, cfg);
      }
    } else if NoExact(source, candidates, cfg) && TiedAtTop(source, candidates, cfg) {
      var a, b :| Top(source, candidates, a, cfg) && Top(source, candidates, b, cfg)
                  && Picked(source, a, cfg) != Picked(source, b, cfg);
      var c1 := TopCanWin(source, candidates, a, cfg);
      var c2 := TopCanWin(source, candidates, b, cfg);
    } else {
      forall c2 | multiset(c2) == multiset(candidates)
        ensures RunMatching(source, c2, cfg) == RunMatching(source, candidates, cfg)
      {
        UntiedIsOrderFree(source, candidates, c2, cfg);
      }
    }
  }

  // ---- tier 2, read off the candidates -----------------------------------------

  // With nothing for tier 1, a candidate that reaches the threshold and beats
  // every other by the margin is the match.
  lemma ClearWinner(source: Candidate, cs: seq<Candidate>, best: Candidate, cfg: Config)
    requires cfg.window > 0 && NoExact(source, cs, cfg)
    requires multiset(cs)[best] == 1 && Scorable(source, cfg)(best) && Score(source, best, cfg) >= cfg.threshold
    requires forall c :: c in cs && c != best && Scorable(source, cfg)(c) ==>
               Score(source, c, cfg) < Score(source, best, cfg)
               && Score(source, best, cfg) - Score(source, c, cfg) >= cfg.margin
    ensures RunMatching(source, cs, cfg) == Picked(source, best, cfg)
  {
    hide Score, AmountScore, Sort, FindPrimaryMatch, FindProbabilisticMatch, Filter, TotalPreorder;
    NoExactRefuses(source, cs, cfg);
    var scored := Scored(source, cs, cfg);
    ScoredCount(source, cs, best, cfg);
    assert best in scored;
    assert scored[0] == best by {
      var k :| 0 <= k < |scored| && scored[k] == best;
      assert scored[0] in scored;
      if k > 0 { assert BetterFirst(source, cfg)(scored[0], scored[k]); }
    }
    if |scored| > 1 {
      assert scored == [scored[0], scored[1]] + scored[2..];
      assert multiset(scored)[best] >= multiset{scored[0], scored[1]}[best];
      assert scored[1] in scored && scored[1] != best;
      assert Score(source, best, cfg) - Score(source, scored[1], cfg) >= cfg.margin;
    }
    assert DecideProbabilistic(source, scored, cfg) == Picked(source, best, cfg);
  }

  lemma ScoredCount(source: Candidate, cs: seq<Candidate>, c: Candidate, cfg: Config)
    requires cfg.window > 0
    ensures multiset(Sort(Filter(cs, Scorable(source, cfg)), BetterFirst(source, cfg)))[c] <= multiset(cs)[c]
  {
    FilterMultiset(cs, Scorable(source, cfg), c);
  }

  // A runner-up within the margin makes the source wait for review.
  lemma RunnerUpTooClose(source: Candidate, cs: seq<Candidate>, best: Candidate, other: Candidate, cfg: Config)
    requires cfg.window > 0 && NoExact(source, cs, cfg) && Top(source, cs, best, cfg)
    requires other in cs && other != best && Scorable(source, cfg)(other)
    requires Score(source, best, cfg) - Score(source, other, cfg) < cfg.margin
    ensures RunMatching(source, cs, cfg) == Refusal(source, Unmatched, true)
  {
    hide Score, AmountScore, Sort, FindPrimaryMatch, FindProbabilisticMatch, Filter, TotalPreorder, Scorable;
    NoExactRefuses(source, cs, cfg);
    var scored := Scored(source, cs, cfg);
    var i :| 0 <= i < |scored| && scored[i] == best;
    var j :| 0 <= j < |scored| && scored[j] == other;
    assert scored[0] in scored;
    assert i > 0 ==> BetterFirst(source, cfg)(scored[0], scored[i]);
    assert BetterFirst(source, cfg)(best, scored[0]);
    var m := if i == 0 then j else i;
    assert m > 1 ==> BetterFirst(source, cfg)(scored[1], scored[m]);
  }

  // No candidate that reaches the threshold: no match, and nothing ambiguous.
  lemma NobodyReaches(source: Candidate, cs: seq<Candidate>, cfg: Config)
    requires cfg.window > 0 && NoExact(source, cs, cfg)
    requires forall c :: c in cs && Scorable(source, cfg)(c) ==> Score(source, c, cfg) < cfg.threshold
    ensures RunMatching(source, cs, cfg) == Refusal(source, Unmatched, false)
  {
    hide Score, AmountScore, Sort, FindPrimaryMatch, FindProbabilisticMatch, Filter, TotalPreorder, Scorable;
    NoExactRefuses(source, cs, cfg);
    var scored := Scored(source, cs, cfg);
    if scored != [] { assert scored[0] in scored; }
  }

  // Who may be scored at all: eligible, inside the window, and inside the
  // amount tolerance (at its edge only for equal amounts).
  lemma ScorableIff(source: Candidate, c: Candidate, cfg: Config)
    requires cfg.tolerance > 0.0
    ensures Scorable(source, cfg)(c) <==>
            && Eligible(source, c) && TimeDelta(source, c) <= cfg.window && source.amount > 0.0
            && AbsReal(source.amount - c.amount) < cfg.tolerance * source.amount
  {
    hide AbsReal, AmountScore;
    if source.amount > 0.0 { AmountScoreLaw(source, c, cfg); } else { NoAmountNoScore(source, c, cfg); }
  }

  lemma NoAmountNoScore(source: Candidate, c: Candidate, cfg: Config)
    requires source.amount <= 0.0
    ensures AmountScore(source, c, cfg) == 0.0
  {
  }

  // A debit of 1000 and two credits of 990 that differ only in their
  // distance, one hour and 160 hours: the near one is the match.
  lemma NearCreditWins(p: string, q: string, name: set<string>, bank: string)
    requires p != q && name != {} && bank != ""
    ensures var source := Candidate(1, p, Debit, 1000.0, 0, name, bank, "", false);
      var near := Candidate(2, q, Credit, 990.0, HOUR, name, bank, "", false);
      var far := Candidate(3, q, Credit, 990.0, 160 * HOUR, name, bank, "", false);
      && RunMatching(source, [far, near], DEFAULT_CONFIG) == Picked(source, near, DEFAULT_CONFIG)
      && RunMatching(source, [far, near], DEFAULT_CONFIG).matched == Some(2)
  {
    hide RunMatching, Score, NoExact, Scorable, SameAmount;
    var source := Candidate(1, p, Debit, 1000.0, 0, name, bank, "", false);
    var near := Candidate(2, q, Credit, 990.0, HOUR, name, bank, "", false);
    var far := Candidate(3, q, Credit, 990.0, 160 * HOUR, name, bank, "", false);
    ScoreOf990(source, near, 1);
    ScoreOf990(source, far, 160);
    assert multiset([far, near])[near] == 1;
    NoExactAmounts(source, [far, near]);
    ClearWinner(source, [far, near], near, DEFAULT_CONFIG);
  }

  lemma NoExactAmounts(source: Candidate, cs: seq<Candidate>)
    requires forall c :: c in cs ==> c.amount != source.amount
    ensures NoExact(source, cs, DEFAULT_CONFIG)
  {
  }

  lemma ScoreOf990(source: Candidate, c: Candidate, hours: nat)
    requires source.amount == 1000.0 && c.amount == 990.0 && hours <= 168
    requires source.initiatedAt == 0 && c.initiatedAt == hours * HOUR
    requires Eligible(source, c) && source.tokens == c.tokens != {} && Bank(source) == Bank(c) != ""
    ensures Scorable(source, DEFAULT_CONFIG)(c)
    ensures Score(source, c, DEFAULT_CONFIG) == 0.32 + 0.25 * (168 - hours) as real / 168.0 + 0.35
  {
    hide AmountScore, TimeScore, NameSimilarity, Eligible, Bank;
    AmountScoreLaw(source, c, DEFAULT_CONFIG);
    assert AmountScore(source, c, DEFAULT_CONFIG) == 0.8;
    TimeScoreLaw(source, c, DEFAULT_CONFIG);
    HoursOfWindow(TimeScore(source, c, DEFAULT_CONFIG), hours);
    SimilarityLaw(source.tokens, c.tokens);
    assert NameScore(source, c) == 1.0;
    BankLevels(source, c);
  }

  lemma HoursOfWindow(x: real, hours: nat)
    requires hours <= 168 && x * (168 * HOUR) as real == (168 * HOUR - hours * HOUR) as real
    ensures x == (168 - hours) as real / 168.0
  {
    assert (168 * HOUR - hours * HOUR) as real == (168 - hours) as real * HOUR as real;
    assert (168 * HOUR) as real == 168.0 * HOUR as real;
    assert x * 168.0 == (168 - hours) as real;
  }

  // ---- exact-amount ties --------------------------------------------------------

  // Two different candidates tie for tier 1.
  ghost predicate Tie(source: Candidate, a: Candidate, b: Candidate) {
    a != b && SameAmount(source)(a) && SameAmount(source)(b) && TimeDelta(source, a) == TimeDelta(source, b)
  }

  // No two candidates tie at a distance up to `horizon`.
  ghost predicate UntiedUpTo(source: Candidate, candidates: seq<Candidate>, horizon: int) {
    forall a, b :: a in candidates && b in candidates && Tie(source, a, b) ==> TimeDelta(source, a) > horizon
  }

  ghost predicate ListedOnce(candidates: seq<Candidate>) {
    forall c :: multiset(candidates)[c] <= 1
  }

  // With an exact candidate in the window and no tie up to its distance, the
  // source is matched.
  lemma UntiedIsMatched(source: Candidate, candidates: seq<Candidate>, c: Candidate, cfg: Config)
    requires cfg.window > 0 && ListedOnce(candidates)
    requires c in candidates && SameAmount(source)(c) && TimeDelta(source, c) <= cfg.primaryWindow
    requires UntiedUpTo(source, candidates, TimeDelta(source, c))
    ensures RunMatching(source, candidates, cfg).matched.Some?
  {
    hide ExactCandidates, FindProbabilisticMatch, Filter, Sort, TotalPreorder;
    var exact := Leading(source, candidates, cfg);
    assert c in multiset(exact);
    var k :| 0 <= k < |exact| && exact[k] == c;
    assert k > 0 ==> NearerFirst(source)(exact[0], exact[k]);
    if |exact| > 1 {
      assert exact == [exact[0], exact[1]] + exact[2..];
      assert multiset(exact)[exact[0]] >= multiset{exact[0], exact[1]}[exact[0]];
      assert exact[0] in exact && exact[1] in exact;
      assert exact[0] != exact[1];
      assert !Tie(source, exact[0], exact[1]);
    }
  }

  // For a pool of transactions: a source is matched from every duplicate-free
  // list that offers it an exact candidate if and only if no two in the pool
  // tie for it inside the primary window.
  lemma AlwaysMatchedIff(source: Candidate, pool: iset<Candidate>, cfg: Config)
    requires cfg.window > 0
    ensures (forall cs :: Offers(source, cs, pool, cfg) ==> RunMatching(source, cs, cfg).matched.Some?) <==>
            (forall a, b :: a in pool && b in pool && Tie(source, a, b) ==> TimeDelta(source, a) > cfg.primaryWindow)
  {
    hide RunMatching, SameAmount, TimeDelta;
    if a, b :| a in pool && b in pool && Tie(source, a, b) && TimeDelta(source, a) <= cfg.primaryWindow {
      var cs := [a, b];
      assert a in cs && ListedOnce(cs) && Offers(source, cs, pool, cfg);
      TieIsRefused(source, a, b, cfg);
    } else {
      forall cs | Offers(source, cs, pool, cfg) ensures RunMatching(source, cs, cfg).matched.Some? {
        var c :| c in cs && SameAmount(source)(c) && TimeDelta(source, c) <= cfg.primaryWindow;
        UntiedIsMatched(source, cs, c, cfg);
      }
    }
  }

  ghost predicate Offers(source: Candidate, cs: seq<Candidate>, pool: iset<Candidate>, cfg: Config) {
    && ListedOnce(cs) && (forall c :: c in cs ==> c in pool)
    && exists c :: c in cs && SameAmount(source)(c) && TimeDelta(source, c) <= cfg.primaryWindow
  }

  lemma TieIsRefused(source: Candidate, a: Candidate, b: Candidate, cfg: Config)
    requires cfg.window > 0 && Tie(source, a, b) && TimeDelta(source, a) <= cfg.primaryWindow
    ensures RunMatching(source, [a, b], cfg).matched.None?
  {
    hide RunMatching;
    NearestTie(source, [a, b], a, b, cfg);
  }

  // Reading tier 1 off the candidate list directly: a candidate strictly
  // nearer in time than every other exact-amount candidate is chosen, and two
  // nearest ones at the same distance are refused.
  lemma NearestWins(source: Candidate, candidates: seq<Candidate>, best: Candidate, cfg: Config)
    requires cfg.window > 0
    requires multiset(candidates)[best] == 1 && SameAmount(source)(best)
    requires TimeDelta(source, best) <= cfg.primaryWindow
    requires forall c :: c in candidates && SameAmount(source)(c) && c != best ==>
               TimeDelta(source, best) < TimeDelta(source, c)
    ensures RunMatching(source, candidates, cfg).matched == Some(best.id)
  {
    hide ExactCandidates, FindProbabilisticMatch, Filter, Sort, TotalPreorder;
    var exact := Leading(source, candidates, cfg);
    assert best in multiset(exact);
    var k :| 0 <= k < |exact| && exact[k] == best;
    assert exact[0] in exact;
    assert exact[0] == best;
    if |exact| > 1 {
      assert exact == [exact[0], exact[1]] + exact[2..];
      assert multiset(exact)[best] >= multiset{exact[0], exact[1]}[best];
      assert exact[1] in exact && exact[1] != best;
    }
  }

  lemma NearestTie(source: Candidate, candidates: seq<Candidate>, a: Candidate, b: Candidate, cfg: Config)
    requires cfg.window > 0
    requires a in candidates && b in candidates && a != b && SameAmount(source)(a) && SameAmount(source)(b)
    requires TimeDelta(source, a) == TimeDelta(source, b) <= cfg.primaryWindow
    requires forall c :: c in candidates && SameAmount(source)(c) ==> TimeDelta(source, a) <= TimeDelta(source, c)
    ensures RunMatching(source, candidates, cfg) == Refusal(source, Unmatched, true)
  {
    hide ExactCandidates, FindProbabilisticMatch, Filter, Sort, TotalPreorder;
    var exact := Leading(source, candidates, cfg);
    assert a in multiset(exact) && b in multiset(exact);
    var i :| 0 <= i < |exact| && exact[i] == a;
    var j :| 0 <= j < |exact| && exact[j] == b;
    var m := if i == 0 then j else i;
    assert m >= 1;
    assert exact[1] in exact;
    assert TimeDelta(source, exact[1]) <= TimeDelta(source, exact[m]) by {
      if m > 1 { assert NearerFirst(source)(exact[1], exact[m]); }
    }
    assert NearerFirst(source)(exact[0], exact[1]);
    assert exact[0] in exact;
  }

  // The exact candidates in the order tier 1 looks at them.
  lemma Leading(source: Candidate, candidates: seq<Candidate>, cfg: Config) returns (exact: seq<Candidate>)
    ensures exact == ExactCandidates(source, candidates, cfg)
    ensures SortedBy(exact, NearerFirst(source))
    ensures forall c :: multiset(exact)[c] ==
              if SameAmount(source)(c) && TimeDelta(source, c) <= cfg.primaryWindow then multiset(candidates)[c] else 0
    ensures forall c :: c in exact ==> c in candidates && SameAmount(source)(c)
  {
    exact := ExactCandidates(source, candidates, cfg);
    var le := NearerFirst(source);
    var f := Filter(candidates, SameAmount(source));
    SortSorted(f, le);
    FilterKeepsSorted(Sort(f, le), InPrimaryWindow(source, cfg), le);
    forall c
      ensures multiset(exact)[c] ==
        if SameAmount(source)(c) && TimeDelta(source, c) <= cfg.primaryWindow then multiset(candidates)[c] else 0
      ensures c in exact ==> c in candidates && SameAmount(source)(c)
    {
      FilterMultiset(candidates, SameAmount(source), c);
      FilterMultiset(Sort(f, le), InPrimaryWindow(source, cfg), c);
      InSorted(c, f, le);
    }
  }
}
