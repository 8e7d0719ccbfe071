// `match_all`: greedy one-to-one matching in list order.
module Greedy {
  import opened Common
  import opened Sorting
  import opened Keys
  import opened Matching

  function Free(matched: set<nat>): Candidate -> bool { (c: Candidate) => c.id !in matched }

  function Available(candidates: seq<Candidate>, matched: set<nat>): seq<Candidate> {
    Filter(candidates, Free(matched))
  }

  datatype Progress = Progress(matched: set<nat>, pairs: seq<MatchResult>)

  // What one source does when its turn comes.
  function TakeTurn(p: Progress, source: Candidate, candidates: seq<Candidate>, cfg: Config): Progress
    requires cfg.window > 0
  {
    if source.id in p.matched then p
    else
      var r := RunMatching(source, Available(candidates, p.matched), cfg);
      if r.matched.None? then p else Progress(p.matched + {source.id, r.matched.value}, p.pairs + [r])
  }

  // The state after the first `i` turns.
  function After(candidates: seq<Candidate>, i: nat, cfg: Config): Progress
    requires cfg.window > 0 && i <= |candidates|
  {
    if i == 0 then Progress({}, []) else TakeTurn(After(candidates, i - 1, cfg), candidates[i - 1], candidates, cfg)
  }

  function MatchAllSpec(candidates: seq<Candidate>, cfg: Config): seq<MatchResult>
    requires cfg.window > 0
  {
    After(candidates, |candidates|, cfg).pairs
  }

  method MatchAll(candidates: seq<Candidate>, cfg: Config) returns (pairs: seq<MatchResult>)
    requires cfg.window > 0
    ensures pairs == MatchAllSpec(candidates, cfg)
  {
    hide RunMatching, Filter;
    var matched: set<nat> := {};
    pairs := [];
    var i := 0;
    while i < |candidates|
      invariant 0 <= i <= |candidates|
      invariant Progress(matched, pairs) == After(candidates, i, cfg)
    {
      var source := candidates[i];
      if source.id !in matched {
        var r := RunMatching(source, Available(candidates, matched), cfg);
        if r.matched.Some? {
          matched := matched + {source.id, r.matched.value};
          pairs := pairs + [r];
        }
      }
      i := i + 1;
    }
  }

  // ---- one-to-one ------------------------------------------------------------

  function Ends(r: MatchResult): set<nat> {
    if r.matched.Some? then {r.source, r.matched.value} else {r.source}
  }

  function Paired(pairs: seq<MatchResult>): set<nat> {
    set r, x | r in pairs && x in Ends(r) :: x
  }

  // No transaction in two pairs, none paired with itself, and every pair a
  // sound match between two listed candidates.
  ghost predicate OneToOne(pairs: seq<MatchResult>) {
    && (forall i, j :: 0 <= i < j < |pairs| ==> Ends(pairs[i]) !! Ends(pairs[j]))
    && (forall i :: 0 <= i < |pairs| ==> pairs[i].matched.Some? && pairs[i].source != pairs[i].matched.value)
  }

  ghost predicate SoundPair(candidates: seq<Candidate>, r: MatchResult, cfg: Config)
    requires cfg.window > 0
  {
    exists a, b :: a in candidates && b in candidates && SoundMatch(a, b, r, cfg)
  }

  ghost predicate ProgressInv(candidates: seq<Candidate>, p: Progress, cfg: Config)
    requires cfg.window > 0
  {
    && OneToOne(p.pairs) && p.matched == Paired(p.pairs)
    && (forall i :: 0 <= i < |p.pairs| ==> Ends(p.pairs[i]) <= p.matched && SoundPair(candidates, p.pairs[i], cfg))
  }

  lemma PairedGrows(pairs: seq<MatchResult>, r: MatchResult)
    ensures Paired(pairs + [r]) == Paired(pairs) + Ends(r)
  {
    forall x ensures x in Paired(pairs + [r]) <==> x in Paired(pairs) + Ends(r) {
      if x in Paired(pairs) {
        var q :| q in pairs && x in Ends(q);
        assert q in pairs + [r];
      }
      assert r in pairs + [r];
    }
  }

  lemma PairAdded(candidates: seq<Candidate>, p: Progress, r: MatchResult, cfg: Config)
    requires cfg.window > 0 && ProgressInv(candidates, p, cfg) && SoundPair(candidates, r, cfg)
    requires r.matched.Some? && r.source != r.matched.value && Ends(r) !! p.matched
    ensures ProgressInv(candidates, Progress(p.matched + Ends(r), p.pairs + [r]), cfg)
  {
    hide SoundPair, Paired;
    PairedGrows(p.pairs, r);
  }

  lemma NothingPaired(candidates: seq<Candidate>, cfg: Config)
    requires cfg.window > 0
    ensures ProgressInv(candidates, Progress({}, []), cfg)
  {
  }

  lemma TurnKeeps(candidates: seq<Candidate>, p: Progress, source: Candidate, cfg: Config)
    requires ValidConfig(cfg) && ProgressInv(candidates, p, cfg) && source in candidates
    ensures ProgressInv(candidates, TakeTurn(p, source, candidates, cfg), cfg)
  {
    hide RunMatching, Filter, ProgressInv;
    if source.id !in p.matched {
      var r := RunMatching(source, Available(candidates, p.matched), cfg);
      if r.matched.Some? {
        var c := RunMatchingSound(source, Available(candidates, p.matched), cfg);
        assert c in candidates && c.id !in p.matched;
        assert SoundPair(candidates, r, cfg);
        PairAdded(candidates, p, r, cfg);
      }
    }
  }

  // The pairs returned for a list of candidates are disjoint, only their ends
  // are withheld from later turns, and each joins a
  // credit and a debit of different PSPs inside its tier's window and
  // tolerance, with a confidence between the threshold and 1.
  lemma {:induction false} MatchAllSound(candidates: seq<Candidate>, i: nat, cfg: Config)
    requires ValidConfig(cfg) && i <= |candidates|
    ensures ProgressInv(candidates, After(candidates, i, cfg), cfg)
    decreases i
  {
    hide ProgressInv, TakeTurn;
    NothingPaired(candidates, cfg);
    if i > 0 {
      MatchAllSound(candidates, i - 1, cfg);
      TurnKeeps(candidates, After(candidates, i - 1, cfg), candidates[i - 1], cfg);
    }
  }

  // ---- what is left over -------------------------------------------------------

  lemma {:induction false} MatchedGrows(candidates: seq<Candidate>, i: nat, j: nat, cfg: Config)
    requires cfg.window > 0 && i <= j <= |candidates|
    ensures After(candidates, i, cfg).matched <= After(candidates, j, cfg).matched
    decreases j
  {
    if i < j {
      MatchedGrows(candidates, i, j - 1, cfg);
    }
  }

  // Two leftover transactions that could have formed an exact pair were each
  // refused as ambiguous when their own turn came.
  lemma LeftoversWereAmbiguous(candidates: seq<Candidate>, i: nat, j: nat, cfg: Config)
    requires cfg.window > 0 && i < |candidates| && j < |candidates|
    requires var final := After(candidates, |candidates|, cfg).matched;
             candidates[i].id !in final && candidates[j].id !in final
    requires Eligible(candidates[i], candidates[j]) && Eligible(candidates[j], candidates[i])
    requires candidates[i].amount == candidates[j].amount
    requires TimeDelta(candidates[i], candidates[j]) <= cfg.primaryWindow
    ensures RefusedAtTurn(candidates, i, cfg) && RefusedAtTurn(candidates, j, cfg)
  {
    LeftoverWasAmbiguous(candidates, i, candidates[j], cfg);
    LeftoverWasAmbiguous(candidates, j, candidates[i], cfg);
  }

  ghost predicate RefusedAtTurn(candidates: seq<Candidate>, i: nat, cfg: Config)
    requires cfg.window > 0 && i < |candidates|
  {
    var r := RunMatching(candidates[i], Available(candidates, After(candidates, i, cfg).matched), cfg);
    r.matched.None? && r.ambiguous
  }

  lemma LeftoverWasAmbiguous(candidates: seq<Candidate>, i: nat, c: Candidate, cfg: Config)
    requires cfg.window > 0 && i < |candidates| && c in candidates
    requires candidates[i].id !in After(candidates, |candidates|, cfg).matched
    requires c.id !in After(candidates, |candidates|, cfg).matched
    requires Eligible(candidates[i], c) && c.amount == candidates[i].amount
    requires TimeDelta(candidates[i], c) <= cfg.primaryWindow
    ensures RefusedAtTurn(candidates, i, cfg)
  {
    var before := After(candidates, i, cfg);
    MatchedGrows(candidates, i, |candidates|, cfg);
    MatchedGrows(candidates, i + 1, |candidates|, cfg);
    hide RunMatching;
    assert After(candidates, i + 1, cfg) == TakeTurn(before, candidates[i], candidates, cfg);
    ExactCandidateDecides(candidates[i], Available(candidates, before.matched), c, cfg);
  }

  // A source without ties, up to the distance of an exact candidate that is
  // itself still free, does not pass its turn unmatched.
  lemma UntiedSourceIsMatched(candidates: seq<Candidate>, i: nat, c: Candidate, cfg: Config)
    requires cfg.window > 0 && i < |candidates| && c in candidates && ListedOnce(candidates)
    requires SameAmount(candidates[i])(c) && TimeDelta(candidates[i], c) <= cfg.primaryWindow
    requires UntiedUpTo(candidates[i], candidates, TimeDelta(candidates[i], c))
    ensures var final := After(candidates, |candidates|, cfg).matched;
      candidates[i].id in final || c.id in final
  {
    hide RunMatching, SameAmount, TimeDelta, Available, UntiedUpTo, ListedOnce;
    var before := After(candidates, i, cfg);
    MatchedGrows(candidates, i, |candidates|, cfg);
    MatchedGrows(candidates, i + 1, |candidates|, cfg);
    assert After(candidates, i + 1, cfg) == TakeTurn(before, candidates[i], candidates, cfg);
    if candidates[i].id !in before.matched && c.id !in before.matched {
      StaysUntied(candidates[i], candidates, before.matched, c);
      UntiedIsMatched(candidates[i], Available(candidates, before.matched), c, cfg);
    }
  }

  lemma StaysUntied(source: Candidate, candidates: seq<Candidate>, used: set<nat>, c: Candidate)
    requires ListedOnce(candidates) && UntiedUpTo(source, candidates, TimeDelta(source, c))
    requires c in candidates && c.id !in used
    ensures var available := Available(candidates, used);
      c in available && ListedOnce(available) && UntiedUpTo(source, available, TimeDelta(source, c))
  {
    hide Tie, Available, TimeDelta;
    AvailableIs(candidates, used);
  }

  // Maximality, exactly where ties allow it: of two listed transactions that
  // could form an exact pair, at least one is matched whenever one of the two
  // has no tie up to the distance between them.
  lemma UntiedPairIsTaken(candidates: seq<Candidate>, i: nat, j: nat, cfg: Config)
    requires cfg.window > 0 && i < |candidates| && j < |candidates| && ListedOnce(candidates)
    requires Eligible(candidates[i], candidates[j]) && Eligible(candidates[j], candidates[i])
    requires candidates[i].amount == candidates[j].amount
    requires TimeDelta(candidates[i], candidates[j]) <= cfg.primaryWindow
    requires || UntiedUpTo(candidates[i], candidates, TimeDelta(candidates[i], candidates[j]))
             || UntiedUpTo(candidates[j], candidates, TimeDelta(candidates[i], candidates[j]))
    ensures var final := After(candidates, |candidates|, cfg).matched;
      candidates[i].id in final || candidates[j].id in final
  {
    hide RunMatching, UntiedUpTo, Available, After;
    if UntiedUpTo(candidates[i], candidates, TimeDelta(candidates[i], candidates[j])) {
      UntiedSourceIsMatched(candidates, i, candidates[j], cfg);
    } else {
      UntiedSourceIsMatched(candidates, j, candidates[i], cfg);
    }
  }

  // No two transactions that could form an exact pair are both left over.
  ghost predicate Maximal(candidates: seq<Candidate>, cfg: Config)
    requires cfg.window > 0
  {
    var final := After(candidates, |candidates|, cfg).matched;
    forall i, j :: 0 <= i < |candidates| && 0 <= j < |candidates| && ExactPair(candidates[i], candidates[j], cfg) ==>
      candidates[i].id in final || candidates[j].id in final
  }

  predicate ExactPair(a: Candidate, b: Candidate, cfg: Config) {
    && Eligible(a, b) && Eligible(b, a) && a.amount == b.amount
    && TimeDelta(a, b) <= cfg.primaryWindow
  }

  // A list in which no source has two exact candidates at one distance inside
  // the primary window is matched maximally.
  lemma MaximalWithoutTies(candidates: seq<Candidate>, cfg: Config)
    requires cfg.window > 0 && ListedOnce(candidates)
    requires forall s :: s in candidates ==> UntiedUpTo(s, candidates, cfg.primaryWindow)
    ensures Maximal(candidates, cfg)
  {
    hide After, TimeDelta;
    forall i, j | 0 <= i < |candidates| && 0 <= j < |candidates| && ExactPair(candidates[i], candidates[j], cfg)
      ensures var final := After(candidates, |candidates|, cfg).matched;
        candidates[i].id in final || candidates[j].id in final
    {
      assert UntiedUpTo(candidates[i], candidates, cfg.primaryWindow);
      UntiedPairIsTaken(candidates, i, j, cfg);
    }
  }

  // ---- greedy matching is not maximal --------------------------------------------

  // Three credits of one PSP and three debits of another, all of one amount,
  // in initiation order. Ties that block the first credit and the second debit
  // disappear later, and the two stay unmatched although they fit each other.
  const MINUTES: seq<int> := [0, 100, 100, 105, 200, 201]

  predicate IsCredit(k: nat) { k == 0 || k == 3 || k == 4 }

  function Stranded(p: string, q: string): (s: seq<Candidate>)
    ensures |s| == 6
    ensures forall k: nat :: k < 6 ==>
              && s[k].id == k + 1 && s[k].amount == 100.0 && !s[k].alreadyMatched
              && s[k].initiatedAt == MINUTES[k] * 60_000_000
              && s[k].psp == (if IsCredit(k) then p else q)
              && s[k].txType == (if IsCredit(k) then Credit else Debit)
  {
    seq(6, k requires 0 <= k < 6 =>
      Candidate(k + 1, if IsCredit(k) then p else q, if IsCredit(k) then Credit else Debit, 100.0,
                MINUTES[k] * 60_000_000, {}, "", "", false))
  }

  // Who the i-th transaction can be paired with, and how far away it is.
  predicate Opposite(used: set<nat>, i: nat, k: nat) {
    k < 6 && k + 1 !in used && IsCredit(i) != IsCredit(k)
  }

  function Gap(i: nat, k: nat): nat
    requires i < 6 && k < 6
  {
    Abs(MINUTES[i] - MINUTES[k])
  }

  lemma AvailableIs(s: seq<Candidate>, used: set<nat>)
    ensures forall c :: multiset(Available(s, used))[c] == if c.id in used then 0 else multiset(s)[c]
    ensures forall c :: c in Available(s, used) <==> c in s && c.id !in used
  {
    forall c
      ensures multiset(Available(s, used))[c] == if c.id in used then 0 else multiset(s)[c]
    {
      FilterMultiset(s, Free(used), c);
    }
  }

  lemma StrandedFits(p: string, q: string, used: set<nat>, i: nat, k: nat)
    requires p != q && i < 6 && Opposite(used, i, k)
    ensures SameAmount(Stranded(p, q)[i])(Stranded(p, q)[k])
    ensures TimeDelta(Stranded(p, q)[i], Stranded(p, q)[k]) == Gap(i, k) * 60_000_000 <= DEFAULT_CONFIG.primaryWindow
    ensures multiset(Stranded(p, q))[Stranded(p, q)[k]] == 1
  {
    var s := Stranded(p, q);
    hide Stranded;
    OnceEach(s, k);
  }

  lemma StrandedFacts(p: string, q: string, used: set<nat>, i: nat)
    requires p != q && i < 6
    ensures var s := Stranded(p, q); var free := Available(s, used);
      && (forall c :: c in free && SameAmount(s[i])(c) ==> exists k: nat :: Opposite(used, i, k) && c == s[k])
      && (forall k: nat :: Opposite(used, i, k) ==>
            && s[k] in free && multiset(free)[s[k]] == 1 && SameAmount(s[i])(s[k])
            && TimeDelta(s[i], s[k]) == Gap(i, k) * 60_000_000 <= DEFAULT_CONFIG.primaryWindow)
  {
    var s := Stranded(p, q);
    AvailableIs(s, used);
    hide Stranded, Available;
    forall c | c in Available(s, used) && SameAmount(s[i])(c)
      ensures exists k: nat :: Opposite(used, i, k) && c == s[k]
    {
      var k: nat :| k < 6 && s[k] == c;
      assert Opposite(used, i, k);
    }
    hide Gap, SameAmount, TimeDelta;
    forall k: nat | Opposite(used, i, k)
      ensures s[k] in Available(s, used) && multiset(Available(s, used))[s[k]] == 1 && SameAmount(s[i])(s[k])
      ensures TimeDelta(s[i], s[k]) == Gap(i, k) * 60_000_000 <= DEFAULT_CONFIG.primaryWindow
    {
      StrandedFits(p, q, used, i, k);
    }
  }

  lemma {:induction false} OnceEach(s: seq<Candidate>, k: nat)
    requires k < |s| && forall i, j :: 0 <= i < j < |s| ==> s[i].id != s[j].id
    ensures multiset(s)[s[k]] == 1
  {
    assert s == s[..k] + [s[k]] + s[k + 1..];
    assert s[k] !in s[..k] && s[k] !in s[k + 1..];
  }

  lemma StrandedTie(p: string, q: string, used: set<nat>, i: nat, a: nat, b: nat)
    requires p != q && i < 6 && a != b && Opposite(used, i, a) && Opposite(used, i, b)
    requires Gap(i, a) == Gap(i, b) && forall k: nat :: Opposite(used, i, k) ==> Gap(i, a) <= Gap(i, k)
    ensures RunMatching(Stranded(p, q)[i], Available(Stranded(p, q), used), DEFAULT_CONFIG).matched == None
  {
    StrandedFacts(p, q, used, i);
    var s := Stranded(p, q);
    hide Stranded, Available, RunMatching, Gap, Opposite;
    NearestTie(s[i], Available(s, used), s[a], s[b], DEFAULT_CONFIG);
  }

  lemma StrandedPick(p: string, q: string, used: set<nat>, i: nat, a: nat)
    requires p != q && i < 6 && Opposite(used, i, a)
    requires forall k: nat :: k != a && Opposite(used, i, k) ==> Gap(i, a) < Gap(i, k)
    ensures RunMatching(Stranded(p, q)[i], Available(Stranded(p, q), used), DEFAULT_CONFIG).matched == Some(a + 1)
  {
    StrandedFacts(p, q, used, i);
    var s := Stranded(p, q);
    hide Available, RunMatching;
    assert s[a].id == a + 1;
    hide Stranded, Gap, Opposite;
    NearestWins(s[i], Available(s, used), s[a], DEFAULT_CONFIG);
  }

  // The turns of the example: 1 is refused (2 and 3 tie); 2 takes 4; 3 is
  // refused (1 and 5 tie); 4 is gone; 5 takes 6; 6 is gone. So 1 and 3 are
  // left over, although they are eligible for each other.
  lemma NotMaximal(p: string, q: string)
    requires p != q
    ensures After(Stranded(p, q), 6, DEFAULT_CONFIG).matched == {2, 4, 5, 6}
    ensures SameAmount(Stranded(p, q)[0])(Stranded(p, q)[2])
    ensures TimeDelta(Stranded(p, q)[0], Stranded(p, q)[2]) <= DEFAULT_CONFIG.primaryWindow
  {
    StrandedTurns01(p, q);
    StrandedTurns24(p, q);
    StrandedFits(p, q, {}, 0, 2);
    var s := Stranded(p, q);
    assert forall k: nat :: k < 6 ==> s[k].id == k + 1;
    hide Stranded, RunMatching, Available, After, SameAmount;
    NotMaximalTurns(s);
  }

  lemma StrandedTurns01(p: string, q: string)
    requires p != q
    ensures RunMatching(Stranded(p, q)[0], Available(Stranded(p, q), {}), DEFAULT_CONFIG).matched == None
    ensures RunMatching(Stranded(p, q)[1], Available(Stranded(p, q), {}), DEFAULT_CONFIG).matched == Some(4)
  {
    hide Stranded, RunMatching, Available;
    StrandedTie(p, q, {}, 0, 1, 2);
    StrandedPick(p, q, {}, 1, 3);
  }

  lemma StrandedTurns24(p: string, q: string)
    requires p != q
    ensures RunMatching(Stranded(p, q)[2], Available(Stranded(p, q), {2, 4}), DEFAULT_CONFIG).matched == None
    ensures RunMatching(Stranded(p, q)[4], Available(Stranded(p, q), {2, 4}), DEFAULT_CONFIG).matched == Some(6)
  {
    hide Stranded, RunMatching, Available;
    StrandedTie(p, q, {2, 4}, 2, 0, 4);
    StrandedPick(p, q, {2, 4}, 4, 5);
  }

  lemma NotMaximalTurns(s: seq<Candidate>)
    requires |s| == 6 && forall k: nat :: k < 6 ==> s[k].id == k + 1
    requires RunMatching(s[0], Available(s, {}), DEFAULT_CONFIG).matched == None
    requires RunMatching(s[1], Available(s, {}), DEFAULT_CONFIG).matched == Some(4)
    requires RunMatching(s[2], Available(s, {2, 4}), DEFAULT_CONFIG).matched == None
    requires RunMatching(s[4], Available(s, {2, 4}), DEFAULT_CONFIG).matched == Some(6)
    ensures After(s, 6, DEFAULT_CONFIG).matched == {2, 4, 5, 6}
  {
    hide Available, RunMatching;
    assert After(s, 0, DEFAULT_CONFIG) == Progress({}, []);
    forall i: nat | i < 6
      ensures After(s, i + 1, DEFAULT_CONFIG) == TakeTurn(After(s, i, DEFAULT_CONFIG), s[i], s, DEFAULT_CONFIG)
    {
    }
    hide After;
    assert After(s, 1, DEFAULT_CONFIG) == Progress({}, []);
    assert After(s, 2, DEFAULT_CONFIG).matched == {2, 4};
    assert After(s, 3, DEFAULT_CONFIG).matched == {2, 4};
    assert After(s, 4, DEFAULT_CONFIG).matched == {2, 4};
    assert After(s, 5, DEFAULT_CONFIG).matched == {2, 4, 5, 6};
  }
}
