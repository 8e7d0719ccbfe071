// `persist_pairs` under concurrency: matching runs with stale candidate lists
// write pairs in savepoints of their own transactions, against one index of
// matched transactions whose primary key is the only arbiter.
module Persistence {
  import opened Common
  import opened Keys
  import opened Matching
  import D = Discrepancy

  // One result to persist, with what the code looks up about its two sides.
  datatype Item = Item(
    a: nat, b: nat, amountA: real, amountB: real, rateA: Option<real>, rateB: Option<real>,
    delta: real, withinFx: bool)

  datatype PairStatus = Matched | Discrepant
  datatype PairRow = PairRow(item: Item, status: PairStatus)

  // A discrepancy is unique per transaction and class; its row points at a
  // pair, or at none when it was raised for a missing settlement.
  datatype DiscKey = DiscKey(tx: nat, class_: D.Class)

  datatype Db = Db(pairs: map<nat, PairRow>, index: map<nat, nat>, discs: map<DiscKey, Option<nat>>)

  const EMPTY := Db(map[], map[], map[])

  function Merge(c: Db, d: Db): Db { Db(c.pairs + d.pairs, c.index + d.index, c.discs + d.discs) }

  // ---- one savepoint, statement by statement ---------------------------------

  datatype Stage = BetweenPairs | PairInserted | FirstIndexed | BothIndexed

  // A run's transaction: what it still has to write, its uncommitted rows,
  // and inside a savepoint the rows to fall back to.
  datatype Txn = Txn(todo: seq<Item>, own: Db, stage: Stage, pairId: nat, saved: Db, written: nat, raised: nat)

  function RollbackSavepoint(t: Txn): Txn
    requires t.todo != []
  {
    t.(todo := t.todo[1..], own := t.saved, stage := BetweenPairs)
  }

  predicate SamePair(p: PairRow, i: Item) { p.item.a == i.a && p.item.b == i.b }

  predicate HasPair(db: Db, i: Item) { exists p :: p in db.pairs && SamePair(db.pairs[p], i) }

  function InsertPair(c: Db, t: Txn, pairId: nat): Txn
    requires t.todo != []
  {
    var i := t.todo[0];
    if HasPair(c, i) || HasPair(t.own, i) then t.(todo := t.todo[1..])
    else t.(own := t.own.(pairs := t.own.pairs[pairId := PairRow(i, Matched)]),
            stage := PairInserted, pairId := pairId, saved := t.own)
  }

  function IndexTx(c: Db, t: Txn, tx: nat, next: Stage): Txn
    requires t.todo != []
  {
    if tx in c.index || tx in t.own.index then RollbackSavepoint(t)
    else t.(own := t.own.(index := t.own.index[tx := t.pairId]), stage := next)
  }

  function VerdictOf(i: Item): Option<D.Verdict> {
    if i.delta > 0.0 then D.ClassifyAmount(i.amountA, i.amountB, i.rateA, i.rateB) else None
  }

  function RaiseAndRelease(c: Db, t: Txn): Txn
    requires t.todo != [] && t.pairId in t.own.pairs
  {
    var i := t.todo[0];
    var t1 := t.(todo := t.todo[1..], stage := BetweenPairs, written := t.written + 1);
    match VerdictOf(i)
    case None => t1
    case Some(v) =>
      var key := DiscKey(i.a, v.class_);
      if key in c.discs || key in t.own.discs then t1
      else t1.(raised := t.raised + 1,
               own := t.own.(discs := t.own.discs[key := Some(t.pairId)],
                             pairs := t.own.pairs[t.pairId := t.own.pairs[t.pairId].(status := Discrepant)]))
  }

  // ---- any number of runs -----------------------------------------------------

  datatype State = State(committed: Db, runs: map<nat, Txn>)

  datatype Step =
    | StartRun(run: nat, items: seq<Item>)
    | NextPair(run: nat, pairId: nat)
    | IndexFirst(run: nat)
    | IndexSecond(run: nat)
    | Release(run: nat)
    | CommitRun(run: nat)
    | AbortRun(run: nat)
    | MissingRow(tx: nat)      // the missing-settlement statement of any run

  // A row inserted by another open transaction blocks the insert.
  predicate IndexLocked(s: State, run: nat, tx: nat) {
    exists r :: r in s.runs && r != run && tx in s.runs[r].own.index
  }

  predicate PairLocked(s: State, run: nat, i: Item) {
    exists r :: r in s.runs && r != run && HasPair(s.runs[r].own, i)
  }

  predicate DiscLocked(s: State, run: nat, i: Item) {
    VerdictOf(i).Some? &&
    exists r :: r in s.runs && r != run && DiscKey(i.a, VerdictOf(i).value.class_) in s.runs[r].own.discs
  }

  // Pair ids are generated fresh.
  predicate FreshPair(s: State, id: nat) {
    id !in s.committed.pairs && forall r :: r in s.runs ==> id !in s.runs[r].own.pairs && id !in s.runs[r].saved.pairs
  }

  function With(s: State, run: nat, t: Txn): State { s.(runs := s.runs[run := t]) }

  predicate Busy(s: State, run: nat, stage: Stage) {
    run in s.runs && s.runs[run].todo != [] && s.runs[run].stage == stage
  }

  function Next(s: State, step: Step): State {
    match step
    case StartRun(r, items) =>
      if r in s.runs then s else With(s, r, Txn(items, EMPTY, BetweenPairs, 0, EMPTY, 0, 0))
    case NextPair(r, id) =>
      if Busy(s, r, BetweenPairs) && FreshPair(s, id) && !PairLocked(s, r, s.runs[r].todo[0]) then
        With(s, r, InsertPair(s.committed, s.runs[r], id))
      else s
    case IndexFirst(r) =>
      if Busy(s, r, PairInserted) && !IndexLocked(s, r, s.runs[r].todo[0].a) then
        With(s, r, IndexTx(s.committed, s.runs[r], s.runs[r].todo[0].a, FirstIndexed))
      else s
    case IndexSecond(r) =>
      if Busy(s, r, FirstIndexed) && !IndexLocked(s, r, s.runs[r].todo[0].b) then
        With(s, r, IndexTx(s.committed, s.runs[r], s.runs[r].todo[0].b, BothIndexed))
      else s
    case Release(r) =>
      if Busy(s, r, BothIndexed) && s.runs[r].pairId in s.runs[r].own.pairs && !DiscLocked(s, r, s.runs[r].todo[0]) then
        With(s, r, RaiseAndRelease(s.committed, s.runs[r]))
      else s
    case CommitRun(r) =>
      if r in s.runs && s.runs[r].todo == [] && s.runs[r].stage == BetweenPairs then
        State(Merge(s.committed, s.runs[r].own), s.runs - {r})
      else s
    case AbortRun(r) => s.(runs := s.runs - {r})
    case MissingRow(tx) =>
      var key := DiscKey(tx, D.MissingSettlement);
      if key in s.committed.discs then s
      else s.(committed := s.committed.(discs := s.committed.discs[key := None]))
  }

  // What `match_all` hands over: two different transactions of positive
  // amounts, their exact delta, and the FX flag of the configured threshold.
  predicate Proper(i: Item, fxThreshold: real) {
    && i.a != i.b && i.amountA > 0.0 && i.amountB > 0.0
    && i.delta == AbsReal(i.amountA - i.amountB)
    && (i.withinFx <==> i.delta / i.amountA <= fxThreshold)
  }

  predicate ProperStep(step: Step, fxThreshold: real) {
    step.StartRun? ==> forall i :: i in step.items ==> Proper(i, fxThreshold)
  }

  function Run(steps: seq<Step>): State {
    if steps == [] then State(EMPTY, map[]) else Next(Run(steps[..|steps| - 1]), steps[|steps| - 1])
  }

  // ---- the invariant -------------------------------------------------------------

  function Needed(p: PairRow): PairStatus { if VerdictOf(p.item).Some? then Discrepant else Matched }

  // Pairs and index describe each other, and statuses and discrepancy rows
  // agree, except for the pair `open` whose savepoint is still in progress.
  ghost predicate Coherent(db: Db, fx: real, open: Option<nat>, indexedA: bool, indexedB: bool) {
    && (forall p :: p in db.pairs ==> PairCoherent(db, p, fx, open, indexedA, indexedB))
    && (forall t :: t in db.index ==> OwnsTx(db, db.index[t], t))
    && (forall k :: k in db.discs ==> DiscCoherent(db, k))
  }

  predicate OwnsTx(db: Db, p: nat, tx: nat) {
    p in db.pairs && (tx == db.pairs[p].item.a || tx == db.pairs[p].item.b)
  }

  ghost predicate PairCoherent(db: Db, p: nat, fx: real, open: Option<nat>, indexedA: bool, indexedB: bool)
    requires p in db.pairs
  {
    var row := db.pairs[p];
    && Proper(row.item, fx)
    && (open != Some(p) || indexedA ==> row.item.a in db.index && db.index[row.item.a] == p)
    && (open != Some(p) || indexedB ==> row.item.b in db.index && db.index[row.item.b] == p)
    && (if open == Some(p) then row.status == Matched else row.status == Needed(row))
    && (row.status == Discrepant ==> Points(db, p))
  }

  ghost predicate Points(db: Db, p: nat) {
    exists k :: k in db.discs && db.discs[k] == Some(p)
  }

  ghost predicate DiscCoherent(db: Db, k: DiscKey)
    requires k in db.discs
  {
    if k.class_ == D.MissingSettlement then db.discs[k] == None
    else
      && db.discs[k].Some? && db.discs[k].value in db.pairs
      && db.pairs[db.discs[k].value].item.a == k.tx && db.pairs[db.discs[k].value].status == Discrepant
      && ClassOf(db.pairs[db.discs[k].value].item) == Some(k.class_)
  }

  function ClassOf(i: Item): Option<D.Class> {
    if VerdictOf(i).Some? then Some(VerdictOf(i).value.class_) else None
  }

  ghost predicate TxnInv(t: Txn, fx: real) {
    && (forall i :: i in t.todo ==> Proper(i, fx))
    && (forall k :: k in t.own.discs ==> k.class_ != D.MissingSettlement)
    && (t.stage == BetweenPairs ==> Coherent(t.own, fx, None, false, false))
    && (t.stage != BetweenPairs ==>
          && t.todo != [] && t.pairId in t.own.pairs && t.own.pairs[t.pairId].item == t.todo[0]
          && Coherent(t.own, fx, Some(t.pairId), t.stage != PairInserted, t.stage == BothIndexed)
          && Coherent(t.saved, fx, None, false, false) && Below(t.saved, t.own)
          && t.pairId !in t.saved.pairs)
  }

  ghost predicate Below(c: Db, d: Db) {
    c.pairs.Keys <= d.pairs.Keys && c.index.Keys <= d.index.Keys && c.discs.Keys <= d.discs.Keys
  }

  // No row of one transaction clashes with a committed row or with another
  // transaction's.
  ghost predicate Apart(c: Db, d: Db) {
    c.pairs.Keys !! d.pairs.Keys && c.index.Keys !! d.index.Keys && c.discs.Keys !! d.discs.Keys
  }

  ghost predicate Inv(s: State, fx: real) {
    && Coherent(s.committed, fx, None, false, false)
    && (forall r :: r in s.runs ==> TxnInv(s.runs[r], fx) && Apart(s.committed, s.runs[r].own))
    && (forall q, r :: q in s.runs && r in s.runs && q != r ==> Apart(s.runs[q].own, s.runs[r].own))
  }

  // ---- each statement keeps it ------------------------------------------------------

  ghost predicate TxnOk(c: Db, t: Txn, fx: real) {
    Coherent(c, fx, None, false, false) && TxnInv(t, fx) && Apart(c, t.own)
  }

  lemma VerdictClass(i: Item, fx: real)
    requires Proper(i, fx) && VerdictOf(i).Some?
    ensures VerdictOf(i).value.class_ != D.MissingSettlement
  {
    D.AmountVerdicts(i.amountA, i.amountB, i.rateA, i.rateB);
  }

  lemma InsertCoherent(db: Db, id: nat, i: Item, fx: real)
    requires Coherent(db, fx, None, false, false) && id !in db.pairs && Proper(i, fx)
    ensures Coherent(db.(pairs := db.pairs[id := PairRow(i, Matched)]), fx, Some(id), false, false)
  {
    hide VerdictOf;
    var d := db.(pairs := db.pairs[id := PairRow(i, Matched)]);
    forall p | p in d.pairs ensures PairCoherent(d, p, fx, Some(id), false, false) {
      if p != id {
        assert PairCoherent(db, p, fx, None, false, false);
        KeepsPointing(db, d, p);
      }
    }
    forall k | k in d.discs ensures DiscCoherent(d, k) {
      assert DiscCoherent(db, k);
    }
  }

  lemma InsertPairKeeps(c: Db, t: Txn, id: nat, fx: real)
    requires TxnOk(c, t, fx) && t.todo != [] && t.stage == BetweenPairs
    requires id !in c.pairs && id !in t.own.pairs
    ensures var t' := InsertPair(c, t, id);
      && TxnOk(c, t', fx)
      && t'.own.pairs.Keys <= t.own.pairs.Keys + {id} && t'.own.index == t.own.index && t'.own.discs == t.own.discs
  {
    hide VerdictOf, HasPair, Coherent, Proper;
    InsertCoherent(t.own, id, t.todo[0], fx);
  }

  lemma KeepsPointing(d: Db, d': Db, p: nat)
    requires forall k :: k in d.discs ==> k in d'.discs && d'.discs[k] == d.discs[k]
    ensures Points(d, p) ==> Points(d', p)
  {
  }

  lemma RollbackKeeps(c: Db, t: Txn, fx: real)
    requires TxnOk(c, t, fx) && t.todo != [] && t.stage != BetweenPairs
    ensures TxnOk(c, RollbackSavepoint(t), fx) && Below(RollbackSavepoint(t).own, t.own)
  {
    hide Coherent;
  }

  lemma IndexCoherent(db: Db, p: nat, tx: nat, fx: real, first: bool)
    requires p in db.pairs && Coherent(db, fx, Some(p), !first, false) && tx !in db.index
    requires tx == if first then db.pairs[p].item.a else db.pairs[p].item.b
    ensures Coherent(db.(index := db.index[tx := p]), fx, Some(p), true, !first)
  {
    hide VerdictOf;
    var d := db.(index := db.index[tx := p]);
    forall q | q in d.pairs
      ensures PairCoherent(d, q, fx, Some(p), true, !first)
    {
      assert PairCoherent(db, q, fx, Some(p), !first, false);
      KeepsPointing(db, d, q);
    }
    forall k | k in d.discs ensures DiscCoherent(d, k) {
      assert DiscCoherent(db, k);
    }
    forall t | t in d.index ensures OwnsTx(d, d.index[t], t) {
      if t != tx { assert OwnsTx(db, db.index[t], t); }
    }
  }

  function TxOf(i: Item, first: bool): nat { if first then i.a else i.b }
  function StageOf(first: bool): Stage { if first then PairInserted else FirstIndexed }
  function StageAfter(first: bool): Stage { if first then FirstIndexed else BothIndexed }

  lemma IndexKeeps(c: Db, t: Txn, fx: real, first: bool)
    requires TxnOk(c, t, fx) && t.todo != [] && t.stage == StageOf(first)
    ensures var tx := TxOf(t.todo[0], first);
      var t' := IndexTx(c, t, tx, StageAfter(first));
      && TxnOk(c, t', fx)
      && t'.own.pairs.Keys <= t.own.pairs.Keys && t'.own.index.Keys <= t.own.index.Keys + {tx}
      && t'.own.discs.Keys <= t.own.discs.Keys
  {
    hide Coherent, VerdictOf, Proper;
    var tx := TxOf(t.todo[0], first);
    if tx in c.index || tx in t.own.index {
      RollbackKeeps(c, t, fx);
    } else {
      IndexCoherent(t.own, t.pairId, tx, fx, first);
    }
  }

  // A discrepancy row of an amount class implies that its transaction is
  // indexed, under the very pair the row points at.
  lemma AmountDiscIndexed(db: Db, k: DiscKey, fx: real, open: Option<nat>, ia: bool, ib: bool)
    requires Coherent(db, fx, open, ia, ib) && k in db.discs && k.class_ != D.MissingSettlement
    ensures k.tx in db.index && db.discs[k] == Some(db.index[k.tx]) && open != db.discs[k]
  {
    assert DiscCoherent(db, k);
    assert PairCoherent(db, db.discs[k].value, fx, open, ia, ib);
  }

  lemma NoSuchDiscrepancy(c: Db, t: Txn, fx: real)
    requires TxnOk(c, t, fx) && t.todo != [] && t.stage == BothIndexed && VerdictOf(t.todo[0]).Some?
    ensures var key := DiscKey(t.todo[0].a, VerdictOf(t.todo[0]).value.class_);
      key !in c.discs && key !in t.own.discs && key.class_ != D.MissingSettlement
    ensures t.todo[0].a in t.own.index
  {
    var i := t.todo[0];
    assert PairCoherent(t.own, t.pairId, fx, Some(t.pairId), true, true);
    VerdictClass(i, fx);
    var key := DiscKey(i.a, VerdictOf(i).value.class_);
    hide VerdictOf;
    if key in c.discs { AmountDiscIndexed(c, key, fx, None, false, false); }
    if key in t.own.discs { AmountDiscIndexed(t.own, key, fx, Some(t.pairId), true, true); }
  }

  lemma RaiseKeeps(c: Db, t: Txn, fx: real)
    requires TxnOk(c, t, fx) && t.todo != [] && t.stage == BothIndexed
    ensures var t' := RaiseAndRelease(c, t);
      && TxnOk(c, t', fx)
      && t'.own.pairs.Keys == t.own.pairs.Keys && t'.own.index == t.own.index
      && t'.own.discs.Keys <= t.own.discs.Keys
           + (if VerdictOf(t.todo[0]).Some? then {DiscKey(t.todo[0].a, VerdictOf(t.todo[0]).value.class_)} else {})
  {
    hide VerdictOf, Coherent, Proper;
    var i := t.todo[0];
    var t' := RaiseAndRelease(c, t);
    if VerdictOf(i).Some? {
      NoSuchDiscrepancy(c, t, fx);
      assert t'.own.discs[DiscKey(i.a, VerdictOf(i).value.class_)] == Some(t.pairId);
    } else {
      SameWhenMatched(t, fx);
    }
    ReleaseCoherent(t, t', fx);
  }

  lemma SameWhenMatched(t: Txn, fx: real)
    requires TxnInv(t, fx) && t.todo != [] && t.stage == BothIndexed
    ensures t.own.pairs == t.own.pairs[t.pairId := PairRow(t.own.pairs[t.pairId].item, Matched)]
  {
    assert PairCoherent(t.own, t.pairId, fx, Some(t.pairId), true, true);
  }

  lemma ReleaseCoherent(t: Txn, t': Txn, fx: real)
    requires t.pairId in t.own.pairs && Coherent(t.own, fx, Some(t.pairId), true, true)
    requires t'.own.index == t.own.index
    requires t'.own.pairs == t.own.pairs[t.pairId := PairRow(t.own.pairs[t.pairId].item, Needed(t.own.pairs[t.pairId]))]
    requires forall k :: k in t.own.discs ==> k in t'.own.discs && t'.own.discs[k] == t.own.discs[k]
    requires forall k :: k in t'.own.discs && k !in t.own.discs ==>
      && k.class_ != D.MissingSettlement && t'.own.discs[k] == Some(t.pairId)
      && k.tx == t.own.pairs[t.pairId].item.a && Needed(t.own.pairs[t.pairId]) == Discrepant
      && ClassOf(t.own.pairs[t.pairId].item) == Some(k.class_)
    requires Needed(t.own.pairs[t.pairId]) == Discrepant ==> Points(t'.own, t.pairId)
    ensures Coherent(t'.own, fx, None, false, false)
  {
    hide VerdictOf;
    forall p | p in t'.own.pairs ensures PairCoherent(t'.own, p, fx, None, false, false) {
      assert PairCoherent(t.own, p, fx, Some(t.pairId), true, true);
      KeepsPointing(t.own, t'.own, p);
    }
    forall k | k in t'.own.discs ensures DiscCoherent(t'.own, k) {
      if k in t.own.discs { assert DiscCoherent(t.own, k); }
    }
  }

  lemma MergeCoherent(c: Db, d: Db, fx: real)
    requires Coherent(c, fx, None, false, false) && Coherent(d, fx, None, false, false) && Apart(c, d)
    ensures Coherent(Merge(c, d), fx, None, false, false)
  {
    hide Proper, Needed, PairCoherent, DiscCoherent, Apart;
    var m := Merge(c, d);
    forall p | p in m.pairs ensures PairCoherent(m, p, fx, None, false, false) {
      ApartStays(c, d);
      if p in d.pairs {
        PairStays(d, m, p, fx);
      } else {
        PairStays(c, m, p, fx);
      }
    }
    forall k | k in m.discs ensures DiscCoherent(m, k) {
      ApartStays(c, d);
      if k in d.discs { DiscStays(d, m, k); } else { DiscStays(c, m, k); }
    }
    forall t | t in m.index ensures OwnsTx(m, m.index[t], t) {
      ApartStays(c, d);
      if t in d.index { assert OwnsTx(d, d.index[t], t); } else { assert OwnsTx(c, c.index[t], t); }
    }
  }

  // Every row of `d` is in `m`, unchanged.
  ghost predicate Within(d: Db, m: Db) {
    && (forall p :: p in d.pairs ==> p in m.pairs && m.pairs[p] == d.pairs[p])
    && (forall t :: t in d.index ==> t in m.index && m.index[t] == d.index[t])
    && (forall k :: k in d.discs ==> k in m.discs && m.discs[k] == d.discs[k])
  }

  lemma ApartStays(c: Db, d: Db)
    requires Apart(c, d)
    ensures Within(c, Merge(c, d)) && Within(d, Merge(c, d))
  {
    forall t | t in c.index ensures t !in d.index { assert t in c.index.Keys; }
  }

  lemma PairStays(d: Db, m: Db, p: nat, fx: real)
    requires Within(d, m) && p in d.pairs && PairCoherent(d, p, fx, None, false, false)
    ensures PairCoherent(m, p, fx, None, false, false)
  {
    hide Proper, Needed;
    KeepsPointing(d, m, p);
  }

  lemma DiscStays(d: Db, m: Db, k: DiscKey)
    requires Within(d, m) && k in d.discs && DiscCoherent(d, k)
    ensures DiscCoherent(m, k)
  {
  }

  // ---- every reachable state ---------------------------------------------------------

  lemma WithKeeps(s: State, r: nat, t: Txn, fx: real)
    requires Inv(s, fx) && TxnOk(s.committed, t, fx)
    requires forall q :: q in s.runs && q != r ==> Apart(s.runs[q].own, t.own)
    ensures Inv(With(s, r, t), fx)
  {
    hide Coherent, TxnInv;
  }

  lemma NextPairKeeps(s: State, r: nat, id: nat, fx: real)
    requires Inv(s, fx) && Busy(s, r, BetweenPairs) && FreshPair(s, id)
    ensures Inv(With(s, r, InsertPair(s.committed, s.runs[r], id)), fx)
  {
    hide Coherent, TxnInv, InsertPair;
    assert s.runs[r].stage == BetweenPairs;
    InsertPairKeeps(s.committed, s.runs[r], id, fx);
    WithKeeps(s, r, InsertPair(s.committed, s.runs[r], id), fx);
  }

  lemma IndexTxKeeps(s: State, r: nat, first: bool, fx: real)
    requires Inv(s, fx) && Busy(s, r, StageOf(first)) && !IndexLocked(s, r, TxOf(s.runs[r].todo[0], first))
    ensures Inv(With(s, r, IndexTx(s.committed, s.runs[r], TxOf(s.runs[r].todo[0], first), StageAfter(first))), fx)
  {
    hide Coherent, TxnInv, IndexTx;
    var tx := TxOf(s.runs[r].todo[0], first);
    IndexKeeps(s.committed, s.runs[r], fx, first);
    assert forall q :: q in s.runs && q != r ==> tx !in s.runs[q].own.index;
    WithKeeps(s, r, IndexTx(s.committed, s.runs[r], tx, StageAfter(first)), fx);
  }

  lemma AmountDiscIndexedTxn(t: Txn, k: DiscKey, fx: real)
    requires TxnInv(t, fx) && k in t.own.discs && k.class_ != D.MissingSettlement
    ensures k.tx in t.own.index
  {
    hide Coherent, PairCoherent;
    if t.stage == BetweenPairs {
      AmountDiscIndexed(t.own, k, fx, None, false, false);
    } else {
      AmountDiscIndexed(t.own, k, fx, Some(t.pairId), t.stage != PairInserted, t.stage == BothIndexed);
    }
  }

  lemma ReleaseKeeps(s: State, r: nat, fx: real)
    requires Inv(s, fx) && Busy(s, r, BothIndexed) && s.runs[r].pairId in s.runs[r].own.pairs
    ensures Inv(With(s, r, RaiseAndRelease(s.committed, s.runs[r])), fx)
  {
    hide Coherent, TxnInv, RaiseAndRelease, VerdictOf;
    var t := s.runs[r];
    RaiseKeeps(s.committed, t, fx);
    if VerdictOf(t.todo[0]).Some? {
      NoSuchDiscrepancy(s.committed, t, fx);
      var key := DiscKey(t.todo[0].a, VerdictOf(t.todo[0]).value.class_);
      forall q | q in s.runs && q != r
        ensures key !in s.runs[q].own.discs
      {
        if key in s.runs[q].own.discs { AmountDiscIndexedTxn(s.runs[q], key, fx); }
      }
    }
    WithKeeps(s, r, RaiseAndRelease(s.committed, t), fx);
  }

  lemma CommitKeeps(s: State, r: nat, fx: real)
    requires Inv(s, fx) && r in s.runs && s.runs[r].todo == [] && s.runs[r].stage == BetweenPairs
    ensures Inv(State(Merge(s.committed, s.runs[r].own), s.runs - {r}), fx)
  {
    hide Coherent;
    MergeCoherent(s.committed, s.runs[r].own, fx);
  }

  lemma EmptyCoherent(fx: real)
    ensures Coherent(EMPTY, fx, None, false, false)
  {
  }

  lemma MissingRowKeeps(s: State, tx: nat, fx: real)
    requires Inv(s, fx)
    ensures Inv(Next(s, MissingRow(tx)), fx)
  {
    hide Proper, Needed, PairCoherent, TxnInv;
    var s' := Next(s, MissingRow(tx));
    var (d, d', key) := (s.committed, s'.committed, DiscKey(tx, D.MissingSettlement));
    assert Within(d, d');
    forall p | p in d'.pairs ensures PairCoherent(d', p, fx, None, false, false) {
      PairStays(d, d', p, fx);
    }
    forall k | k in d'.discs ensures DiscCoherent(d', k) {
      if k in d.discs { DiscStays(d, d', k); }
    }
    forall r | r in s.runs ensures key !in s.runs[r].own.discs {
      NoMissingRows(s.runs[r], key, fx);
    }
  }

  // Runs only write discrepancies of the amount classes.
  lemma NoMissingRows(t: Txn, k: DiscKey, fx: real)
    requires TxnInv(t, fx) && k.class_ == D.MissingSettlement
    ensures k !in t.own.discs
  {
  }

  lemma NextKeeps(s: State, step: Step, fx: real)
    requires Inv(s, fx) && ProperStep(step, fx)
    ensures Inv(Next(s, step), fx)
  {
    hide Coherent, TxnInv, InsertPair, IndexTx, RaiseAndRelease, VerdictOf;
    match step {
      case StartRun(r, items) =>
        if r !in s.runs {
          EmptyCoherent(fx);
          FreshTxn(items, fx);
          WithKeeps(s, r, Txn(items, EMPTY, BetweenPairs, 0, EMPTY, 0, 0), fx);
        }
      case NextPair(r, id) => if Busy(s, r, BetweenPairs) && FreshPair(s, id) { NextPairKeeps(s, r, id, fx); }
      case IndexFirst(r) =>
        if Busy(s, r, PairInserted) && !IndexLocked(s, r, s.runs[r].todo[0].a) { IndexTxKeeps(s, r, true, fx); }
      case IndexSecond(r) =>
        if Busy(s, r, FirstIndexed) && !IndexLocked(s, r, s.runs[r].todo[0].b) { IndexTxKeeps(s, r, false, fx); }
      case Release(r) =>
        if Busy(s, r, BothIndexed) && s.runs[r].pairId in s.runs[r].own.pairs { ReleaseKeeps(s, r, fx); }
      case CommitRun(r) =>
        if r in s.runs && s.runs[r].todo == [] && s.runs[r].stage == BetweenPairs { CommitKeeps(s, r, fx); }
      case AbortRun(r) =>
      case MissingRow(tx) => MissingRowKeeps(s, tx, fx);
    }
  }

  lemma FreshTxn(items: seq<Item>, fx: real)
    requires forall i :: i in items ==> Proper(i, fx)
    ensures TxnInv(Txn(items, EMPTY, BetweenPairs, 0, EMPTY, 0, 0), fx)
  {
    EmptyCoherent(fx);
  }

  lemma {:induction false} AlwaysInv(steps: seq<Step>, fx: real)
    requires forall i :: 0 <= i < |steps| ==> ProperStep(steps[i], fx)
    ensures Inv(Run(steps), fx)
  {
    if steps == [] {
      EmptyCoherent(fx);
    } else {
      AlwaysInv(steps[..|steps| - 1], fx);
      NextKeeps(Run(steps[..|steps| - 1]), steps[|steps| - 1], fx);
    }
  }

  // ---- main result ----------------------------------------------------------------------

  // Pairs and index agree exactly.
  ghost predicate Agreement(db: Db) {
    && (forall p :: p in db.pairs ==>
          && db.pairs[p].item.a != db.pairs[p].item.b
          && db.pairs[p].item.a in db.index && db.index[db.pairs[p].item.a] == p
          && db.pairs[p].item.b in db.index && db.index[db.pairs[p].item.b] == p)
    && (forall t :: t in db.index ==> OwnsTx(db, db.index[t], t))
  }

  // However many matching runs interleave, with whatever stale lists, rolled
  // back savepoints and aborted transactions: in the committed tables every
  // pair owns exactly its two index entries and no transaction is in two
  // pairs, the index has two entries per pair, and a pair is marked as a
  // discrepancy exactly when a discrepancy row points at it.
  lemma OneToOneAlways(steps: seq<Step>, fx: real)
    requires forall i :: 0 <= i < |steps| ==> ProperStep(steps[i], fx)
    ensures var db := Run(steps).committed;
      && Agreement(db)
      && |db.index| == 2 * |db.pairs|
      && (forall p, q :: p in db.pairs && q in db.pairs && p != q ==>
            {db.pairs[p].item.a, db.pairs[p].item.b} !! {db.pairs[q].item.a, db.pairs[q].item.b})
      && (forall p :: p in db.pairs ==> (db.pairs[p].status == Discrepant <==> Points(db, p)))
  {
    hide Run, Coherent, TxnInv, ProperStep, Points, OwnsTx;
    AlwaysInv(steps, fx);
    var db := Run(steps).committed;
    CoherentAgrees(db, fx);
    NoTxTwice(db);
    IndexSize(db, db.pairs.Keys);
  }

  lemma NoTxTwice(db: Db)
    requires Agreement(db)
    ensures forall p, q :: p in db.pairs && q in db.pairs && p != q ==>
              {db.pairs[p].item.a, db.pairs[p].item.b} !! {db.pairs[q].item.a, db.pairs[q].item.b}
  {
  }

  lemma CoherentAgrees(db: Db, fx: real)
    requires Coherent(db, fx, None, false, false)
    ensures Agreement(db)
    ensures forall p :: p in db.pairs ==> (db.pairs[p].status == Discrepant <==> Points(db, p))
    ensures forall p :: p in db.pairs ==> db.pairs[p].status == Needed(db.pairs[p]) && Proper(db.pairs[p].item, fx)
  {
    hide VerdictOf;
    forall p | p in db.pairs
      ensures db.pairs[p].item.a in db.index && db.index[db.pairs[p].item.a] == p
      ensures db.pairs[p].item.b in db.index && db.index[db.pairs[p].item.b] == p
      ensures db.pairs[p].status == Discrepant <==> Points(db, p)
    {
      assert PairCoherent(db, p, fx, None, false, false);
      if Points(db, p) {
        var k :| k in db.discs && db.discs[k] == Some(p);
        assert DiscCoherent(db, k);
      }
    }
  }

  // The transactions of a set of pairs.
  ghost function TxsOf(db: Db, ps: set<nat>): set<nat> {
    set t | t in db.index && db.index[t] in ps
  }

  lemma {:induction false} TxCount(db: Db, ps: set<nat>)
    requires Agreement(db) && ps <= db.pairs.Keys
    ensures |TxsOf(db, ps)| == 2 * |ps|
    decreases |ps|
  {
    if ps == {} {
      assert TxsOf(db, ps) == {};
    } else {
      var p :| p in ps;
      TxCount(db, ps - {p});
      var i := db.pairs[p].item;
      assert TxsOf(db, ps) == TxsOf(db, ps - {p}) + {i.a, i.b};
      assert TxsOf(db, ps - {p}) !! {i.a, i.b};
      assert |{i.a, i.b}| == 2;
    }
  }

  lemma IndexSize(db: Db, ps: set<nat>)
    requires Agreement(db) && ps == db.pairs.Keys
    ensures |db.index| == 2 * |db.pairs|
  {
    TxCount(db, ps);
    assert TxsOf(db, ps) == db.index.Keys;
  }

  // With the default threshold of 0.5%, the discrepancies are exactly the
  // pairs that matching flagged as outside it.
  lemma DiscrepantIffOutsideThreshold(steps: seq<Step>)
    requires forall i :: 0 <= i < |steps| ==> ProperStep(steps[i], D.AMOUNT_THRESHOLD_PCT)
    ensures var db := Run(steps).committed;
      forall p :: p in db.pairs ==> (db.pairs[p].status == Discrepant <==> !db.pairs[p].item.withinFx)
  {
    hide Run, Coherent, Proper, VerdictOf;
    AlwaysInv(steps, D.AMOUNT_THRESHOLD_PCT);
    var db := Run(steps).committed;
    CoherentAgrees(db, D.AMOUNT_THRESHOLD_PCT);
    forall p | p in db.pairs
      ensures db.pairs[p].status == Discrepant <==> !db.pairs[p].item.withinFx
    {
      NeededIff(db.pairs[p], D.AMOUNT_THRESHOLD_PCT);
    }
  }

  // In every run a discrepancy of an amount class points at a committed pair
  // of its own transaction, and is classified by that pair's amounts and
  // rates: FX variance exactly when the rates explain the delta, otherwise an
  // amount mismatch.
  lemma DiscrepanciesAreClassified(steps: seq<Step>, fx: real, k: DiscKey)
    requires forall i :: 0 <= i < |steps| ==> ProperStep(steps[i], fx)
    requires k in Run(steps).committed.discs && k.class_ != D.MissingSettlement
    ensures var db := Run(steps).committed;
      && db.discs[k].Some? && db.discs[k].value in db.pairs
      && var i := db.pairs[db.discs[k].value].item;
         && i.a == k.tx && i.amountA > 0.0
         && k.class_ == if D.FxExplains(i.amountA, i.amountB, i.rateA, i.rateB) then D.FxVariance else D.AmountMismatch
  {
    AlwaysInv(steps, fx);
    hide Run;
    var db := Run(steps).committed;
    assert DiscCoherent(db, k);
    assert PairCoherent(db, db.discs[k].value, fx, None, false, false);
    var i := db.pairs[db.discs[k].value].item;
    D.AmountVerdicts(i.amountA, i.amountB, i.rateA, i.rateB);
  }

  lemma NeededIff(row: PairRow, fx: real)
    requires Proper(row.item, fx)
    ensures var i := row.item;
      && i.amountA > 0.0
      && (Needed(row) == Discrepant <==> !(i.delta / i.amountA <= D.AMOUNT_THRESHOLD_PCT))
      && (i.withinFx <==> i.delta / i.amountA <= fx)
  {
    var i := row.item;
    D.AmountVerdicts(i.amountA, i.amountB, i.rateA, i.rateB);
  }

  // For any configured threshold, in every run: the two notions part ways on
  // exactly the committed pairs whose relative delta lies between it and the
  // classifier's 0.5%.
  lemma ThresholdsDisagree(steps: seq<Step>, fx: real)
    requires forall i :: 0 <= i < |steps| ==> ProperStep(steps[i], fx)
    ensures var db := Run(steps).committed;
      forall p :: p in db.pairs ==>
        var i := db.pairs[p].item;
        && i.amountA > 0.0
        && ((db.pairs[p].status == Discrepant <==> !i.withinFx) <==>
            (i.delta / i.amountA <= fx <==> i.delta / i.amountA <= D.AMOUNT_THRESHOLD_PCT))
  {
    hide Run, Coherent, Proper, VerdictOf;
    AlwaysInv(steps, fx);
    var db := Run(steps).committed;
    CoherentAgrees(db, fx);
    forall p | p in db.pairs
      ensures var i := db.pairs[p].item;
        && i.amountA > 0.0
        && ((db.pairs[p].status == Discrepant <==> !i.withinFx) <==>
            (i.delta / i.amountA <= fx <==> i.delta / i.amountA <= D.AMOUNT_THRESHOLD_PCT))
    {
      NeededIff(db.pairs[p], fx);
    }
  }

  // The statements of a run that writes one pair, undisturbed.
  function OnePairRun(i: Item, id: nat): seq<Step> {
    [StartRun(0, [i]), NextPair(0, id), IndexFirst(0), IndexSecond(0), Release(0), CommitRun(0)]
  }

  // A pair that is a discrepancy although it is within the configured
  // threshold of 1%: 1000 against 993.
  lemma FlaggedWithinThreshold()
    ensures var i := Item(1, 2, 1000.0, 993.0, None, None, 7.0, true);
      && (forall k :: 0 <= k < 6 ==> ProperStep(OnePairRun(i, 9)[k], 0.01))
      && Run(OnePairRun(i, 9)).committed.pairs == map[9 := PairRow(i, Discrepant)]
  {
    var i := Item(1, 2, 1000.0, 993.0, None, None, 7.0, true);
    OnePairWritten(i, 9);
  }

  lemma OnePairWritten(i: Item, id: nat)
    requires i.a != i.b
    ensures Run(OnePairRun(i, id)).committed.pairs
            == map[id := PairRow(i, if VerdictOf(i).Some? then Discrepant else Matched)]
  {
    hide Next, VerdictOf;
    SixSteps(OnePairRun(i, id));
    FirstHalf(i, id);
    SecondHalf(i, id);
  }

  lemma SixSteps(steps: seq<Step>)
    requires |steps| == 6
    ensures Run(steps) == Next(Next(Next(Next(Next(Next(
              State(EMPTY, map[]), steps[0]), steps[1]), steps[2]), steps[3]), steps[4]), steps[5])
  {
    hide Next;
    forall n | 0 < n <= 6 ensures Run(steps[..n]) == Next(Run(steps[..n - 1]), steps[n - 1]) {
      var some := steps[..n];
      assert some[..|some| - 1] == steps[..n - 1] && some[|some| - 1] == steps[n - 1];
    }
    assert steps[..6] == steps && Run(steps[..0]) == State(EMPTY, map[]);
  }

  // Run 0 alone, over empty tables.
  function Alone(t: Txn): State { State(EMPTY, map[0 := t]) }

  function HalfIndexed(i: Item, id: nat): Txn {
    Txn([i], Db(map[id := PairRow(i, Matched)], map[i.a := id], map[]), FirstIndexed, id, EMPTY, 0, 0)
  }

  lemma FirstHalf(i: Item, id: nat)
    ensures Next(Next(Next(State(EMPTY, map[]), StartRun(0, [i])), NextPair(0, id)), IndexFirst(0))
            == Alone(HalfIndexed(i, id))
  {
    var t := Txn([i], EMPTY, BetweenPairs, 0, EMPTY, 0, 0);
    assert Next(State(EMPTY, map[]), StartRun(0, [i])) == Alone(t);
    PairGoesIn(i, id);
    PairIndexed(i, id);
  }

  function JustInserted(i: Item, id: nat): Txn {
    Txn([i], Db(map[id := PairRow(i, Matched)], map[], map[]), PairInserted, id, EMPTY, 0, 0)
  }

  lemma PairGoesIn(i: Item, id: nat)
    ensures Next(Alone(Txn([i], EMPTY, BetweenPairs, 0, EMPTY, 0, 0)), NextPair(0, id)) == Alone(JustInserted(i, id))
  {
    assert InsertPair(EMPTY, Txn([i], EMPTY, BetweenPairs, 0, EMPTY, 0, 0), id) == JustInserted(i, id);
  }

  lemma PairIndexed(i: Item, id: nat)
    ensures Next(Alone(JustInserted(i, id)), IndexFirst(0)) == Alone(HalfIndexed(i, id))
  {
    hide InsertPair, RaiseAndRelease;
    assert IndexTx(EMPTY, JustInserted(i, id), i.a, FirstIndexed) == HalfIndexed(i, id);
  }

  function FullyIndexed(i: Item, id: nat): Txn {
    Txn([i], Db(map[id := PairRow(i, Matched)], map[i.a := id, i.b := id], map[]), BothIndexed, id, EMPTY, 0, 0)
  }

  lemma SecondHalf(i: Item, id: nat)
    requires i.a != i.b
    ensures var s := Next(Next(Next(Alone(HalfIndexed(i, id)), IndexSecond(0)), Release(0)), CommitRun(0));
      s.committed.pairs == map[id := PairRow(i, if VerdictOf(i).Some? then Discrepant else Matched)]
  {
    hide Next, VerdictOf;
    SecondIndexed(i, id);
    Released(i, id);
    AloneCommits(RaiseAndRelease(EMPTY, FullyIndexed(i, id)));
  }

  lemma SecondIndexed(i: Item, id: nat)
    requires i.a != i.b
    ensures Next(Alone(HalfIndexed(i, id)), IndexSecond(0)) == Alone(FullyIndexed(i, id))
  {
    hide InsertPair, RaiseAndRelease;
    assert IndexTx(EMPTY, HalfIndexed(i, id), i.b, BothIndexed) == FullyIndexed(i, id);
  }

  lemma Released(i: Item, id: nat)
    ensures var u := RaiseAndRelease(EMPTY, FullyIndexed(i, id));
      && Next(Alone(FullyIndexed(i, id)), Release(0)) == Alone(u)
      && u.todo == [] && u.stage == BetweenPairs
      && u.own.pairs == map[id := PairRow(i, if VerdictOf(i).Some? then Discrepant else Matched)]
  {
    hide InsertPair, IndexTx, VerdictOf;
  }

  lemma AloneCommits(u: Txn)
    requires u.todo == [] && u.stage == BetweenPairs
    ensures Next(Alone(u), CommitRun(0)).committed.pairs == u.own.pairs
  {
    hide InsertPair, IndexTx, RaiseAndRelease;
    assert map[] + u.own.pairs == u.own.pairs;
  }

  function ItemOf(a: Candidate, b: Candidate, r: MatchResult, rateA: Option<real>, rateB: Option<real>): Item {
    Item(a.id, b.id, a.amount, b.amount, rateA, rateB, if r.delta.Some? then r.delta.value else 0.0, r.withinFx)
  }

  // What matching produces is what persistence relies on.
  lemma SoundMatchesAreProper(
    a: Candidate, b: Candidate, r: MatchResult, cfg: Config, rateA: Option<real>, rateB: Option<real>)
    requires ValidConfig(cfg) && cfg.fxThreshold >= 0.0 && a.amount > 0.0 && b.amount > 0.0
    requires SoundMatch(a, b, r, cfg)
    ensures Proper(ItemOf(a, b, r, rateA, rateB), cfg.fxThreshold)
  {
    assert a.amount == b.amount ==> AbsReal(a.amount - b.amount) / a.amount == 0.0;
    hide Score;
  }

  // ---- the code of one run ---------------------------------------------------------------

  // One pair, written or rejected by a clash, seen from inside the session.
  // Returns the tables, whether the pair was written, and how many
  // discrepancies were raised.
  function PersistOne(db: Db, i: Item, id: nat): (Db, nat, nat) {
    if HasPair(db, i) || i.a in db.index || i.b in db.index || i.a == i.b then (db, 0, 0)
    else
      var index := db.index[i.a := id][i.b := id];
      match VerdictOf(i)
      case None => (Db(db.pairs[id := PairRow(i, Matched)], index, db.discs), 1, 0)
      case Some(v) =>
        var key := DiscKey(i.a, v.class_);
        if key in db.discs then (Db(db.pairs[id := PairRow(i, Matched)], index, db.discs), 1, 0)
        else (Db(db.pairs[id := PairRow(i, Discrepant)], index, db.discs[key := Some(id)]), 1, 1)
  }

  function PersistAll(db: Db, items: seq<Item>, ids: seq<nat>): (Db, nat, nat)
    requires |items| == |ids|
  {
    if items == [] then (db, 0, 0)
    else
      var (d, w, r) := PersistAll(db, items[..|items| - 1], ids[..|ids| - 1]);
      var (d1, w1, r1) := PersistOne(d, items[|items| - 1], ids[|ids| - 1]);
      (d1, w + w1, r + r1)
  }

  // A pair is written unless it exists, or one of its transactions is already
  // matched, and it is then indexed for both.
  lemma WrittenIff(db: Db, i: Item, id: nat)
    requires id !in db.pairs
    ensures var (d, w, r) := PersistOne(db, i, id);
      && (w == 1 <==> !HasPair(db, i) && i.a !in db.index && i.b !in db.index && i.a != i.b)
      && (w == 1 ==> id in d.pairs && d.pairs[id].item == i && i.a in d.index && d.index[i.a] == id
                     && i.b in d.index && d.index[i.b] == id)
      && (w != 1 ==> w == 0 && r == 0 && d == db)
      && (forall p :: p in db.pairs ==> p in d.pairs && d.pairs[p] == db.pairs[p])
      && |d.pairs| == |db.pairs| + w && |d.discs| == |db.discs| + r
  {
    hide VerdictOf, HasPair;
  }

  // The two counters are the pairs and the discrepancies that are new.
  lemma {:induction false} CountersAreExact(db: Db, items: seq<Item>, ids: seq<nat>)
    requires |items| == |ids| && Distinct(ids) && forall k :: 0 <= k < |ids| ==> ids[k] !in db.pairs
    ensures var (d, w, r) := PersistAll(db, items, ids);
      && |d.pairs| == |db.pairs| + w && |d.discs| == |db.discs| + r
      && (forall p :: p in d.pairs ==> p in db.pairs || p in ids)
  {
    hide PersistOne;
    if items != [] {
      var n := |items| - 1;
      CountersAreExact(db, items[..n], ids[..n]);
      var (d, w, r) := PersistAll(db, items[..n], ids[..n]);
      assert ids == ids[..n] + [ids[n]] && ids[n] !in ids[..n];
      WrittenIff(d, items[n], ids[n]);
      OnlyOwnPair(d, items[n], ids[n]);
    }
  }

  lemma OnlyOwnPair(db: Db, i: Item, id: nat)
    ensures forall p :: p in PersistOne(db, i, id).0.pairs ==> p in db.pairs || p == id
  {
    hide VerdictOf, HasPair;
  }

  class GoldTables {
    var pairs: map<nat, PairRow>
    var index: map<nat, nat>
    var discs: map<DiscKey, Option<nat>>

    function View(): Db
      reads this
    {
      Db(pairs, index, discs)
    }

    constructor ()
      ensures View() == EMPTY
    {
      pairs, index, discs := map[], map[], map[];
    }

    // INSERT into gold_matched_transactions; false on a primary key clash.
    method InsertIndexed(tx: nat, id: nat) returns (ok: bool)
      modifies this`index
      ensures ok <==> tx !in old(index)
      ensures index == if ok then old(index)[tx := id] else old(index)
    {
      ok := tx !in index;
      if ok {
        index := index[tx := id];
      }
    }

    // `_raise_amount_discrepancy`, guarded as its caller guards it.
    method RaiseAmountDiscrepancy(i: Item, id: nat) returns (raised: nat)
      requires id in pairs && pairs[id] == PairRow(i, Matched)
      modifies this
      ensures index == old(index)
      ensures raised == if VerdictOf(i).Some? && DiscKey(i.a, VerdictOf(i).value.class_) !in old(discs) then 1 else 0
      ensures raised == 0 ==> View() == old(View())
      ensures raised == 1 ==> pairs == old(pairs)[id := PairRow(i, Discrepant)]
      ensures raised == 1 ==> discs == old(discs)[DiscKey(i.a, VerdictOf(i).value.class_) := Some(id)]
    {
      raised := 0;
      if i.delta > 0.0 {
        var v := D.ClassifyAmount(i.amountA, i.amountB, i.rateA, i.rateB);
        if v.Some? && DiscKey(i.a, v.value.class_) !in discs {
          discs := discs[DiscKey(i.a, v.value.class_) := Some(id)];
          pairs := pairs[id := PairRow(i, Discrepant)];
          raised := 1;
        }
      }
    }

    // One savepoint: all of its rows, or none of them.
    method PersistPair(i: Item, id: nat) returns (written: nat, raised: nat)
      requires id !in pairs
      modifies this
      ensures (View(), written, raised) == PersistOne(old(View()), i, id)
      ensures pairs.Keys <= old(pairs.Keys) + {id}
    {
      hide VerdictOf;
      written, raised := 0, 0;
      if HasPair(View(), i) {
        return;
      }
      var saved := View();
      pairs := pairs[id := PairRow(i, Matched)];
      var ok := InsertIndexed(i.a, id);
      if ok {
        ok := InsertIndexed(i.b, id);
      }
      if !ok {
        pairs, index, discs := saved.pairs, saved.index, saved.discs;
        return;
      }
      raised := RaiseAmountDiscrepancy(i, id);
      written := 1;
      assert pairs == saved.pairs[id := PairRow(i, if raised == 1 then Discrepant else Matched)];
    }

    method PersistPairs(items: seq<Item>, ids: seq<nat>) returns (written: nat, raised: nat)
      requires |items| == |ids| && (forall k :: 0 <= k < |ids| ==> ids[k] !in pairs) && Distinct(ids)
      modifies this
      ensures (View(), written, raised) == PersistAll(old(View()), items, ids)
    {
      hide PersistOne;
      written, raised := 0, 0;
      var k := 0;
      while k < |items|
        invariant 0 <= k <= |items|
        invariant (View(), written, raised) == PersistAll(old(View()), items[..k], ids[..k])
        invariant forall j :: k <= j < |ids| ==> ids[j] !in pairs
      {
        var w, r := PersistPair(items[k], ids[k]);
        written, raised := written + w, raised + r;
        assert items[..k + 1][..k] == items[..k] && ids[..k + 1][..k] == ids[..k];
        k := k + 1;
      }
      assert items[..k] == items && ids[..k] == ids;
    }
  }

  // The statements of one savepoint, undisturbed.
  function Savepoint(c: Db, t: Txn, id: nat): Txn
    requires t.todo != [] && t.stage == BetweenPairs
  {
    var i := t.todo[0];
    var t1 := InsertPair(c, t, id);
    if t1.stage == BetweenPairs then t1
    else
      var t2 := IndexTx(c, t1, i.a, FirstIndexed);
      if t2.stage == BetweenPairs then t2
      else
        var t3 := IndexTx(c, t2, i.b, BothIndexed);
        if t3.stage == BetweenPairs then t3 else RaiseAndRelease(c, t3)
  }

  // They have the effect the code computes: the session sees the committed
  // tables with its own rows on top.
  lemma SavepointIsPersistOne(c: Db, t: Txn, id: nat)
    requires t.todo != [] && t.stage == BetweenPairs && Apart(c, t.own)
    requires id !in c.pairs && id !in t.own.pairs
    ensures var t4 := Savepoint(c, t, id);
      var (db, w, r) := PersistOne(Merge(c, t.own), t.todo[0], id);
      && Merge(c, t4.own) == db && t4.written == t.written + w && t4.raised == t.raised + r
      && t4.todo == t.todo[1..] && t4.stage == BetweenPairs
  {
    hide PersistOne, HasPair, Savepoint;
    var i := t.todo[0];
    MergedPairs(c, t.own, i);
    if HasPair(c, i) || HasPair(t.own, i) || !Unclaimed(c, i) || !Unclaimed(t.own, i) || i.a == i.b {
      SavepointRejected(c, t, id);
    } else {
      SavepointWrites(c, t, id);
    }
  }

  lemma SavepointRejected(c: Db, t: Txn, id: nat)
    requires t.todo != [] && t.stage == BetweenPairs
    requires var i := t.todo[0];
      HasPair(c, i) || HasPair(t.own, i) || !Unclaimed(c, i) || !Unclaimed(t.own, i) || i.a == i.b
    requires HasPair(Merge(c, t.own), t.todo[0]) <==> HasPair(c, t.todo[0]) || HasPair(t.own, t.todo[0])
    ensures Savepoint(c, t, id) == t.(todo := t.todo[1..], own := t.own, stage := BetweenPairs,
                                       pairId := Savepoint(c, t, id).pairId, saved := Savepoint(c, t, id).saved)
    ensures PersistOne(Merge(c, t.own), t.todo[0], id) == (Merge(c, t.own), 0, 0)
  {
    hide VerdictOf, HasPair, RaiseAndRelease;
  }

  predicate Unclaimed(d: Db, i: Item) { i.a !in d.index && i.b !in d.index }

  // The transaction once both index rows are in.
  function Indexed(t: Txn, id: nat): Txn
    requires t.todo != []
  {
    var i := t.todo[0];
    t.(own := Db(t.own.pairs[id := PairRow(i, Matched)], t.own.index[i.a := id][i.b := id], t.own.discs),
       stage := BothIndexed, pairId := id, saved := t.own)
  }

  lemma SavepointReaches(c: Db, t: Txn, id: nat)
    requires t.todo != [] && t.stage == BetweenPairs
    requires !HasPair(c, t.todo[0]) && !HasPair(t.own, t.todo[0])
    requires Unclaimed(c, t.todo[0]) && Unclaimed(t.own, t.todo[0]) && t.todo[0].a != t.todo[0].b
    ensures Savepoint(c, t, id) == RaiseAndRelease(c, Indexed(t, id))
  {
    hide RaiseAndRelease, HasPair;
  }

  lemma SavepointWrites(c: Db, t: Txn, id: nat)
    requires t.todo != [] && t.stage == BetweenPairs && Apart(c, t.own)
    requires id !in c.pairs && id !in t.own.pairs
    requires !HasPair(c, t.todo[0]) && !HasPair(t.own, t.todo[0]) && !HasPair(Merge(c, t.own), t.todo[0])
    requires Unclaimed(c, t.todo[0]) && Unclaimed(t.own, t.todo[0]) && t.todo[0].a != t.todo[0].b
    ensures var t4 := Savepoint(c, t, id);
      var (db, w, r) := PersistOne(Merge(c, t.own), t.todo[0], id);
      && Merge(c, t4.own) == db && t4.written == t.written + w && t4.raised == t.raised + r
      && t4.todo == t.todo[1..] && t4.stage == BetweenPairs
  {
    SavepointReaches(c, t, id);
    hide VerdictOf, HasPair, Savepoint;
    var (i, t3) := (t.todo[0], Indexed(t, id));
    MapPlus(c.index, t.own.index, i.a, id);
    MapPlus(c.index, t.own.index[i.a := id], i.b, id);
    MapPlus(c.pairs, t.own.pairs, id, PairRow(i, Matched));
    MapPlus(c.pairs, t.own.pairs, id, PairRow(i, Discrepant));
    assert t3.own.pairs[id := PairRow(i, Discrepant)] == t.own.pairs[id := PairRow(i, Discrepant)];
    if VerdictOf(i).Some? {
      MapPlus(c.discs, t.own.discs, DiscKey(i.a, VerdictOf(i).value.class_), Some(id));
    }
  }

  lemma MapPlus<K, V>(m: map<K, V>, n: map<K, V>, k: K, v: V)
    ensures m + n[k := v] == (m + n)[k := v]
  {
  }

  lemma MergedPairs(c: Db, d: Db, i: Item)
    requires Apart(c, d)
    ensures HasPair(Merge(c, d), i) <==> HasPair(c, i) || HasPair(d, i)
  {
    var m := Merge(c, d);
    if p :| p in c.pairs && SamePair(c.pairs[p], i) { assert m.pairs[p] == c.pairs[p]; }
    if p :| p in d.pairs && SamePair(d.pairs[p], i) { assert m.pairs[p] == d.pairs[p]; }
    if p :| p in m.pairs && SamePair(m.pairs[p], i) { assert p in c.pairs || p in d.pairs; }
  }
}
